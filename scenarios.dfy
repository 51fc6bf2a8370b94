/** Whole lifecycles of a CByteArray, written as clients of the class. Each one ends with
    every allocation it made given back, and none given back twice. */
module Scenarios {
  import opened Memory
  import opened Protocol
  import opened FfiByteArray

  /** A record over [1, 2, 3] with capacity 8: the foreign side reads the three bytes, then
      releases the record twice; the second release does nothing. */
  method ReleaseTwice(heap: Heap)
    requires heap.Valid()
    modifies heap
    ensures heap.Valid() && heap.live == old(heap.live)
  {
    var v := heap.Allocate([1, 2, 3], 8);
    var r := CByteArray.From(heap, v);
    var n := r.Size();
    var p := r.Data(heap);
    assert n == 3 && r.capacity == 8 && p != NULL;
    assert ReadBytes(heap.live, p, n) == [1, 2, 3];

    r.ReleaseIfAllocated(heap);
    assert r.Raw() == NullFields() && heap.live == old(heap.live);
    r.ReleaseIfAllocated(heap);
    assert r.Raw() == NullFields();
    // The record leaves scope: its drop finds it null and frees nothing.
    r.Drop(heap);
  }

  /** A null record: size 0, null data, and releasing it changes nothing. */
  method NullRecord(heap: Heap)
    requires heap.Valid()
    modifies heap
    ensures heap.Valid() && heap.live == old(heap.live)
  {
    var r := new CByteArray.Null();
    var n := r.Size();
    var p := r.Data(heap);
    assert n == 0 && p == NULL;
    r.ReleaseIfAllocated(heap);
    assert r.Raw() == NullFields();
    FreeCByteArray(heap, null);
    FreeCByteArray(heap, r);
  }

  /** Into a record and back: the Vec that comes out has the same buffer, bytes, length and
      capacity. The record's drop happens inside IntoVec, which consumes it, and frees
      nothing; the Vec's drop frees the buffer. */
  method RoundTrip(heap: Heap, init: seq<Byte>, cap: nat)
    requires heap.Valid() && |init| <= cap
    modifies heap
    ensures heap.Valid() && heap.live == old(heap.live)
  {
    var v := heap.Allocate(init, cap);
    var r := new CByteArray.New(heap, v);
    var w := r.IntoVec(heap);
    assert w == v && Contents(heap.live, w) == init;
    heap.DropVec(w);
  }

  /** The foreign side frees the record through free_c_byte_array, twice; then the record
      leaves scope on the managed side. The buffer is freed once. */
  method ForeignFree(heap: Heap, init: seq<Byte>, cap: nat)
    requires heap.Valid() && |init| <= cap
    modifies heap
    ensures heap.Valid() && heap.live == old(heap.live)
  {
    var v := heap.Allocate(init, cap);
    var r := new CByteArray.New(heap, v);
    FreeCByteArray(heap, r);
    FreeCByteArray(heap, r);
    r.Drop(heap);
  }

  /** An empty Vec gives a record with a non-null pointer and capacity 0; releasing it
      frees nothing, since no allocation stands behind it. */
  method EmptyVec(heap: Heap)
    requires heap.Valid()
    modifies heap
    ensures heap.Valid() && heap.live == old(heap.live)
  {
    var v := heap.Allocate([], 0);
    var r := new CByteArray.New(heap, v);
    var p := r.Data(heap);
    assert p == DANGLING && r.capacity == 0;
    r.ReleaseIfAllocated(heap);
  }

  /** Two records over two buffers: releasing one leaves the other valid and its bytes
      intact, and releasing both gives back exactly the two buffers. */
  method TwoRecords(heap: Heap)
    requires heap.Valid()
    modifies heap
    ensures heap.Valid() && heap.live.Keys == old(heap.live).Keys
  {
    var v := heap.Allocate([7], 4);
    var a := new CByteArray.New(heap, v);
    ghost var withA := heap.live;
    var w := heap.Allocate([8, 9], 2);
    var b := new CByteArray.New(heap, w);
    // Allocating and handing over w's buffer leaves a's buffer as it was.
    assert a.Valid(heap) by {
      assert heap.live[v.ptr] == withA[v.ptr];
    }
    ghost var before, aFields := heap.live, a.Raw();
    a.ReleaseIfAllocated(heap);
    assert b.Valid(heap) && b.bytes == [8, 9] by {
      ReleaseKeepsOthers(before, aFields, RecordOwner(a), b.Raw(), RecordOwner(b));
    }
    b.ReleaseIfAllocated(heap);
  }
}
