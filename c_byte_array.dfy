/** CByteArray: a C-compatible record over a byte buffer allocated on the managed side.
    It takes a Vec<u8> apart into pointer, size and capacity, lets a foreign caller hold
    it, and later either turns back into the Vec or gives the buffer back to the allocator. */
module FfiByteArray {
  import opened Memory
  import opened Protocol

  class CByteArray {
    var data: Addr
    var size: nat
    var capacity: nat
    /** The bytes a foreign caller may read: `size` bytes from `data`. */
    ghost var bytes: seq<Byte>

    /** The record's fields as a value. */
    function Raw(): Fields
      reads this
    {
      Fields(data, size, capacity)
    }

    /** What holds of every record, whatever the heap: null means size 0 and capacity 0, the
        size never exceeds the capacity, and the view has `size` bytes. */
    ghost predicate Shape()
      reads this
    {
      (data == NULL ==> size == 0 && capacity == 0) && size <= capacity && |bytes| == size
    }

    /** The record invariant against the heap: the record alone holds its buffer, and the
        view is what reading `size` bytes from `data` yields. */
    ghost predicate Valid(heap: Heap)
      reads this, heap
    {
      heap.Valid() && Sound(heap.live, Raw(), RecordOwner(this)) &&
      bytes == ReadBytes(heap.live, data, size)
    }

    /** CByteArray::null(): no buffer; no allocation is touched. */
    constructor Null()
      ensures Raw() == NullFields() && bytes == [] && Shape()
    {
      data, size, capacity := NULL, 0, 0;
      bytes := [];
    }

    /** CByteArray::new(v): records v's pointer, length and capacity unchanged, then forgets
        v, so the record alone is responsible for the buffer. */
    constructor New(heap: Heap, v: Vec)
      requires heap.Valid() && Holds(heap.live, v, VecOwner)
      modifies heap`live
      ensures Valid(heap) && Shape()
      ensures (heap.live, Raw()) == Taken(old(heap.live), v, RecordOwner(this))
      ensures bytes == Contents(old(heap.live), v)
    {
      data, size, capacity := v.ptr, v.len, v.cap;
      bytes := Contents(heap.live, v);
      new;
      heap.Forget(v, RecordOwner(this));
    }

    /** impl From<Vec<u8>> for CByteArray: the same as new. */
    static method From(heap: Heap, v: Vec) returns (r: CByteArray)
      requires heap.Valid() && Holds(heap.live, v, VecOwner)
      modifies heap`live
      ensures fresh(r) && r.Valid(heap) && r.Shape()
      ensures (heap.live, r.Raw()) == Taken(old(heap.live), v, RecordOwner(r))
      ensures r.bytes == Contents(old(heap.live), v)
    {
      r := new CByteArray.New(heap, v);
    }

    /** CByteArray::into_vec: a Vec over the same parts takes the buffer back, without copying;
        the record is set to null, so dropping it afterwards frees nothing.
        Unsafe in the source: the fields must be exactly those new produced. */
    method IntoVec(heap: Heap) returns (v: Vec)
      requires Valid(heap) && data != NULL
      modifies this, heap`live
      ensures (heap.live, v) == Reclaimed(old(heap.live), old(Raw()), RecordOwner(this))
      ensures Contents(heap.live, v) == old(bytes)
      ensures Valid(heap) && Shape() && Raw() == NullFields()
    {
      v := heap.FromRawParts(data, size, capacity, RecordOwner(this));
      SetNull();
      // `self` was taken by value and goes out of scope here.
      Drop(heap);
    }

    /** CByteArray::release_if_allocated: nothing when null; otherwise the buffer is rebuilt
        into a Vec that is dropped at once, and the record is set to null. */
    method ReleaseIfAllocated(heap: Heap)
      requires Valid(heap)
      modifies this, heap`live
      ensures Valid(heap) && Shape()
      ensures (heap.live, Raw()) == Released(old(heap.live), old(Raw()), RecordOwner(this))
    {
      if data == NULL {
        return;
      }
      var v := heap.FromRawParts(data, size, capacity, RecordOwner(this));
      heap.DropVec(v);
      SetNull();
    }

    /** CByteArray::set_null: pointer, size and capacity back to their null values. */
    method SetNull()
      modifies this
      ensures Raw() == NullFields() && bytes == [] && Shape()
    {
      data, size, capacity := NULL, 0, 0;
      bytes := [];
    }

    /** impl Drop for CByteArray: release the buffer if there is one. */
    method Drop(heap: Heap)
      requires Valid(heap)
      modifies this, heap`live
      ensures Valid(heap) && Shape()
      ensures (heap.live, Raw()) == Released(old(heap.live), old(Raw()), RecordOwner(this))
    {
      ReleaseIfAllocated(heap);
    }

    /** CByteArray::data: the stored pointer; reading `size` bytes from it gives the record's
        bytes, and it is null only for a null record. */
    method Data(ghost heap: Heap) returns (p: Addr)
      ensures p == data
      ensures Shape() && p == NULL ==> Raw() == NullFields()
      ensures Valid(heap) ==> ReadBytes(heap.live, p, size) == bytes
    {
      p := data;
    }

    /** CByteArray::size: the stored size, the number of bytes the record exposes. */
    method Size() returns (n: nat)
      ensures n == size
      ensures Shape() ==> n == |bytes| && n <= capacity
    {
      n := size;
    }
  }

  /** free_c_byte_array: nothing for a null record pointer; otherwise the record is released
      in place (its fields become null). Only the record's buffer is freed, not the record's
      own storage: Released removes exactly Buffer of the old fields from the live keys. */
  method FreeCByteArray(heap: Heap, ptr: CByteArray?)
    requires ptr != null ==> ptr.Valid(heap)
    modifies heap`live, ptr
    ensures ptr == null ==> heap.live == old(heap.live)
    ensures ptr != null ==> ptr.Valid(heap) && ptr.Shape()
    ensures ptr != null ==>
      (heap.live, ptr.Raw()) == Released(old(heap.live), old(ptr.Raw()), RecordOwner(ptr))
  {
    if ptr == null {
      return;
    }
    ptr.ReleaseIfAllocated(heap);
  }
}
