/** The ownership protocol of a CByteArray, on values: what each operation does to the
    three fields of the record and to the live allocations. The class in c_byte_array.dfy
    is proved against these functions; the lemmas here state what the protocol promises. */
module Protocol {
  import opened Memory

  /** The three fields of a CByteArray, in their C layout order. */
  datatype Fields = Fields(data: Addr, size: nat, capacity: nat)

  /** The fields of CByteArray::null(). */
  function NullFields(): Fields {
    Fields(NULL, 0, 0)
  }

  /** The Vec the fields stand for. */
  function AsVec(f: Fields): Vec {
    Vec(f.data, f.size, f.capacity)
  }

  /** The record invariant: null fields have size 0 and capacity 0; non-null fields are the
      raw parts of a Vec<u8> whose buffer `who` alone is responsible for. */
  predicate Sound(live: Live, f: Fields, who: Owner) {
    if f.data == NULL then f.size == 0 && f.capacity == 0 else Holds(live, AsVec(f), who)
  }

  /** CByteArray::new: the record takes `v`'s pointer, length and capacity as they are, and
      `who` takes over the buffer from the forgotten Vec. */
  function Taken(live: Live, v: Vec, who: Owner): (r: (Live, Fields))
    requires Holds(live, v, VecOwner)
    ensures AsVec(r.1) == v
    ensures r.1.data != NULL && r.1.size <= r.1.capacity
    ensures Sound(r.0, r.1, who) && Holds(r.0, v, who)
    ensures r.0.Keys == live.Keys
    ensures Contents(r.0, v) == Contents(live, v)
  {
    (Reown(live, v, who), Fields(v.ptr, v.len, v.cap))
  }

  /** CByteArray::into_vec: a Vec over the same parts takes the buffer back from the record;
      nothing is allocated, freed or copied. */
  function Reclaimed(live: Live, f: Fields, who: Owner): (r: (Live, Vec))
    requires Sound(live, f, who) && f.data != NULL
    ensures r.1.ptr == f.data && r.1.len == f.size && r.1.cap == f.capacity
    ensures Holds(r.0, r.1, VecOwner)
    ensures r.0.Keys == live.Keys
    ensures Contents(r.0, r.1) == Contents(live, AsVec(f))
  {
    (Reown(live, AsVec(f), VecOwner), AsVec(f))
  }

  /** CByteArray::release_if_allocated: null fields stay as they are; otherwise the buffer is
      dropped as a Vec and the fields are reset. Either way the record ends null, exactly the
      record's buffer is freed, and every other allocation is untouched. */
  function Released(live: Live, f: Fields, who: Owner): (r: (Live, Fields))
    requires Sound(live, f, who)
    ensures r.1 == NullFields()
    ensures r.0.Keys == live.Keys - Buffer(AsVec(f))
    ensures forall a :: a in r.0 ==> r.0[a] == live[a]
  {
    if f.data == NULL then (live, f)
    else
      var v := AsVec(f);
      (Dealloc(Reown(live, v, VecOwner), v), NullFields())
  }

  /** Releasing the same record `n` times in a row. */
  function ReleasedRepeatedly(live: Live, f: Fields, who: Owner, n: nat): (Live, Fields)
    requires Sound(live, f, who)
    decreases n
  {
    if n == 0 then (live, f)
    else
      var s := Released(live, f, who);
      ReleasedRepeatedly(s.0, s.1, who, n - 1)
  }

  /** Release is idempotent: any number of releases after the first has no further effect,
      so the buffer is freed at most once. */
  lemma {:induction false} ReleaseIdempotent(live: Live, f: Fields, who: Owner, n: nat)
    requires Sound(live, f, who) && n >= 1
    ensures ReleasedRepeatedly(live, f, who, n) == Released(live, f, who)
    decreases n
  {
    var s := Released(live, f, who);
    if n > 1 {
      ReleaseIdempotent(s.0, s.1, who, n - 1);
      assert Released(s.0, s.1, who) == s;
    }
  }

  /** After a release the freed buffer is no longer live, and a second release frees nothing. */
  lemma NoDoubleFree(live: Live, f: Fields, who: Owner)
    requires Sound(live, f, who)
    ensures var s := Released(live, f, who);
      Buffer(AsVec(f)) !! s.0.Keys && Released(s.0, s.1, who) == s
  {
  }

  /** Round trip: into_vec(new(v)) gives back `v` itself, and the allocations, bytes and
      owners are exactly as before new. */
  lemma RoundTrip(live: Live, v: Vec, who: Owner)
    requires Holds(live, v, VecOwner)
    ensures var t := Taken(live, v, who);
      Reclaimed(t.0, t.1, who) == (live, v)
  {
    var t := Taken(live, v, who);
    var r := Reclaimed(t.0, t.1, who);
    assert r.1 == v;
    assert r.0 == live by {
      forall a | a in live
        ensures r.0[a] == live[a]
      {
        if a in Buffer(v) {
          assert r.0[a].owner == VecOwner == live[a].owner;
        }
      }
    }
  }

  /** Handing a Vec to a record and releasing the record frees the same allocation, and
      nothing else, that dropping the Vec itself would have freed. */
  lemma ReleaseAfterTakeIsDrop(live: Live, v: Vec, who: Owner)
    requires Holds(live, v, VecOwner)
    ensures var t := Taken(live, v, who);
      Released(t.0, t.1, who).0 == Dealloc(live, v)
  {
  }

  /** Two different owners never hold the same buffer. This follows from the heap keeping one
      owner tag per address; the hand-overs that make a record the sole owner are Taken and
      Reclaimed, and the class methods keep Valid. */
  lemma SoleOwner(live: Live, f: Fields, who: Owner, g: Fields, other: Owner)
    requires Sound(live, f, who) && Sound(live, g, other) && who != other
    ensures Buffer(AsVec(f)) !! Buffer(AsVec(g))
  {
  }

  /** Releasing one record leaves every other sound record sound: only its own buffer goes. */
  lemma ReleaseKeepsOthers(live: Live, f: Fields, who: Owner, g: Fields, other: Owner)
    requires Sound(live, f, who) && Sound(live, g, other) && who != other
    ensures Sound(Released(live, f, who).0, g, other)
  {
  }

  /** new() on an empty Vec gives a record whose pointer is not null although its capacity
      is 0: the dangling pointer of the Vec, with no allocation behind it. */
  lemma EmptyVecGivesDanglingRecord(live: Live, who: Owner)
    ensures var t := Taken(live, Vec(DANGLING, 0, 0), who);
      t.1.data != NULL && t.1.capacity == 0 && t.0 == live
  {
  }
}
