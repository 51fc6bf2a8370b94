/** The memory underneath a CByteArray: the global allocator behind Vec<u8>, seen as a
    map from address to live allocation, and a Vec<u8> seen as its three raw parts.
    Each live allocation carries a ghost owner tag: the party that will free it. */
module Memory {

  type Byte = b: int | 0 <= b < 256

  /** A machine address; 0 is the null pointer. */
  type Addr = nat

  const NULL: Addr := 0

  /** Where a Vec<u8> with no allocation points (NonNull::dangling() for alignment 1).
      The allocator never hands out this address. */
  const DANGLING: Addr := 1

  /** The party responsible for freeing an allocation: a Vec, or the record that took it over. */
  datatype Owner = VecOwner | RecordOwner(record: object)

  /** A live allocation: all of its bytes (as many as its capacity) and its owner. */
  datatype Block = Block(bytes: seq<Byte>, owner: Owner)

  /** The live allocations, by address. */
  type Live = map<Addr, Block>

  /** A Vec<u8> as its raw parts: buffer pointer, length and capacity. */
  datatype Vec = Vec(ptr: Addr, len: nat, cap: nat)

  /** The allocations a Vec with these parts frees when dropped: none when its capacity is 0. */
  function Buffer(v: Vec): set<Addr> {
    if v.cap > 0 then {v.ptr} else {}
  }

  /** The parts describe a Vec<u8>: a non-null pointer, a length within the capacity, and,
      unless the capacity is 0, a live allocation of exactly that capacity. */
  predicate WellFormed(live: Live, v: Vec) {
    v.ptr != NULL && v.len <= v.cap &&
    (v.cap > 0 ==> v.ptr in live && |live[v.ptr].bytes| == v.cap)
  }

  /** Well-formed, and `who` is the one responsible for freeing the buffer. */
  predicate Holds(live: Live, v: Vec, who: Owner) {
    WellFormed(live, v) && (v.cap > 0 ==> live[v.ptr].owner == who)
  }

  /** Reading `n` bytes starting at `p`; reading nothing is allowed at any address. */
  function ReadBytes(live: Live, p: Addr, n: nat): (s: seq<Byte>)
    requires n == 0 || (p in live && n <= |live[p].bytes|)
    ensures |s| == n
    ensures n > 0 ==> forall i :: 0 <= i < n ==> s[i] == live[p].bytes[i]
  {
    if n == 0 then [] else live[p].bytes[..n]
  }

  /** The elements of a Vec: the first `len` bytes of its buffer. */
  function Contents(live: Live, v: Vec): (s: seq<Byte>)
    requires WellFormed(live, v)
    ensures |s| == v.len
  {
    ReadBytes(live, v.ptr, v.len)
  }

  /** Hands the buffer of `v` to a new owner; no byte and no other allocation changes. */
  function Reown(live: Live, v: Vec, to: Owner): (r: Live)
    requires WellFormed(live, v)
    ensures r.Keys == live.Keys
    ensures forall a :: a in live ==> r[a].bytes == live[a].bytes
    ensures forall a :: a in live && a !in Buffer(v) ==> r[a] == live[a]
    ensures Holds(r, v, to)
  {
    if v.cap == 0 then live else live[v.ptr := live[v.ptr].(owner := to)]
  }

  /** Dropping a Vec that owns its buffer: exactly that buffer is freed. */
  function Dealloc(live: Live, v: Vec): (r: Live)
    requires Holds(live, v, VecOwner)
    ensures r.Keys == live.Keys - Buffer(v)
    ensures forall a :: a in r ==> r[a] == live[a]
  {
    live - Buffer(v)
  }

  /** The global allocator. Addresses are handed out by a bump pointer and never reused,
      so an address names one allocation for the whole run. */
  class Heap {
    var next: Addr
    ghost var live: Live

    ghost predicate Valid()
      reads this
    {
      DANGLING < next &&
      forall a :: a in live ==> DANGLING < a < next
    }

    constructor ()
      ensures Valid() && live == map[]
    {
      next := DANGLING + 1;
      live := map[];
    }

    /** Vec::with_capacity(cap) followed by extend_from_slice(init): the managed side
        producing a Vec<u8> that owns a fresh buffer (or no buffer, for capacity 0). */
    method Allocate(init: seq<Byte>, cap: nat) returns (v: Vec)
      requires Valid() && |init| <= cap
      modifies this
      ensures Valid() && Holds(live, v, VecOwner)
      ensures v.len == |init| && v.cap == cap && Contents(live, v) == init
      ensures cap == 0 ==> v.ptr == DANGLING
      ensures Buffer(v) !! old(live).Keys
      ensures live - Buffer(v) == old(live)
    {
      if cap == 0 {
        v := Vec(DANGLING, 0, 0);
      } else {
        var pad: seq<Byte> := seq(cap - |init|, _ => 0);
        v := Vec(next, |init|, cap);
        live := live[next := Block(init + pad, VecOwner)];
        next := next + 1;
        assert Contents(live, v) == (init + pad)[..|init|];
      }
    }

    /** Vec::from_raw_parts: a Vec over the given parts takes over the buffer from `from`. */
    method FromRawParts(ptr: Addr, len: nat, cap: nat, ghost from: Owner) returns (v: Vec)
      requires Valid() && Holds(live, Vec(ptr, len, cap), from)
      modifies this`live
      ensures Valid() && v == Vec(ptr, len, cap)
      ensures live == Reown(old(live), v, VecOwner)
    {
      v := Vec(ptr, len, cap);
      live := Reown(live, v, VecOwner);
    }

    /** std::mem::forget on a Vec: it is disarmed and `to` takes over its buffer. */
    ghost method Forget(v: Vec, to: Owner)
      requires Valid() && Holds(live, v, VecOwner)
      modifies this`live
      ensures Valid() && live == Reown(old(live), v, to)
    {
      live := Reown(live, v, to);
    }

    /** Dropping a Vec<u8>: its buffer, if it has one, goes back to the allocator. */
    method DropVec(v: Vec)
      requires Valid() && Holds(live, v, VecOwner)
      modifies this`live
      ensures Valid() && live == Dealloc(old(live), v)
    {
      live := Dealloc(live, v);
    }
  }
}
