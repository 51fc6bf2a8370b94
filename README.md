# CByteArray ownership model

A Dafny model of `CByteArray`, the C-compatible byte array of Trust Wallet Core's
`tw_memory` crate (`rust/tw_memory/src/ffi/c_byte_array.rs`). A `CByteArray` is a
three-field record (data pointer, size, capacity). It takes a `Vec<u8>` apart and
forgets it, so the record becomes the only owner of the buffer. A foreign (C) caller
holds the record, reads `size` bytes from `data`, and finally hands it back. At that
point the buffer either becomes a `Vec<u8>` again (`into_vec`) or is freed
(`release_if_allocated`, reached through `Drop` or `free_c_byte_array`).

What is proved is the ownership discipline:

- A buffer is freed at most once.
- A record built from a `Vec` turns back into exactly that `Vec`, with the same buffer, bytes, length and capacity.
- Release can be repeated with no further effect.
- Releasing a record frees its own buffer and nothing else.

Files:

- `memory.dfy` (module `Memory`) models what the code relies on but does not define.
  The allocator behind `Vec<u8>` is a ghost map from address to live allocation.
  Each allocation holds its bytes and a ghost *owner* tag: the `Vec` or the record
  responsible for freeing it. A `Vec<u8>` is modelled by its raw parts.
  `Vec::from_raw_parts`, `std::mem::forget` and dropping a `Vec` are methods of the
  `Heap` class, and each one moves or removes an owner tag. `DropVec` frees only a
  buffer that the `Vec` owns and that is live, so a double free does not verify.
- `protocol.dfy` (module `Protocol`) states each operation on values. The record's
  fields become a `Fields` value, and `Sound` is the record invariant. `Taken`,
  `Reclaimed` and `Released` give what `new`, `into_vec` and `release_if_allocated`
  do to the fields and to the live allocations. The lemmas relate these operations.
- `c_byte_array.dfy` (module `FfiByteArray`) is the record itself: a class with the
  fields `data`, `size` and `capacity`, and a ghost view `bytes`. Each method updates
  the fields in place as the Rust code does, and is proved equal to its `Protocol`
  function. `free_c_byte_array` is a method over a nullable record reference.
- `scenarios.dfy` (module `Scenarios`) holds whole lifecycles written as clients of
  the class. Each scenario proves that the heap ends with exactly the allocations it
  started with: nothing leaks and nothing is freed twice.

Two facts hold of every record: a null record has size 0 and capacity 0, and the size
never exceeds the capacity. The code does not keep "non-null if and only if the
capacity is positive": `new` on an empty `Vec` records the Vec's dangling, non-null pointer with capacity 0.
Nothing is allocated behind that pointer, and releasing such a record frees nothing,
because dropping a `Vec` of capacity 0 does not call the allocator. The model follows
the code (`Protocol.EmptyVecGivesDanglingRecord`, `Scenarios.EmptyVec`).

`into_vec` is unsafe in the source: its fields must be exactly the ones `new`
produced. The model states this as the precondition `Valid(heap) && data != NULL`.
That is, the record is non-null and, unless its capacity is 0, is the recorded owner
of a live buffer of exactly its capacity. `Vec::from_raw_parts` needs a non-null pointer, so a null record is excluded.

## Model

| member | source | states |
|---|---|---|
| `Memory.Heap.FromRawParts` | rust/tw_memory/src/ffi/c_byte_array.rs:65 | rebuilding a Vec from the record's parts gives a Vec over exactly those parts, which takes over ownership of the live buffer; no byte changes |
| `Memory.Heap.Forget` | rust/tw_memory/src/ffi/c_byte_array.rs:51 | forgetting the Vec disarms it: the record becomes the owner of the buffer, so the Vec can no longer free it |
| `Memory.Heap.DropVec` | rust/tw_memory/src/ffi/c_byte_array.rs:78 | dropping the temporary Vec frees exactly its own live buffer (nothing when its capacity is 0), which only the Vec's owner may do |
| `Memory.Dealloc` | rust/tw_memory/src/ffi/c_byte_array.rs:78 | the allocations after a drop are the old ones minus the Vec's buffer, every other allocation unchanged |
| `Protocol.Taken` | rust/tw_memory/src/ffi/c_byte_array.rs:47-57 | new records the Vec's pointer, length and capacity unchanged (so size <= capacity and the pointer is non-null), the record becomes the buffer's owner, and nothing is allocated, freed or changed in the bytes |
| `Protocol.Reclaimed` | rust/tw_memory/src/ffi/c_byte_array.rs:59-69 | into_vec gives a Vec with the record's pointer, size and capacity, which owns the buffer again; no allocation, no free, the same bytes (no copy) |
| `Protocol.Released` | rust/tw_memory/src/ffi/c_byte_array.rs:72-80 | release leaves the record null; the live allocations lose exactly the record's buffer (none for a null record or capacity 0) and all others are unchanged |
| `Protocol.ReleaseIdempotent` | rust/tw_memory/src/ffi/c_byte_array.rs:71-87 | releasing n >= 1 times has the same effect as releasing once |
| `Protocol.NoDoubleFree` | rust/tw_memory/src/ffi/c_byte_array.rs:72-87 | after a release the freed buffer is no longer live and a second release changes nothing |
| `Protocol.RoundTrip` | rust/tw_memory/src/ffi/c_byte_array.rs:47-69 | into_vec(new(v)) returns v itself, and the allocations, bytes and owners are as before new |
| `Protocol.ReleaseAfterTakeIsDrop` | rust/tw_memory/src/ffi/c_byte_array.rs:47-80 | handing a Vec to a record and releasing the record frees exactly what dropping the Vec would have freed |
| `Protocol.SoleOwner` | rust/tw_memory/src/ffi/c_byte_array.rs:47-57 | two records (or a record and a Vec) with different identities never hold the same buffer; this follows from one owner tag per address, while the hand-overs themselves are stated by `Taken` and `Reclaimed` |
| `Protocol.ReleaseKeepsOthers` | rust/tw_memory/src/ffi/c_byte_array.rs:72-80 | releasing one record leaves every other sound record sound |
| `Protocol.EmptyVecGivesDanglingRecord` | rust/tw_memory/src/ffi/c_byte_array.rs:47-57 | new on an empty Vec gives a non-null record with capacity 0 and allocates nothing |
| `FfiByteArray.CByteArray.Null` | rust/tw_memory/src/ffi/c_byte_array.rs:38-44 | null() has a null pointer, size 0, capacity 0 and no bytes, and touches no allocation |
| `FfiByteArray.CByteArray.New` | rust/tw_memory/src/ffi/c_byte_array.rs:47-57 | new updates the record and the heap as `Taken` says, the record is valid, and its bytes are the Vec's elements |
| `FfiByteArray.CByteArray.From` | rust/tw_memory/src/ffi/c_byte_array.rs:30-34 | From<Vec<u8>> gives a fresh record, exactly as new does |
| `FfiByteArray.CByteArray.IntoVec` | rust/tw_memory/src/ffi/c_byte_array.rs:64-69 | into_vec returns the Vec `Reclaimed` gives, whose elements are the record's bytes; the record ends null, and its drop frees nothing |
| `FfiByteArray.CByteArray.ReleaseIfAllocated` | rust/tw_memory/src/ffi/c_byte_array.rs:72-80 | release updates the record and the heap as `Released` says and keeps the record valid |
| `FfiByteArray.CByteArray.SetNull` | rust/tw_memory/src/ffi/c_byte_array.rs:83-87 | set_null makes the pointer null and the size and capacity 0 |
| `FfiByteArray.CByteArray.Drop` | rust/tw_memory/src/ffi/c_byte_array.rs:24-28 | dropping a record is a release |
| `FfiByteArray.CByteArray.Data` | rust/tw_memory/src/ffi/c_byte_array.rs:90-92 | data() returns the stored pointer, which is null only for a null record, and reading size bytes from it yields the record's bytes; nothing changes |
| `FfiByteArray.CByteArray.Size` | rust/tw_memory/src/ffi/c_byte_array.rs:95-97 | size() returns the stored size, the number of bytes the record exposes, never above the capacity; nothing changes |
| `FfiByteArray.FreeCByteArray` | rust/tw_memory/src/ffi/c_byte_array.rs:103-108 | a null record pointer changes nothing; otherwise the record is released in place as `Released` says; the freed set is exactly the record's buffer (`Released` keeps every other key), so the record's own storage is not freed |
| `Scenarios.ReleaseTwice` | rust/tw_memory/src/ffi/c_byte_array.rs:71-87 | a record over [1, 2, 3] of capacity 8 exposes those 3 bytes; two releases and a drop free its buffer once, so the heap ends as it began |
| `Scenarios.NullRecord` | rust/tw_memory/src/ffi/c_byte_array.rs:38-44 | a null record has size 0 and null data, and releasing it or freeing it from the foreign side (also through a null pointer) changes nothing |
| `Scenarios.RoundTrip` | rust/tw_memory/src/ffi/c_byte_array.rs:59-69 | a Vec taken into a record and back is the same Vec with the same bytes; the record's drop happens inside `IntoVec` and frees nothing, and the Vec's drop frees the buffer once |
| `Scenarios.ForeignFree` | rust/tw_memory/src/ffi/c_byte_array.rs:103-108 | two foreign frees and a managed drop of the same record free its buffer once |
| `Scenarios.EmptyVec` | rust/tw_memory/src/ffi/c_byte_array.rs:47-57 | a record over an empty Vec has the dangling pointer and capacity 0; releasing it frees nothing |
| `Scenarios.TwoRecords` | rust/tw_memory/src/ffi/c_byte_array.rs:72-80 | releasing one record leaves another record valid with its bytes intact, and releasing both leaves the same allocations live as at the start |

## Left out

- The `#[repr(C)]` layout, the `#[no_mangle] extern "C"` export and the raw-pointer ABI (field order, widths). Pointers are abstract addresses; the record's three fields are kept in source order.
- `size` and `capacity` are unbounded naturals, not `usize`. No operation does arithmetic on them, so no overflow can arise.
- `CByteArrayResult` and the `impl_c_result!` macro: the macro body is not part of this model. Its error value is `CByteArray::null()`, which `FfiByteArray.CByteArray.Null` models.
- The real allocator behind `Vec::from_raw_parts`, `std::mem::forget` and `Vec`'s drop. These are allocation, ownership hand-over and free on the ghost heap. Addresses are never reused, so an address identifies one allocation. Bytes beyond a Vec's length are modelled as zeros rather than as uninitialised memory.
- Drop glue runs automatically in Rust. The model calls `Drop` explicitly where a record leaves scope (inside `IntoVec`, which consumes the record, and at the end of each scenario).
- The ownership tags are ghost and enforce the protocol statically. A foreign caller that corrupts the fields, or that frees a stale copy of the fields after `into_vec`, breaks a precondition. In the source that is undefined behaviour.
- The `Debug` derive, and thread safety: the code does no synchronisation, and the model is single-threaded.
- `wasm/tests/PBKDF2.test.ts`: it tests a PBKDF2 binding whose implementation is not part of this model.
- Scenarios.TwoRecords: states only that the same addresses are live at the end, not that their blocks are unchanged (the other scenarios state both); the stronger equality is too costly for the solver across two interleaved records.
