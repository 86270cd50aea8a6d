# Reference counting of `shared_ptr` / `weak_ptr` in Dafny

This project models the reference-counting core of the header
`shared-ptr.h`: a hand-written `shared_ptr<T>` / `weak_ptr<T>` pair over a
`control_block` that carries two counters, `strong_ref` and `weak_ref`, and
an abstract finaliser `unlink()`.  The block comes in two variants:
`ptr_block` calls a deleter on a separately allocated pointer, and
`obj_block`, the block of `make_shared`, destroys a value it stores inline.

The model has three modules.

- `Protocol` (protocol.dfy) states the counting protocol on values: what
  one acquire or release does to the two counters, whether it runs the
  finaliser and whether it deletes the block (`ReleaseStrong`,
  `ReleaseWeak`), and a `Ledger` that sets the counters beside the live
  owners, the live observers, the runs of the finaliser and the deletions
  of one block.  `RunKeepsInv` shows that every sequence of handle events a
  program can perform keeps `strong_ref` equal to the live owners and
  `weak_ref` equal to the live observers, runs the finaliser exactly once,
  when the last owner goes, and deletes the block exactly when no holder is
  left.
- `Handles` (handles.dfy) is the heap model.  `ControlBlock`, `SharedPtr`
  and `WeakPtr` are classes with the header's own fields (`strong`, `weak`;
  `cb`, `obj`) and one method or constructor per operation, each with
  `modifies` clauses and a postcondition that gives the exact new counters
  and fields.  Ghost fields of the block record what C++ leaves implicit:
  the finalisations performed, the deletions, and the sets of live handles
  that hold the block.  `ControlBlock.Consistent` ties these together
  (`Counted` is `Protocol.Inv` written out on the fields, `CountedIsInv`),
  every handle method keeps it, and the two-state predicates `Shared`,
  `Dropped`, `OwnerMoved`, `Observed`, `Unobserved`, `ObserverMoved` and
  `Kept` say what each operation did to the block in the terms of
  `Protocol`'s events.
- `Scenarios` (scenarios.dfy) composes the handles end to end: `make_shared`,
  copy and destroy with their use counts; `lock()` before and after the
  last owner is gone; allocation failure in the wrapping constructor;
  aliasing; self-assignment; move assignment across blocks; `reset(p, d)`.

Pointers are opaque identities (`Ptr`), deleters opaque values (`Deleter`);
running a finaliser is recorded as a `Finalisation` value naming the
deleter and pointer, or the inline slot, it was applied to.  Allocation
failure in `make_cb` is a boolean parameter `allocFails`.

Some behaviours of the code that a reader might not expect are modelled as
written:

- `reset(new_ptr, d)` (shared-ptr.h:172-176) releases the old block first and
  only then builds the new one, so a failed allocation leaves the handle
  empty (`SharedPtr.ResetTo`).
- `lock()` (shared-ptr.h:249-256) is the only way to promote a weak_ptr; on
  a block without owners it returns an empty handle.
- `shared_ptr(nullptr)` allocates a `ptr_block` but leaves `strong_ref` at
  0; it is modelled as written and corrected, see Findings.
- The counters are `unsigned long`, taken as 64 bits wide, and all their
  arithmetic is unsigned (`Protocol.Wrap`): `++` wraps at 2^64, the
  delete tests at shared-ptr.h:89 and 266 compare the wrapped sum
  `strong_ref + weak_ref` with 0, and `weak_ptr::unlink` lowers `weak_ref`
  without a zero guard (`Protocol.DecrementUnguarded`), while
  `shared_ptr::unlink` guards its decrement.  `ReleaseStrong` and
  `ReleaseWeak` state where a wrapped sum deletes a block that still has
  holders; `Protocol.Inv` keeps the holders below 2^64, and
  `Protocol.NoWeakUnderflow` shows that the unguarded decrement cannot wrap
  while the protocol is kept.

## Model

| member | source | states |
|---|---|---|
| Protocol.Wrap | shared-ptr.h:89 | the result of an unsigned 64-bit addition: below 2^64 and equal to the true value when that fits |
| Protocol.WrapIsMod | shared-ptr.h:89 | the unsigned result is the true value modulo 2^64 |
| Protocol.AcquireStrong | shared-ptr.h:78 | `strong_ref++` raises `strong_ref` by one, wrapping from 2^64 - 1 to 0, and leaves `weak_ref` alone (also lines 112, 118, 125, 251, 285) |
| Protocol.AcquireWeak | shared-ptr.h:213 | `weak_ref++` raises `weak_ref` by one, wrapping from 2^64 - 1 to 0, and leaves `strong_ref` alone (also lines 218, 244) |
| Protocol.ReleaseStrong | shared-ptr.h:80-95 | `strong_ref` drops by one when above 0 and otherwise stays 0, `weak_ref` is untouched; the finaliser runs exactly when `strong_ref` was at most 1; while the true sum of the counters fits in 64 bits the block is deleted exactly when it is finalised and has no observer; when the sum exceeds 2^64 by one the wrapped sum deletes a block that still has owners; further above it the block is kept |
| Protocol.DecrementUnguarded | shared-ptr.h:265 | `weak_ref--` on a 64-bit counter: the result is `(x - 1) mod 2^64`, so 0 wraps to `2^64 - 1` |
| Protocol.ReleaseWeak | shared-ptr.h:263-272 | a weak release never finalises and never changes `strong_ref`; it lowers `weak_ref` by one, wrapping 0 to 2^64 - 1; with `weak_ref` above 0 and the sum within range it deletes the block exactly when it was the last holder (`strong_ref` 0, `weak_ref` 1); with `weak_ref` at 0 the wrapped sum deletes the block exactly when `strong_ref` is 1; with `weak_ref` above 0 and the sum 2^64 + 1 the wrapped sum deletes a block that still has owners; further above it the block is kept |
| Protocol.CanLock | shared-ptr.h:250 | the test `lock()` makes holds exactly when a strong release (shared-ptr.h:83-84) would lower `strong_ref` |
| Protocol.AcquireReleaseRoundTrip | shared-ptr.h:115-119 | with room for one more holder, a copy that is destroyed, or a weak copy that is destroyed, leaves the counters where they were |
| Protocol.Created | shared-ptr.h:282-287 | the block `make_shared` / `make_cb` leaves behind (strong 1, weak 0, one owner) satisfies the protocol invariant |
| Protocol.StepKeepsInv | shared-ptr.h:58-278 | every single handle event enabled by a live handle (with room in the counters when it adds a holder) keeps counters equal to live holders, below 2^64 in sum, and finalisation/deletion counts exact |
| Protocol.RunKeepsInv | shared-ptr.h:58-278 | every legal sequence of copy, alias, move, swap, assign, lock, reset and destroy events keeps the invariant |
| Protocol.FinalisedExactlyOnce | shared-ptr.h:80-95 | for handles descended from one creation: `strong_ref` equals the live owners, the value is finalised at most once and exactly when no owner is left, the block is deleted exactly when no holder is left |
| Protocol.DeadStaysDead | shared-ptr.h:249-256 | once the last owner is gone, no later event (`lock()` included) brings an owner back or runs the finaliser again |
| Protocol.FreedIsFinal | shared-ptr.h:89-90 | after the block is deleted no live handle can perform any event on it |
| Protocol.NoWeakUnderflow | shared-ptr.h:265 | while the invariant holds, the unguarded `weak_ref--` lowers the counter by exactly one |
| Protocol.SameBlockAssignNeutral | shared-ptr.h:140-144 | copy assignment from a handle of the same block (copy to a temporary, destroy it) leaves the ledger unchanged |
| Protocol.NullCreated | shared-ptr.h:100-101 | the state `shared_ptr(nullptr)` creates (one owner, `strong_ref` 0) violates the invariant |
| Protocol.NullBlockDestroyed | shared-ptr.h:100-101 | destroying the `shared_ptr(nullptr)` handle while it is the only holder runs the deleter once and deletes the block once |
| Protocol.NullBlockCopyFreesEarly | shared-ptr.h:100-101 | from that state, copying the handle and destroying the copy finalises the value and deletes the block while the original still holds it |
| Handles.ControlBlock.PtrBlock | shared-ptr.h:27-28 | a fresh `ptr_block` stores pointer and deleter, both counters 0, nothing finalised, no holder |
| Handles.ControlBlock.ObjBlock | shared-ptr.h:41-44 | a fresh `obj_block` stores the value inline, both counters 0, nothing finalised, no holder |
| Handles.ControlBlock.Get | shared-ptr.h:46-48 | the address `obj_block::get` returns is the one its finaliser destroys |
| Handles.ControlBlock.Unlink | shared-ptr.h:30-52 | `unlink()` appends exactly one run of this block's finaliser: the deleter on its pointer, or the destructor of its inline value |
| Handles.ControlBlock.Delete | shared-ptr.h:89-90 | `delete cb` is recorded once more on the block |
| Handles.ControlBlock.CountedIsInv | shared-ptr.h:15-21 | the block's field-level agreement between counters and holders is exactly `Protocol.Inv` of its ledger |
| Handles.SharedPtr.Empty | shared-ptr.h:99 | the default handle has no block and a null pointer |
| Handles.SharedPtr.OfNull | shared-ptr.h:100-101 | as written: a fresh `ptr_block` on `nullptr` with `strong_ref` 0 held by this handle; the handle is not valid |
| Handles.SharedPtr.OfNullOwned | shared-ptr.h:100-101 | corrected: the fresh block counts its one owner (`strong_ref` 1) and the handle is valid |
| Handles.SharedPtr.Adopt | shared-ptr.h:66 | the private `shared_ptr(cb, ptr)` takes both fields as given, registers itself and leaves the counters alone |
| Handles.SharedPtr.Copy | shared-ptr.h:115-126 | a copy shares the source's `cb` and `obj` and compares equal to it; with a block, `strong_ref` rises by exactly one, `weak_ref`, finalisations and deletions are unchanged |
| Handles.SharedPtr.Alias | shared-ptr.h:109-113 | the aliasing constructor shares the parent's block with `strong_ref` one higher but exposes the supplied pointer |
| Handles.SharedPtr.Move | shared-ptr.h:128-138 | the destination gets exactly the source's `cb`/`obj`, the source is left empty, no counter changes, ownership passes from source to destination |
| Handles.SharedPtr.Get | shared-ptr.h:152-157 | `get()` is non-null exactly when `operator bool` holds |
| Handles.SharedPtr.IsSet | shared-ptr.h:155-157 | `operator bool` looks at the exposed pointer, not the block: a handle without a block that exposes a pointer is true, a handle with a block that exposes `nullptr` is false |
| Handles.SharedPtr.UseCount | shared-ptr.h:165-167 | `use_count()` equals the number of live owners of the block, is positive for a handle with a block and 0 without one |
| Handles.SharedPtr.Equals | shared-ptr.h:186-188 | a handle equals itself; equal handles share one block and expose the same pointer |
| Handles.SharedPtr.MakeCb | shared-ptr.h:68-79 | success: a fresh `ptr_block` with `strong_ref` 1, `weak_ref` 0, this handle its only owner, `obj` the pointer; failure: the deleter is called on the pointer exactly once and neither `cb`, `obj` nor any counter changes |
| Handles.SharedPtr.Unlink | shared-ptr.h:80-95 | the handle ends with `cb` and `obj` null; its block is released exactly as `ReleaseStrong` says (guarded decrement, finalise at 0, delete when the unsigned sum of the counters is 0) and stays consistent |
| Handles.SharedPtr.Reset | shared-ptr.h:168-170 | `reset()` is one release of the old block and leaves the handle empty |
| Handles.SharedPtr.Destroy | shared-ptr.h:178-180 | the destructor is one release of the block |
| Handles.SharedPtr.ResetTo | shared-ptr.h:172-176 | `reset(p, d)` first releases the old block once, then behaves as `make_cb`; on allocation failure the handle is empty and `p` went to the deleter once |
| Handles.SharedPtr.Swap | shared-ptr.h:196-199 | both fields are exchanged; across blocks each block's ownership moves to the other handle, within a block nothing about the block changes |
| Handles.SharedPtr.SwapWithin | shared-ptr.h:196-199 | swap of two handles of one block exchanges the fields and keeps both valid |
| Handles.SharedPtr.SwapAcross | shared-ptr.h:196-199 | swap across blocks: each block now has the other handle as owner in place of the first, counters unchanged |
| Handles.SharedPtr.TakeOver | shared-ptr.h:140-150 | swapping with a temporary and destroying it gives this handle the temporary's block and releases this handle's previous block exactly once |
| Handles.SharedPtr.CopyAssign | shared-ptr.h:140-144 | the target ends with the source's `cb`/`obj`; self or same-block assignment changes nothing on the block; otherwise the source's block gains one owner and the target's old block is released once |
| Handles.SharedPtr.MoveAssign | shared-ptr.h:145-150 | the target ends with the source's `cb`/`obj` and the source is empty; self-move changes nothing; same-block move drops one owner; across blocks ownership moves and the target's old block is released once |
| Handles.WeakPtr.Empty | shared-ptr.h:210 | the default weak handle has no block |
| Handles.WeakPtr.FromShared | shared-ptr.h:211-214 | observing a shared_ptr shares its `cb`/`obj`; with a block, `weak_ref` rises by exactly one and `strong_ref` is unchanged |
| Handles.WeakPtr.Copy | shared-ptr.h:216-219 | a weak copy shares the source's fields; `weak_ref` rises by exactly one |
| Handles.WeakPtr.Move | shared-ptr.h:221-224 | the destination gets exactly the source's fields, the source is left empty, no counter changes |
| Handles.WeakPtr.Lock | shared-ptr.h:249-256 | with a block that still has an owner, the result shares `cb`/`obj` and `strong_ref` rises by one; otherwise the result is empty and the block is unchanged |
| Handles.WeakPtr.Unlink | shared-ptr.h:263-272 | the handle ends empty; its block is released exactly as `ReleaseWeak` says: `weak_ref` down by one, never finalised, deleted when the unsigned sum of the counters is 0 |
| Handles.WeakPtr.Destroy | shared-ptr.h:258-260 | the destructor is one weak release |
| Handles.WeakPtr.AssignShared | shared-ptr.h:238-247 | assignment from a shared_ptr releases the old block once and observes the new one (`weak_ref` + 1); for the same block nothing changes |
| Handles.WeakPtr.Attach | shared-ptr.h:241-244 | an empty weak handle takes a shared_ptr's fields and adds one to `weak_ref` |
| Handles.WeakPtr.Swap | shared-ptr.h:274-277 | both fields are exchanged; across blocks each block's observation moves to the other handle |
| Handles.WeakPtr.SwapWithin | shared-ptr.h:274-277 | swap of two weak handles of one block exchanges the fields |
| Handles.WeakPtr.SwapAcross | shared-ptr.h:274-277 | swap across blocks: each block now has the other handle as observer, counters unchanged |
| Handles.WeakPtr.TakeOver | shared-ptr.h:226-236 | swapping with a temporary and destroying it gives this handle the temporary's block and releases the previous one exactly once |
| Handles.WeakPtr.CopyAssign | shared-ptr.h:226-230 | the target ends with the source's fields; same-block assignment changes nothing; otherwise the source's block gains an observer and the old block is released once |
| Handles.WeakPtr.MoveAssign | shared-ptr.h:232-236 | the target ends with the source's fields and the source is empty; self-move changes nothing; across blocks observation moves and the old block is released once |
| Handles.MakeShared | shared-ptr.h:282-287 | a fresh `obj_block` holding the value, `use_count()` 1, `weak_ref` 0, the handle exposing the inline slot |
| Handles.NewOwning | shared-ptr.h:103-107 | the wrapping constructor yields a handle with `use_count()` 1 on a fresh `ptr_block`, or, when allocation fails, no handle and exactly one deleter call on the pointer |
| Scenarios.CopyThenDestroy | shared-ptr.h:282-287 | `make_shared`, copy, destroy both: use counts 1, 2, 2, 1, the copy still exposes the value, and the value is destroyed once with one deletion of the block |
| Scenarios.LockAfterExpiry | shared-ptr.h:249-256 | after the only owner is destroyed, `lock()` returns an empty handle with use count 0; the block survives until the observer goes, then is deleted once |
| Scenarios.LockWhileOwned | shared-ptr.h:249-256 | while an owner lives, `lock()` returns a handle exposing its pointer and the use count becomes 2 |
| Scenarios.WrapWithFailingAllocation | shared-ptr.h:68-79 | a failed block allocation yields no handle and calls the deleter on the pointer exactly once |
| Scenarios.WrapWithAllocation | shared-ptr.h:103-107 | a successful wrapping construction yields the only owner of the pointer and calls no deleter |
| Scenarios.AliasKeepsBlockAlive | shared-ptr.h:109-113 | an alias keeps the parent's block alive after the parent is gone (use count 1, nothing finalised) and its destruction finalises the parent's value, not the alias address |
| Scenarios.SelfAssignment | shared-ptr.h:140-144 | assigning a handle to itself or to a sibling of the same block leaves `use_count()` unchanged |
| Scenarios.MoveAssignAcross | shared-ptr.h:145-150 | move assignment across blocks: the target holds the source's value alone, the source is empty, the target's old value is finalised and deleted once |
| Scenarios.ResetToNewPointer | shared-ptr.h:172-176 | `reset(p, d)` on the only owner finalises and deletes the old value's block, then the handle is the only owner of `p` |

## Left out

- Raw memory: `new`/`delete`, `std::aligned_storage`, placement new and
  `reinterpret_cast` in `obj_block` (shared-ptr.h:38-52, 284-286).  Blocks
  are Dafny objects; running the finaliser and deleting the block are
  recorded in ghost fields (`finalised`, `frees`) instead.
- The concrete deleter and `T`'s destructor (shared-ptr.h:31, 51): foreign
  callables; the model records which deleter ran on which pointer, or which
  inline value was destroyed.
- C++ exceptions: allocation failure of the block in `make_cb` is the
  boolean parameter `allocFails`, and the rethrow is the `ok == false` /
  `null` result.  Failure of `make_shared`'s own allocation or of `T`'s
  constructor is not modelled: `Handles.MakeShared` always succeeds.
- Template and derived-to-base conversions: one opaque `Ptr` type, so the
  converting copy and move constructors are the plain `Copy` and `Move`.
- `operator*`, `operator->` and `operator T*` (shared-ptr.h:158-163, 182-184):
  they only return `obj`, which `SharedPtr.Get` gives.
- The commented-out duplicate definitions (shared-ptr.h:289-331).
- Thread safety: the counters are plain fields and the model is sequential.
- `unsigned long` is taken as 64 bits wide (the LP64 data model of 64-bit
  Linux and macOS).  Where it is 32 bits wide (64-bit Windows, 32-bit
  targets) every wrap point lies at 2^32 instead; the model does not cover
  those targets.
- Protocol.Enabled: an event that adds a holder (copy, alias, observe,
  weak copy, a successful `lock()`) is enabled only while
  `strong_ref + weak_ref + 1 < 2^64` (`Protocol.Room`), and `Protocol.Inv`
  demands fewer than 2^64 holders.  A program that reaches 2^64 holders of
  one block, where the header's `++` or its delete test's sum wraps, is
  outside `RunKeepsInv` and the heap model.
- Handles.SharedPtr.Copy: requires `Room` of the source's block, for the
  reason above.
- Handles.SharedPtr.Alias: requires `Room` of the parent's block.
- Handles.SharedPtr.CopyAssign: requires `Room` of the source's block.
- Handles.WeakPtr.FromShared: requires `Room` of the owner's block.
- Handles.WeakPtr.Copy: requires `Room` of the source's block.
- Handles.WeakPtr.Lock: requires `Room` of the block when the lock would
  succeed.
- Handles.WeakPtr.AssignShared: requires `Room` of the owner's block.
- Handles.WeakPtr.Attach: requires `Room` of the owner's block.
- Handles.WeakPtr.CopyAssign: requires `Room` of the source's block.
- Handles are used only while `Valid()`: a registered holder of a block
  whose counters agree with its holders (`ControlBlock.Consistent`).  So the
  handle `shared_ptr(nullptr)` builds as written (`SharedPtr.OfNull`) can be
  constructed but no heap method accepts it, although in the header its
  `use_count()` (0), copy and destruction are defined; what those do to its
  block is modelled only on values (`Protocol.NullCreated`,
  `Protocol.NullBlockDestroyed`, `Protocol.NullBlockCopyFreesEarly`).  A
  handle whose block was already deleted (use after free) is outside the
  model, as it is undefined behaviour in C++.
- The finaliser is assumed to release no handle of any block.
  `ControlBlock.Unlink` only records that the finaliser ran, and its frame
  (``modifies this`finalised``) lets it change nothing else.  In the header,
  `cb->unlink()` at shared-ptr.h:87 runs `T`'s destructor (line 51) or the
  deleter (line 31), and a value may own handles:
  - Of another block.  A list node with a `shared_ptr<Node> next` releases
    it there, so shared-ptr.h:83-90 (or 265-267 for a `weak_ptr`) run on
    the next block.  They lower its counter and may finalise and delete it,
    so destroying the last owner of the head cascades down the list.  In
    the model no other block changes: the frames of `SharedPtr.Unlink`,
    `Reset`, `Destroy`, `ResetTo`, `TakeOver`, `CopyAssign` and
    `MoveAssign` (`modifies this, cb`) and the owner and observer counts of
    every other block are exact only for values and deleters that own no
    handles.
  - Of its own block.  A value that holds a `weak_ptr` to itself (for
    example `struct N { weak_ptr<N> self; }` made by `make_shared`) is
    destroyed inside `cb->unlink()`.  Its `weak_ptr::unlink` then finds
    both counters at 0 and deletes the block (shared-ptr.h:265-267), and
    shared-ptr.h:89 reads the deleted block.
- `Handles.SharedPtr.TakeOver`, `Handles.WeakPtr.TakeOver`,
  `Handles.WeakPtr.Attach` and the `SwapWithin`/`SwapAcross` pairs split the
  assignment and swap operations into their two halves; they are not
  separate operations of the header.

## Findings

| source | as written | input that shows it | evidently intended | confidence | as-written member | corrected member |
|---|---|---|---|---|---|---|
| shared-ptr.h:100-101 | `shared_ptr(nullptr)` allocates a `ptr_block` but leaves `strong_ref` at 0 although the handle holds the block | `shared_ptr<int> a(nullptr); { shared_ptr<int> b(a); }` — the copy raises `strong_ref` to 1, its destruction lowers it to 0, runs the deleter on `nullptr` and deletes the block while `a` still points to it, so `a`'s destructor works on a deleted block | the block counts its first owner, as `make_cb` does (`strong_ref` 1), an empty-but-allocated handle | not executed | Protocol.NullBlockCopyFreesEarly | Handles.SharedPtr.OfNullOwned |
