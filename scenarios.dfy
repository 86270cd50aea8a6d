/**
 * Whole-program uses of the handles: each method builds its own handles,
 * performs one of the behaviours the library promises, and states the
 * observable outcome (use counts, exposed pointers, whether a lock
 * succeeds) together with the finalisations and deletions that happened.
 */
module Scenarios {
  import opened Protocol
  import opened Handles

  /**
   * `make_shared` of a value, copy it, destroy the original, destroy the
   * copy: the use counts are 1, 2 (seen from both handles) and 1, the copy
   * still exposes the value after the original is gone, and the value is
   * destroyed once, with its block, when the copy goes.
   */
  method CopyThenDestroy(slot: Ptr)
    returns (first: nat, copiedA: nat, copiedB: nat, left: nat, seen: Ptr,
             ghost finalised: seq<Finalisation>, ghost frees: nat)
    requires slot != Null
    ensures first == 1 && copiedA == 2 && copiedB == 2 && left == 1
    ensures seen == slot
    ensures finalised == [ValueDestroyed(slot)] && frees == 1
  {
    var a := MakeShared(slot);
    var block := a.cb;
    first := a.UseCount();
    var b := new SharedPtr.Copy(a);
    copiedA, copiedB := a.UseCount(), b.UseCount();
    a.Destroy();
    left := b.UseCount();
    seen := b.Get();
    assert block.finalised == [];
    b.Destroy();
    finalised, frees := block.finalised, block.frees;
  }

  /**
   * A weak_ptr made from the only owner, which is then destroyed: `lock()`
   * yields an empty handle with use count 0.  The block outlives the owner
   * because the observer still holds it, and is deleted when the observer
   * goes.
   */
  method LockAfterExpiry(slot: Ptr)
    returns (locked: bool, lockedCount: nat, ghost freesWhileObserved: nat, ghost frees: nat)
    requires slot != Null
    ensures !locked && lockedCount == 0
    ensures freesWhileObserved == 0 && frees == 1
  {
    var s := MakeShared(slot);
    var block := s.cb;
    var w := new WeakPtr.FromShared(s);
    s.Destroy();
    var l := w.Lock();
    locked, lockedCount := l.IsSet(), l.UseCount();
    freesWhileObserved := block.frees;
    w.Destroy();
    frees := block.frees;
  }

  /**
   * While an owner is alive, `lock()` succeeds: the result exposes the
   * owner's pointer and the use count becomes 2.
   */
  method LockWhileOwned(slot: Ptr) returns (locked: bool, exposed: Ptr, count: nat)
    requires slot != Null
    ensures locked && exposed == slot && count == 2
  {
    var s := MakeShared(slot);
    var w := new WeakPtr.FromShared(s);
    var l := w.Lock();
    locked, exposed, count := l.IsSet(), l.Get(), s.UseCount();
  }

  /**
   * The wrapping constructor when the block cannot be allocated: no handle
   * results and the wrapped pointer went to its deleter exactly once.
   */
  method WrapWithFailingAllocation(p: Ptr, d: Deleter)
    returns (built: bool, ghost released: seq<Finalisation>)
    ensures !built && released == [DeleterCalled(d, p)]
  {
    var sp;
    sp, released := NewOwning(p, d, true);
    built := sp != null;
  }

  /** When the allocation succeeds, the new handle is the pointer's only owner. */
  method WrapWithAllocation(p: Ptr, d: Deleter)
    returns (built: bool, count: nat, exposed: Ptr, ghost released: seq<Finalisation>)
    ensures built && count == 1 && exposed == p && released == []
  {
    var sp;
    sp, released := NewOwning(p, d, false);
    built := sp != null;
    count, exposed := sp.UseCount(), sp.Get();
  }

  /**
   * An aliasing handle `c` built from `parent` exposes a different address
   * but keeps the parent's block: after the parent is destroyed the use
   * count is still 1 and nothing is finalised; destroying `c` then
   * finalises the value that `make_shared` stored, not the alias.
   */
  method AliasKeepsBlockAlive(slot: Ptr, field: Ptr)
    returns (shared: nat, alive: nat, exposed: Ptr,
             ghost finalisedWhileAliased: seq<Finalisation>, ghost finalised: seq<Finalisation>)
    requires slot != Null
    ensures shared == 2 && alive == 1 && exposed == field
    ensures finalisedWhileAliased == [] && finalised == [ValueDestroyed(slot)]
  {
    var parent := MakeShared(slot);
    var block := parent.cb;
    var c := new SharedPtr.Alias(parent, field);
    shared := c.UseCount();
    parent.Destroy();
    alive, exposed := c.UseCount(), c.Get();
    finalisedWhileAliased := block.finalised;
    c.Destroy();
    finalised := block.finalised;
  }

  /**
   * Copy assignment of a handle to itself, and between two handles of the
   * same block, leaves the use count where it was.
   */
  method SelfAssignment(slot: Ptr) returns (before: nat, afterSelf: nat, afterSibling: nat)
    requires slot != Null
    ensures before == 2 && afterSelf == 2 && afterSibling == 2
  {
    var a := MakeShared(slot);
    var b := new SharedPtr.Copy(a);
    before := a.UseCount();
    a.CopyAssign(a);
    afterSelf := a.UseCount();
    a.CopyAssign(b);
    afterSibling := a.UseCount();
  }

  /**
   * Move assignment between handles of two blocks: the target takes over
   * the source's block and pointer, the source is left empty, and the
   * target's old value is finalised once.
   */
  method MoveAssignAcross(x: Ptr, y: Ptr)
    returns (count: nat, exposed: Ptr, sourceSet: bool, sourceCount: nat,
             ghost oldFinalised: seq<Finalisation>, ghost oldFrees: nat)
    requires x != Null && y != Null
    ensures count == 1 && exposed == y && !sourceSet && sourceCount == 0
    ensures oldFinalised == [ValueDestroyed(x)] && oldFrees == 1
  {
    var a := MakeShared(x);
    var previous := a.cb;
    var b := MakeShared(y);
    a.MoveAssign(b);
    count, exposed := a.UseCount(), a.Get();
    sourceSet, sourceCount := b.IsSet(), b.UseCount();
    oldFinalised, oldFrees := previous.finalised, previous.frees;
  }

  /**
   * `reset(p, d)` on the only owner of a value: the old value is finalised
   * and its block deleted before the new block takes over.
   */
  method ResetToNewPointer(slot: Ptr, p: Ptr, d: Deleter)
    returns (ok: bool, count: nat, exposed: Ptr, ghost oldFinalised: seq<Finalisation>, ghost oldFrees: nat)
    requires slot != Null
    ensures ok && count == 1 && exposed == p
    ensures oldFinalised == [ValueDestroyed(slot)] && oldFrees == 1
  {
    var a := MakeShared(slot);
    var previous := a.cb;
    ghost var released;
    ok, released := a.ResetTo(p, d, false);
    count, exposed := a.UseCount(), a.Get();
    oldFinalised, oldFrees := previous.finalised, previous.frees;
  }
}
