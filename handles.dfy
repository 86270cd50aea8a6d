/**
 * The control block and the two handle classes, as heap objects.
 *
 * `ControlBlock` holds `strong_ref` and `weak_ref` (here `strong` and `weak`)
 * and the finaliser of one of its two variants: a `ptr_block` that calls a
 * deleter on a separately allocated pointer, or an `obj_block` that destroys
 * the value it stores inline.  `SharedPtr` and `WeakPtr` each hold a block
 * reference `cb` and an exposed pointer `obj`, kept apart so that an aliasing
 * handle can expose an address other than the one the block finalises.
 *
 * Bookkeeping that C++ leaves implicit is kept in ghost fields of the block:
 * the finalisations it has performed, the times it was deleted, and the sets
 * of live handles that hold it.  `ControlBlock.Consistent` ties these to the
 * counters through `Protocol.Inv`; every handle method keeps it.
 */
module Handles {
  import opened Protocol

  /** An opaque pointer identity: `nullptr` or some address. */
  datatype Ptr = Null | Addr(id: nat)

  /** An opaque deleter value, captured into a `ptr_block`. */
  datatype Deleter = Deleter(id: nat)

  /** `std::default_delete<T>`, the deleter used when none is given. */
  const DefaultDelete: Deleter := Deleter(0)

  /** What a block finalises: a pointer with its deleter, or an inline value. */
  datatype Storage =
    | Pointer(p: Ptr, deleter: Deleter)   // ptr_block
    | Inline(slot: Ptr)                   // obj_block; `slot` is the storage's address

  /** One run of a finaliser: a deleter called on a pointer, or a destructor run. */
  datatype Finalisation =
    | DeleterCalled(deleter: Deleter, p: Ptr)
    | ValueDestroyed(slot: Ptr)

  /**
   * The number of elements of a set: `SizeIsCard` shows that it is the
   * cardinality `|s|`.  The counting facts are stated with `Size` rather than
   * `|s|` because the solver unfolds a recursive function only where a proof
   * mentions it, whereas the axioms of `|s|` apply to every set in scope; the
   * frame proofs about several blocks stay small this way.
   */
  ghost function Size<T>(s: set<T>): nat
    decreases s
  {
    if s == {} then 0 else var x :| x in s; 1 + Size(s - {x})
  }

  lemma {:induction false} SizeIsCard<T>(s: set<T>)
    ensures Size(s) == |s|
    decreases s
  {
    if s != {} {
      forall x | x in s
        ensures Size(s - {x}) == |s - {x}|
      {
        SizeIsCard(s - {x});
      }
    }
  }

  class ControlBlock {
    var strong: nat
    var weak: nat
    const storage: Storage
    /** Every run of `unlink()` on this block, in order. */
    ghost var finalised: seq<Finalisation>
    /** How many times `delete cb` ran on this block. */
    ghost var frees: nat
    /** The live shared_ptrs whose `cb` is this block. */
    ghost var owners: set<SharedPtr>
    /** The live weak_ptrs whose `cb` is this block. */
    ghost var observers: set<WeakPtr>

    /** `ptr_block(p, d)`: both counters start at zero. */
    constructor PtrBlock(p: Ptr, d: Deleter)
      ensures storage == Pointer(p, d) && Counts() == Counters(0, 0) && Untouched()
    {
      storage := Pointer(p, d);
      strong, weak := 0, 0;
      finalised, frees := [], 0;
      owners, observers := {}, {};
    }

    /** `obj_block(args...)`: the value is built in the block's own storage. */
    constructor ObjBlock(slot: Ptr)
      ensures storage == Inline(slot) && Counts() == Counters(0, 0) && Untouched()
    {
      storage := Inline(slot);
      strong, weak := 0, 0;
      finalised, frees := [], 0;
      owners, observers := {}, {};
    }

    function Counts(): Counters
      reads this
    {
      Counters(strong, weak)
    }

    ghost predicate Untouched()
      reads this
    {
      finalised == [] && frees == 0 && owners == {} && observers == {}
    }

    /** What `unlink()` does for this variant. */
    function Finaliser(): Finalisation
    {
      match storage
      case Pointer(p, d) => DeleterCalled(d, p)
      case Inline(slot) => ValueDestroyed(slot)
    }

    /** `obj_block::get`: the address of the inline value, the one its finaliser destroys. */
    function Get(): (p: Ptr)
      requires storage.Inline?
      ensures Finaliser() == ValueDestroyed(p)
    {
      storage.slot
    }

    /**
     * `control_block::unlink()`: `ptr_block` calls its deleter on its pointer,
     * `obj_block` runs the value's destructor.
     */
    method Unlink()
      modifies this`finalised
      ensures finalised == old(finalised) + [Finaliser()]
    {
      match storage {
        case Pointer(p, d) => finalised := finalised + [DeleterCalled(d, p)];
        case Inline(slot) => finalised := finalised + [ValueDestroyed(slot)];
      }
    }

    /** `delete cb`. */
    method Delete()
      modifies this`frees
      ensures frees == old(frees) + 1
    {
      frees := frees + 1;
    }

    /** `o` is a registered owner of this block. */
    ghost predicate HeldBy(o: SharedPtr)
      reads this`owners
    {
      o in owners
    }

    /** `w` is a registered observer of this block. */
    ghost predicate SeenBy(w: WeakPtr)
      reads this`observers
    {
      w in observers
    }

    /**
     * Every registered holder points back here.  The facts are instantiated
     * only where `HeldBy` or `SeenBy` is mentioned, which keeps proofs about
     * several handles small.
     */
    ghost predicate Anchored()
      reads this`owners, this`observers, owners`cb, observers`cb
    {
      && (forall o {:trigger HeldBy(o)} :: o in owners && HeldBy(o) ==> o.cb == this)
      && (forall w {:trigger SeenBy(w)} :: w in observers && SeenBy(w) ==> w.cb == this)
    }

    /** Register `h`, which already points here, as one more owner. */
    ghost method Enrol(h: SharedPtr)
      requires h.cb == this && h !in owners && Anchored()
      modifies this`owners
      ensures owners == old(owners) + {h} && Size(owners) == Size(old(owners)) + 1 && Anchored()
    {
      owners := owners + {h};
      SizeIsCard(old(owners));
      SizeIsCard(owners);
      forall o | o in owners && HeldBy(o) ensures o.cb == this {
        if o != h {
          assert old(HeldBy(o));
        }
      }
    }

    /** Unregister owner `h`, which still points here. */
    ghost method Discharge(h: SharedPtr)
      requires Anchored()
      modifies this`owners
      ensures owners == old(owners) - {h} && Anchored()
      ensures h in old(owners) ==> Size(owners) + 1 == Size(old(owners))
    {
      owners := owners - {h};
      SizeIsCard(old(owners));
      SizeIsCard(owners);
      forall o | o in owners && HeldBy(o) ensures o.cb == this {
        assert old(HeldBy(o));
      }
    }

    /** `to` has taken over the place of owner `from`, which may point elsewhere now. */
    ghost method RehomeOwner(from: SharedPtr, to: SharedPtr)
      requires from in owners && to !in owners && to.cb == this
      requires forall o {:trigger HeldBy(o)} :: o in owners && HeldBy(o) && o != from ==> o.cb == this
      requires forall w {:trigger SeenBy(w)} :: w in observers && SeenBy(w) ==> w.cb == this
      requires Faithful() && Counted()
      modifies this`owners
      ensures owners == old(owners) - {from} + {to} && Size(owners) == Size(old(owners)) && Consistent()
    {
      owners := owners - {from} + {to};
      SizeIsCard(old(owners));
      SizeIsCard(owners);
      forall o | o in owners && HeldBy(o) ensures o.cb == this {
        if o != to {
          assert old(HeldBy(o));
        }
      }
    }

    /** Register `w`, which already points here, as one more observer. */
    ghost method EnrolObserver(w: WeakPtr)
      requires w.cb == this && w !in observers && Anchored()
      modifies this`observers
      ensures observers == old(observers) + {w} && Size(observers) == Size(old(observers)) + 1 && Anchored()
    {
      observers := observers + {w};
      SizeIsCard(old(observers));
      SizeIsCard(observers);
      forall v | v in observers && SeenBy(v) ensures v.cb == this {
        if v != w {
          assert old(SeenBy(v));
        }
      }
    }

    /** Unregister observer `w`, which still points here. */
    ghost method DischargeObserver(w: WeakPtr)
      requires Anchored()
      modifies this`observers
      ensures observers == old(observers) - {w} && Anchored()
      ensures w in old(observers) ==> Size(observers) + 1 == Size(old(observers))
    {
      observers := observers - {w};
      SizeIsCard(old(observers));
      SizeIsCard(observers);
      forall v | v in observers && SeenBy(v) ensures v.cb == this {
        assert old(SeenBy(v));
      }
    }

    /** `to` has taken over the place of observer `from`. */
    ghost method RehomeObserver(from: WeakPtr, to: WeakPtr)
      requires from in observers && to !in observers && to.cb == this
      requires forall w {:trigger SeenBy(w)} :: w in observers && SeenBy(w) && w != from ==> w.cb == this
      requires forall o {:trigger HeldBy(o)} :: o in owners && HeldBy(o) ==> o.cb == this
      requires Faithful() && Counted()
      modifies this`observers
      ensures observers == old(observers) - {from} + {to} && Size(observers) == Size(old(observers)) && Consistent()
    {
      observers := observers - {from} + {to};
      SizeIsCard(old(observers));
      SizeIsCard(observers);
      forall v | v in observers && SeenBy(v) ensures v.cb == this {
        if v != to {
          assert old(SeenBy(v));
        }
      }
    }

    /** The block's state as a ledger of the counting protocol. */
    ghost function Tally(): Ledger
      reads this
    {
      Ledger(Counts(), Size(owners), Size(observers), |finalised|, frees)
    }

    /**
     * Every registered holder points back here, every finalisation is this
     * block's own finaliser, and the counters agree with the holders.
     */
    ghost predicate Consistent()
      reads this, owners`cb, observers`cb
    {
      && Anchored()
      && Faithful()
      && Counted()
    }

    /**
     * The counters agree with the holders: `Protocol.Inv` of `Tally()`,
     * written out on the fields (`CountedIsInv`).
     */
    ghost predicate Counted()
      reads this
    {
      && strong + weak < ULONG_MODULUS
      && strong == Size(owners)
      && weak == Size(observers)
      && |finalised| == (if Size(owners) == 0 then 1 else 0)
      && frees == (if Size(owners) + Size(observers) == 0 then 1 else 0)
    }

    lemma CountedIsInv()
      ensures Counted() <==> Inv(Tally())
    {
    }

    /** Every finalisation this block performed is its own finaliser. */
    ghost predicate Faithful()
      reads this`finalised
    {
      forall i :: 0 <= i < |finalised| ==> finalised[i] == Finaliser()
    }

    /** Nothing about the block changed: counters, holders, finalisations, deletions. */
    twostate predicate Kept()
      reads this
    {
      && Counts() == old(Counts())
      && owners == old(owners) && observers == old(observers)
      && finalised == old(finalised) && frees == old(frees)
    }

    /** The block gained owner `h`: `strong_ref` rose by one, nothing else moved. */
    twostate predicate Shared(new h: SharedPtr)
      reads this
    {
      && Counts() == AcquireStrong(old(Counts()))
      && h !in old(owners) && owners == old(owners) + {h} && observers == old(observers)
      && finalised == old(finalised) && frees == old(frees)
    }

    /** Owner `h` released the block, as `ReleaseStrong` prescribes. */
    twostate predicate Dropped(h: SharedPtr)
      reads this
    {
      var r := ReleaseStrong(old(Counts()));
      && Counts() == r.after
      && finalised == old(finalised) + (if r.finalise then [Finaliser()] else [])
      && frees == old(frees) + (if r.free then 1 else 0)
      && owners == old(owners) - {h} && observers == old(observers)
    }

    /** Ownership passed from `from` to `to`; no counter changed. */
    twostate predicate OwnerMoved(from: SharedPtr, new to: SharedPtr)
      reads this
    {
      && Counts() == old(Counts())
      && to !in old(owners) && owners == old(owners) - {from} + {to} && observers == old(observers)
      && finalised == old(finalised) && frees == old(frees)
    }

    /** The block gained observer `w`: `weak_ref` rose by one, nothing else moved. */
    twostate predicate Observed(new w: WeakPtr)
      reads this
    {
      && Counts() == AcquireWeak(old(Counts()))
      && w !in old(observers) && observers == old(observers) + {w} && owners == old(owners)
      && finalised == old(finalised) && frees == old(frees)
    }

    /** Observer `w` released the block, as `ReleaseWeak` prescribes. */
    twostate predicate Unobserved(w: WeakPtr)
      reads this
    {
      var r := ReleaseWeak(old(Counts()));
      && Counts() == r.after
      && frees == old(frees) + (if r.free then 1 else 0)
      && observers == old(observers) - {w} && owners == old(owners)
      && finalised == old(finalised)
    }

    /** Observation passed from `from` to `to`; no counter changed. */
    twostate predicate ObserverMoved(from: WeakPtr, new to: WeakPtr)
      reads this
    {
      && Counts() == old(Counts())
      && to !in old(observers) && observers == old(observers) - {from} + {to} && owners == old(owners)
      && finalised == old(finalised) && frees == old(frees)
    }
  }

  class SharedPtr {
    var cb: ControlBlock?
    var obj: Ptr

    /** A handle with a block is one of that block's registered owners. */
    ghost predicate Valid()
      reads this`cb, cb
      reads if cb == null then {} else cb.owners`cb
      reads if cb == null then {} else cb.observers`cb
    {
      cb != null ==> this in cb.owners && cb.Consistent()
    }

    /** `shared_ptr()`. */
    constructor Empty()
      ensures cb == null && obj == Null && Valid()
    {
      cb, obj := null, Null;
    }

    /**
     * `shared_ptr(nullptr)` as written: a fresh `ptr_block` whose
     * `strong_ref` stays at zero although this handle holds it.
     */
    constructor OfNull()
      ensures cb != null && fresh(cb) && obj == Null
      ensures cb.storage == Pointer(Null, DefaultDelete) && cb.Counts() == Counters(0, 0)
      ensures cb.owners == {this} && cb.observers == {} && cb.finalised == [] && cb.frees == 0
      ensures !Valid()
    {
      cb := new ControlBlock.PtrBlock(Null, DefaultDelete);
      obj := Null;
      new;
      cb.owners := {this};
      SizeIsCard(cb.owners);
    }

    /**
     * `shared_ptr(nullptr)` corrected: the block it allocates counts this
     * handle, as `make_cb` does, so destroying it runs the deleter on
     * `nullptr` and deletes the block exactly once.
     */
    constructor OfNullOwned()
      ensures cb != null && fresh(cb) && obj == Null && Valid()
      ensures cb.storage == Pointer(Null, DefaultDelete) && cb.Counts() == Counters(1, 0)
      ensures cb.owners == {this} && cb.observers == {} && cb.finalised == [] && cb.frees == 0
    {
      cb := new ControlBlock.PtrBlock(Null, DefaultDelete);
      obj := Null;
      new;
      cb.strong := Wrap(cb.strong + 1);
      cb.owners := {this};
      SizeIsCard(cb.owners);
    }

    /**
     * The private `shared_ptr(cb, ptr)`: takes both fields as given and
     * leaves the counters alone; its callers have already raised
     * `strong_ref`.
     */
    constructor Adopt(b: ControlBlock?, p: Ptr)
      requires b != null ==> b.Anchored()
      modifies b
      ensures cb == b && obj == p
      ensures b != null ==> b.owners == old(b.owners) + {this} && b.observers == old(b.observers) && b.Anchored()
      ensures b != null ==> Size(b.owners) == Size(old(b.owners)) + 1
      ensures b != null ==> b.Counts() == old(b.Counts()) && b.finalised == old(b.finalised) && b.frees == old(b.frees)
    {
      cb, obj := b, p;
      new;
      if cb != null {
        cb.Enrol(this);
      }
    }

    /** Copy and converting copy: share the source's block and pointer. */
    constructor Copy(other: SharedPtr)
      requires other.Valid() && (other.cb != null ==> Room(other.cb.Counts()))
      modifies other.cb
      ensures cb == other.cb && obj == other.obj && Equals(other)
      ensures Valid() && other.Valid()
      ensures cb != null ==> cb.Shared(this)
    {
      cb, obj := other.cb, other.obj;
      new;
      if cb != null {
        ghost var before := cb.Tally();
        cb.strong := Wrap(cb.strong + 1);
        cb.Enrol(this);
        StepKeepsInv(before, Share);
      }
    }

    /** Aliasing: share the parent's block but expose `p`. */
    constructor Alias(parent: SharedPtr, p: Ptr)
      requires parent.Valid() && (parent.cb != null ==> Room(parent.cb.Counts()))
      modifies parent.cb
      ensures cb == parent.cb && obj == p
      ensures Valid() && parent.Valid()
      ensures cb != null ==> cb.Shared(this)
    {
      cb, obj := parent.cb, p;
      new;
      if cb != null {
        ghost var before := cb.Tally();
        cb.strong := Wrap(cb.strong + 1);
        cb.Enrol(this);
        StepKeepsInv(before, Share);
      }
    }

    /** Move and converting move: take the source's fields, leave it empty. */
    constructor Move(other: SharedPtr)
      requires other.Valid()
      modifies other, other.cb
      ensures cb == old(other.cb) && obj == old(other.obj)
      ensures other.cb == null && other.obj == Null
      ensures Valid() && other.Valid()
      ensures cb != null ==> cb.OwnerMoved(other, this)
    {
      cb, obj := other.cb, other.obj;
      new;
      other.obj := Null;
      other.cb := null;
      if cb != null {
        cb.RehomeOwner(other, this);
      }
    }

    /** `get()`; `operator bool` is `IsSet`. */
    function Get(): (p: Ptr)
      reads this
      ensures p != Null <==> IsSet()
    {
      obj
    }

    /**
     * `operator bool`: it tests the exposed pointer and not the block, so an
     * aliasing handle of no block can be set and a handle of a block that
     * exposes `nullptr` is not.
     */
    predicate IsSet()
      reads this
      ensures cb == null && obj != Null ==> IsSet()
      ensures cb != null && obj == Null ==> !IsSet()
    {
      obj != Null
    }

    /** `use_count()`: the number of live owners of the block, 0 without one. */
    function UseCount(): (n: nat)
      requires Valid()
      reads this`cb, cb
      reads if cb == null then {} else cb.owners`cb
      reads if cb == null then {} else cb.observers`cb
      ensures n == if cb == null then 0 else |cb.owners|
      ensures cb != null ==> n > 0
    {
      if cb != null then SizeIsCard(cb.owners); cb.strong else 0
    }

    /** `operator==`: equal handles share one block and expose the same pointer. */
    function Equals(other: SharedPtr): (b: bool)
      reads this, other
      ensures this == other ==> b
      ensures b ==> cb == other.cb && Get() == other.Get() && IsSet() == other.IsSet()
    {
      cb == other.cb && obj == other.obj
    }

    /**
     * The private `make_cb(ptr, d)`: allocate a `ptr_block` and become its
     * first owner.  If the allocation fails the deleter is called on `ptr`
     * and the failure is reported; no field and no counter changes.
     */
    method MakeCb(p: Ptr, d: Deleter, allocFails: bool) returns (ok: bool, ghost released: seq<Finalisation>)
      requires cb == null
      modifies this
      ensures ok == !allocFails
      ensures !ok ==> cb == null && obj == old(obj) && released == [DeleterCalled(d, p)]
      ensures ok ==> released == [] && cb != null && fresh(cb) && obj == p && Valid()
      ensures ok ==> cb.storage == Pointer(p, d) && cb.Counts() == Counters(1, 0)
      ensures ok ==> cb.owners == {this} && cb.observers == {} && cb.finalised == [] && cb.frees == 0
    {
      if allocFails {
        // the deleter receives `p` and the failure propagates to the caller
        return false, [DeleterCalled(d, p)];
      }
      cb := new ControlBlock.PtrBlock(p, d);
      obj := p;
      cb.strong := Wrap(cb.strong + 1);
      cb.owners := {this};
      SizeIsCard(cb.owners);
      ok, released := true, [];
    }

    /**
     * The private `unlink()` behind `reset()` and the destructor: release the
     * block as `ReleaseStrong` says, then empty the handle.
     */
    method Unlink()
      requires Valid()
      modifies this, cb
      ensures cb == null && obj == Null && Valid()
      ensures old(cb) != null ==> old(cb).Dropped(this) && old(cb).Consistent()
    {
      if cb != null {
        if cb.strong > 0 {
          cb.strong := cb.strong - 1;
        }
        if cb.strong == 0 {
          cb.Unlink();
        }
        if Wrap(cb.strong + cb.weak) == 0 {
          cb.Delete();
        }
        cb.Discharge(this);
        cb := null;
      }
      obj := Null;
    }

    /** `reset()`. */
    method Reset()
      requires Valid()
      modifies this, cb
      ensures cb == null && obj == Null && Valid()
      ensures old(cb) != null ==> old(cb).Dropped(this) && old(cb).Consistent()
    {
      Unlink();
    }

    /** `~shared_ptr()`. */
    method Destroy()
      requires Valid()
      modifies this, cb
      ensures cb == null && obj == Null && Valid()
      ensures old(cb) != null ==> old(cb).Dropped(this) && old(cb).Consistent()
    {
      Unlink();
    }

    /**
     * `reset(new_ptr, d)`: release the old block first, then build the new
     * one; on allocation failure the handle is left empty and `new_ptr` has
     * been handed to the deleter.
     */
    method ResetTo(p: Ptr, d: Deleter, allocFails: bool) returns (ok: bool, ghost released: seq<Finalisation>)
      requires Valid()
      modifies this, cb
      ensures old(cb) != null ==> old(cb).Dropped(this) && old(cb).Consistent()
      ensures ok == !allocFails && Valid()
      ensures !ok ==> cb == null && obj == Null && released == [DeleterCalled(d, p)]
      ensures ok ==> released == [] && cb != null && fresh(cb) && obj == p
      ensures ok ==> cb.storage == Pointer(p, d) && cb.Counts() == Counters(1, 0)
      ensures ok ==> cb.owners == {this} && cb.observers == {} && cb.finalised == [] && cb.frees == 0
    {
      Unlink();
      ok, released := MakeCb(p, d, allocFails);
    }

    /** The private `swap`: exchange both fields with `other`. */
    method Swap(other: SharedPtr)
      requires Valid() && other.Valid()
      modifies this, other, cb, other.cb
      ensures cb == old(other.cb) && obj == old(other.obj)
      ensures other.cb == old(cb) && other.obj == old(obj)
      ensures Valid() && other.Valid()
      ensures old(cb) != old(other.cb) && old(cb) != null ==> old(cb).OwnerMoved(this, other)
      ensures old(cb) != old(other.cb) && old(other.cb) != null ==> old(other.cb).OwnerMoved(other, this)
      ensures old(cb) == old(other.cb) && old(cb) != null ==> old(cb).Kept()
    {
      if cb == other.cb {
        SwapWithin(other);
      } else {
        SwapAcross(other);
      }
    }

    /** `swap` between two handles of the same block: only the fields move. */
    method SwapWithin(other: SharedPtr)
      requires Valid() && other.Valid() && cb == other.cb
      modifies this, other
      ensures cb == old(other.cb) && obj == old(other.obj)
      ensures other.cb == old(cb) && other.obj == old(obj)
      ensures Valid() && other.Valid()
    {
      var o := obj;
      obj := other.obj;
      other.obj := o;
    }

    /** `swap` between handles of different blocks: each block changes owner. */
    method SwapAcross(other: SharedPtr)
      requires Valid() && other.Valid() && cb != other.cb
      modifies this, other, cb, other.cb
      ensures cb == old(other.cb) && obj == old(other.obj)
      ensures other.cb == old(cb) && other.obj == old(obj)
      ensures Valid() && other.Valid()
      ensures old(cb) != null ==> old(cb).OwnerMoved(this, other)
      ensures old(other.cb) != null ==> old(other.cb).OwnerMoved(other, this)
    {
      var a, b := cb, other.cb;
      assert a != null ==> !a.HeldBy(other);
      assert b != null ==> !b.HeldBy(this);
      cb, obj, other.cb, other.obj := other.cb, other.obj, cb, obj;
      if a != null {
        a.RehomeOwner(this, other);
      }
      if b != null {
        b.RehomeOwner(other, this);
      }
    }

    /**
     * The tail of both assignments: swap with the temporary `tmp`, then let
     * the temporary die.  Whatever this handle held is released once, by the
     * temporary.
     */
    method TakeOver(tmp: SharedPtr)
      requires Valid() && tmp.Valid() && tmp != this
      modifies this, tmp, cb, tmp.cb
      ensures cb == old(tmp.cb) && obj == old(tmp.obj) && Valid()
      ensures tmp.cb == null && tmp.obj == Null
      ensures old(cb) == old(tmp.cb) && old(cb) != null ==> old(cb).Dropped(tmp)
      ensures old(cb) != old(tmp.cb) && old(tmp.cb) != null ==> old(tmp.cb).OwnerMoved(tmp, this)
      ensures old(cb) != old(tmp.cb) && old(cb) != null ==> old(cb).Dropped(this) && old(cb).Consistent()
    {
      Swap(tmp);
      tmp.Destroy();
    }

    /**
     * Copy assignment: copy `other` into a temporary, swap with it, destroy
     * the temporary.
     */
    method CopyAssign(other: SharedPtr)
      requires Valid() && other.Valid() && (other.cb != null ==> Room(other.cb.Counts()))
      modifies this, cb, other.cb
      ensures cb == old(other.cb) && obj == old(other.obj)
      ensures Valid() && other.Valid()
      ensures old(cb) == old(other.cb) && old(cb) != null ==> old(cb).Kept()
      ensures old(cb) != old(other.cb) && old(other.cb) != null ==> old(other.cb).Shared(this)
      ensures old(cb) != old(other.cb) && old(cb) != null ==> old(cb).Dropped(this) && old(cb).Consistent()
    {
      var tmp := new SharedPtr.Copy(other);
      TakeOver(tmp);
    }

    /**
     * Move assignment: move `other` into a temporary, swap with it, destroy
     * the temporary.
     */
    method MoveAssign(other: SharedPtr)
      requires Valid() && other.Valid()
      modifies this, other, cb, other.cb
      ensures cb == old(other.cb) && obj == old(other.obj) && Valid()
      ensures other != this ==> other.cb == null && other.obj == Null
      ensures other == this && old(cb) != null ==> old(cb).Kept()
      ensures other != this && old(cb) == old(other.cb) && old(cb) != null ==> old(cb).Dropped(other)
      ensures old(cb) != old(other.cb) && old(other.cb) != null ==> old(other.cb).OwnerMoved(other, this)
      ensures old(cb) != old(other.cb) && old(cb) != null ==> old(cb).Dropped(this) && old(cb).Consistent()
    {
      var tmp := new SharedPtr.Move(other);
      TakeOver(tmp);
    }
  }

  class WeakPtr {
    var cb: ControlBlock?
    var obj: Ptr

    /** A weak handle with a block is one of that block's registered observers. */
    ghost predicate Valid()
      reads this`cb, cb
      reads if cb == null then {} else cb.owners`cb
      reads if cb == null then {} else cb.observers`cb
    {
      cb != null ==> this in cb.observers && cb.Consistent()
    }

    /** `weak_ptr()`. */
    constructor Empty()
      ensures cb == null && obj == Null && Valid()
    {
      cb, obj := null, Null;
    }

    /** `weak_ptr(const shared_ptr&)`: observe the owner's block. */
    constructor FromShared(sp: SharedPtr)
      requires sp.Valid() && (sp.cb != null ==> Room(sp.cb.Counts()))
      modifies sp.cb
      ensures cb == sp.cb && obj == sp.obj
      ensures Valid() && sp.Valid()
      ensures cb != null ==> cb.Observed(this)
    {
      cb, obj := sp.cb, sp.obj;
      new;
      if cb != null {
        ghost var before := cb.Tally();
        cb.weak := Wrap(cb.weak + 1);
        cb.EnrolObserver(this);
        StepKeepsInv(before, Observe);
      }
    }

    /** `weak_ptr(const weak_ptr&)`. */
    constructor Copy(other: WeakPtr)
      requires other.Valid() && (other.cb != null ==> Room(other.cb.Counts()))
      modifies other.cb
      ensures cb == other.cb && obj == other.obj
      ensures Valid() && other.Valid()
      ensures cb != null ==> cb.Observed(this)
    {
      cb, obj := other.cb, other.obj;
      new;
      if cb != null {
        ghost var before := cb.Tally();
        cb.weak := Wrap(cb.weak + 1);
        cb.EnrolObserver(this);
        StepKeepsInv(before, CopyObserver);
      }
    }

    /** `weak_ptr(weak_ptr&&)`: take the source's fields, leave it empty. */
    constructor Move(other: WeakPtr)
      requires other.Valid()
      modifies other, other.cb
      ensures cb == old(other.cb) && obj == old(other.obj)
      ensures other.cb == null && other.obj == Null
      ensures Valid() && other.Valid()
      ensures cb != null ==> cb.ObserverMoved(other, this)
    {
      cb, obj := other.cb, other.obj;
      new;
      other.cb := null;
      other.obj := Null;
      if cb != null {
        cb.RehomeObserver(other, this);
      }
    }

    /**
     * `lock()`: while the block still has an owner, become one more owner
     * of it; otherwise return an empty handle and change nothing.
     */
    method Lock() returns (sp: SharedPtr)
      requires Valid() && (cb != null && CanLock(cb.Counts()) ==> Room(cb.Counts()))
      modifies cb
      ensures fresh(sp) && sp.Valid() && Valid()
      ensures old(cb != null && cb.owners != {}) ==> sp.cb == cb && sp.obj == obj && cb.Shared(sp)
      ensures old(cb == null || cb.owners == {}) ==> sp.cb == null && sp.obj == Null
      ensures old(cb == null || cb.owners == {}) && cb != null ==> cb.Kept()
    {
      if cb != null && CanLock(cb.Counts()) {
        ghost var before := cb.Tally();
        cb.strong := Wrap(cb.strong + 1);
        sp := new SharedPtr.Adopt(cb, obj);
        StepKeepsInv(before, Event.Lock);
      } else {
        sp := new SharedPtr.Empty();
      }
    }

    /**
     * The private `unlink()` behind the destructor and assignment from a
     * shared_ptr: release the block as `ReleaseWeak` says, empty the handle.
     */
    method Unlink()
      requires Valid()
      modifies this, cb
      ensures cb == null && obj == Null && Valid()
      ensures old(cb) != null ==> old(cb).Unobserved(this) && old(cb).Consistent()
    {
      if cb != null {
        cb.weak := DecrementUnguarded(cb.weak);
        if Wrap(cb.strong + cb.weak) == 0 {
          cb.Delete();
        }
        cb.DischargeObserver(this);
      }
      cb := null;
      obj := Null;
    }

    /** `~weak_ptr()`. */
    method Destroy()
      requires Valid()
      modifies this, cb
      ensures cb == null && obj == Null && Valid()
      ensures old(cb) != null ==> old(cb).Unobserved(this) && old(cb).Consistent()
    {
      Unlink();
    }

    /** `operator=(const shared_ptr&)`: release, then observe the owner's block. */
    method AssignShared(sp: SharedPtr)
      requires Valid() && sp.Valid() && (sp.cb != null ==> Room(sp.cb.Counts()))
      modifies this, cb, sp.cb
      ensures cb == sp.cb && obj == sp.obj
      ensures Valid() && sp.Valid()
      ensures old(cb) == sp.cb && cb != null ==> cb.Kept()
      ensures old(cb) != sp.cb && cb != null ==> cb.Observed(this)
      ensures old(cb) != sp.cb && old(cb) != null ==> old(cb).Unobserved(this) && old(cb).Consistent()
    {
      Unlink();
      Attach(sp);
    }

    /** The second half of `operator=(const shared_ptr&)`, on an emptied handle. */
    method Attach(sp: SharedPtr)
      requires cb == null && sp.Valid() && (sp.cb != null ==> Room(sp.cb.Counts()))
      modifies this, sp.cb
      ensures cb == sp.cb && obj == sp.obj
      ensures Valid() && sp.Valid()
      ensures cb != null ==> cb.Observed(this)
    {
      assert sp.cb != null ==> !sp.cb.SeenBy(this);
      cb := sp.cb;
      obj := sp.obj;
      if sp.cb != null {
        ghost var before := cb.Tally();
        cb.weak := Wrap(cb.weak + 1);
        cb.EnrolObserver(this);
        StepKeepsInv(before, Observe);
      }
    }

    /** The private `swap`: exchange both fields with `other`. */
    method Swap(other: WeakPtr)
      requires Valid() && other.Valid()
      modifies this, other, cb, other.cb
      ensures cb == old(other.cb) && obj == old(other.obj)
      ensures other.cb == old(cb) && other.obj == old(obj)
      ensures Valid() && other.Valid()
      ensures old(cb) != old(other.cb) && old(cb) != null ==> old(cb).ObserverMoved(this, other)
      ensures old(cb) != old(other.cb) && old(other.cb) != null ==> old(other.cb).ObserverMoved(other, this)
      ensures old(cb) == old(other.cb) && old(cb) != null ==> old(cb).Kept()
    {
      if cb == other.cb {
        SwapWithin(other);
      } else {
        SwapAcross(other);
      }
    }

    /** `swap` between two handles of the same block: only the fields move. */
    method SwapWithin(other: WeakPtr)
      requires Valid() && other.Valid() && cb == other.cb
      modifies this, other
      ensures cb == old(other.cb) && obj == old(other.obj)
      ensures other.cb == old(cb) && other.obj == old(obj)
      ensures Valid() && other.Valid()
    {
      var o := obj;
      obj := other.obj;
      other.obj := o;
    }

    /** `swap` between handles of different blocks: each block changes observer. */
    method SwapAcross(other: WeakPtr)
      requires Valid() && other.Valid() && cb != other.cb
      modifies this, other, cb, other.cb
      ensures cb == old(other.cb) && obj == old(other.obj)
      ensures other.cb == old(cb) && other.obj == old(obj)
      ensures Valid() && other.Valid()
      ensures old(cb) != null ==> old(cb).ObserverMoved(this, other)
      ensures old(other.cb) != null ==> old(other.cb).ObserverMoved(other, this)
    {
      var a, b := cb, other.cb;
      assert a != null ==> !a.SeenBy(other);
      assert b != null ==> !b.SeenBy(this);
      cb, obj, other.cb, other.obj := other.cb, other.obj, cb, obj;
      if a != null {
        a.RehomeObserver(this, other);
      }
      if b != null {
        b.RehomeObserver(other, this);
      }
    }

    /**
     * The tail of both assignments: swap with the temporary `tmp`, then let
     * the temporary die.  Whatever this handle observed is released once, by
     * the temporary.
     */
    method TakeOver(tmp: WeakPtr)
      requires Valid() && tmp.Valid() && tmp != this
      modifies this, tmp, cb, tmp.cb
      ensures cb == old(tmp.cb) && obj == old(tmp.obj) && Valid()
      ensures tmp.cb == null && tmp.obj == Null
      ensures old(cb) == old(tmp.cb) && old(cb) != null ==> old(cb).Unobserved(tmp)
      ensures old(cb) != old(tmp.cb) && old(tmp.cb) != null ==> old(tmp.cb).ObserverMoved(tmp, this)
      ensures old(cb) != old(tmp.cb) && old(cb) != null ==> old(cb).Unobserved(this) && old(cb).Consistent()
    {
      Swap(tmp);
      tmp.Destroy();
    }

    /** Copy assignment: copy into a temporary, swap, destroy the temporary. */
    method CopyAssign(other: WeakPtr)
      requires Valid() && other.Valid() && (other.cb != null ==> Room(other.cb.Counts()))
      modifies this, cb, other.cb
      ensures cb == old(other.cb) && obj == old(other.obj)
      ensures Valid() && other.Valid()
      ensures old(cb) == old(other.cb) && old(cb) != null ==> old(cb).Kept()
      ensures old(cb) != old(other.cb) && old(other.cb) != null ==> old(other.cb).Observed(this)
      ensures old(cb) != old(other.cb) && old(cb) != null ==> old(cb).Unobserved(this) && old(cb).Consistent()
    {
      var tmp := new WeakPtr.Copy(other);
      TakeOver(tmp);
    }

    /** Move assignment: move into a temporary, swap, destroy the temporary. */
    method MoveAssign(other: WeakPtr)
      requires Valid() && other.Valid()
      modifies this, other, cb, other.cb
      ensures cb == old(other.cb) && obj == old(other.obj) && Valid()
      ensures other != this ==> other.cb == null && other.obj == Null
      ensures other == this && old(cb) != null ==> old(cb).Kept()
      ensures other != this && old(cb) == old(other.cb) && old(cb) != null ==> old(cb).Unobserved(other)
      ensures old(cb) != old(other.cb) && old(other.cb) != null ==> old(other.cb).ObserverMoved(other, this)
      ensures old(cb) != old(other.cb) && old(cb) != null ==> old(cb).Unobserved(this) && old(cb).Consistent()
    {
      var tmp := new WeakPtr.Move(other);
      TakeOver(tmp);
    }
  }

  /**
   * `make_shared<T>(args...)`: one `obj_block` holds the value; the handle
   * exposes the address of that inline storage, which is never null.
   */
  method MakeShared(slot: Ptr) returns (sp: SharedPtr)
    requires slot != Null
    ensures fresh(sp) && sp.cb != null && fresh(sp.cb) && sp.Valid()
    ensures sp.UseCount() == 1 && sp.cb.Counts() == Counters(1, 0) && sp.Get() == slot && sp.IsSet()
    ensures sp.cb.storage == Inline(slot) && sp.cb.owners == {sp} && sp.cb.observers == {}
    ensures sp.cb.finalised == [] && sp.cb.frees == 0
  {
    var ob := new ControlBlock.ObjBlock(slot);
    ob.strong := Wrap(ob.strong + 1);
    sp := new SharedPtr.Adopt(ob, ob.Get());
  }

  /**
   * `shared_ptr(ptr, d)`: build an empty handle and run `make_cb` on it.  If
   * the block cannot be allocated no handle results (the constructor
   * throws) and `ptr` has been handed to the deleter exactly once.
   */
  method NewOwning(p: Ptr, d: Deleter, allocFails: bool) returns (sp: SharedPtr?, ghost released: seq<Finalisation>)
    ensures sp == null <==> allocFails
    ensures released == if allocFails then [DeleterCalled(d, p)] else []
    ensures sp != null ==> fresh(sp) && sp.cb != null && fresh(sp.cb) && sp.Valid()
    ensures sp != null ==> sp.UseCount() == 1 && sp.cb.Counts() == Counters(1, 0) && sp.Get() == p
    ensures sp != null ==> sp.cb.storage == Pointer(p, d) && sp.cb.finalised == [] && sp.cb.frees == 0
  {
    var h := new SharedPtr.Empty();
    var ok;
    ok, released := h.MakeCb(p, d, allocFails);
    sp := if ok then h else null;
  }
}
