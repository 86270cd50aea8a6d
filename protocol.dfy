/**
 * The counting protocol of a control block, on values.
 *
 * A control block carries two counters, `strong_ref` and `weak_ref`.  This
 * module gives the arithmetic every handle operation applies to them
 * (acquire and release, strong and weak) and a ledger that sets the counters
 * beside what they are meant to count: the live owning handles (shared_ptr)
 * and the live observing handles (weak_ptr) of one block, the number of
 * times the block's finaliser ran and the number of times the block was
 * deleted.  The main theorem, `RunKeepsInv`, says that every sequence of
 * handle events that a program can perform keeps the counters equal to the
 * live holders, finalises the value exactly once, and deletes the block
 * exactly when no holder is left.
 */
module Protocol {

  /**
   * The range of `unsigned long`, taken as 64 bits wide (the LP64 data
   * model): counter arithmetic wraps modulo this value.
   */
  const ULONG_MODULUS: nat := 0x1_0000_0000_0000_0000

  /** The two counters of a control block: `strong_ref` and `weak_ref`. */
  datatype Counters = Counters(strong: nat, weak: nat)

  /** Both counters hold values an `unsigned long` can hold. */
  predicate InRange(c: Counters)
  {
    c.strong < ULONG_MODULUS && c.weak < ULONG_MODULUS
  }

  /**
   * One more holder can be counted without wrapping: neither `++` nor the
   * unsigned sum that the delete tests form reaches the modulus.
   */
  predicate Room(c: Counters)
  {
    c.strong + c.weak + 1 < ULONG_MODULUS
  }

  /**
   * `x` as an `unsigned long` holds it: the result of an unsigned addition
   * whose true value is `x`.  `WrapIsMod` shows that it is `x` modulo
   * `ULONG_MODULUS`.  It is defined by repeated subtraction so that proofs
   * about counters below the modulus see only linear arithmetic.
   */
  function Wrap(x: nat): (r: nat)
    ensures r < ULONG_MODULUS
    ensures x < ULONG_MODULUS ==> r == x
    decreases x
  {
    if x < ULONG_MODULUS then x else Wrap(x - ULONG_MODULUS)
  }

  lemma {:induction false} WrapIsMod(x: nat)
    ensures Wrap(x) == x % ULONG_MODULUS
    decreases x
  {
    if x >= ULONG_MODULUS {
      WrapIsMod(x - ULONG_MODULUS);
    }
  }

  /**
   * What one release does: the counters it leaves behind, whether it runs the
   * block's finaliser (`cb->unlink()`) and whether it deletes the block.
   */
  datatype Release = Release(after: Counters, finalise: bool, free: bool)

  /**
   * `strong_ref++`, an unsigned increment: copy, aliasing, `lock`, `make_cb`
   * and `make_shared`.
   */
  function AcquireStrong(c: Counters): (r: Counters)
    ensures r.weak == c.weak && r.strong < ULONG_MODULUS
    ensures c.strong + 1 < ULONG_MODULUS ==> r.strong == c.strong + 1
    ensures c.strong == ULONG_MODULUS - 1 ==> r.strong == 0
  {
    c.(strong := Wrap(c.strong + 1))
  }

  /**
   * `weak_ref++`, an unsigned increment: a weak_ptr built or assigned from a
   * shared_ptr or a weak_ptr.
   */
  function AcquireWeak(c: Counters): (r: Counters)
    ensures r.strong == c.strong && r.weak < ULONG_MODULUS
    ensures c.weak + 1 < ULONG_MODULUS ==> r.weak == c.weak + 1
    ensures c.weak == ULONG_MODULUS - 1 ==> r.weak == 0
  {
    c.(weak := Wrap(c.weak + 1))
  }

  /**
   * The release a shared_ptr performs on its block (`shared_ptr::unlink`):
   * `strong_ref` goes down only if it is above zero, the finaliser runs when
   * `strong_ref` is then zero, and the block is deleted when the unsigned sum
   * of the two counters is zero.  While the true sum fits in an `unsigned
   * long` that means both counters are zero; when it exceeds the modulus by
   * exactly one the sum wraps to zero and the block is deleted with owners
   * left; further above, the block is kept.
   */
  function ReleaseStrong(c: Counters): (r: Release)
    ensures r.after.weak == c.weak
    ensures c.strong > 0 ==> r.after.strong + 1 == c.strong
    ensures c.strong == 0 ==> r.after.strong == 0
    ensures r.finalise <==> c.strong <= 1
    ensures InRange(c) && c.strong + c.weak <= ULONG_MODULUS ==> (r.free <==> r.finalise && c.weak == 0)
    ensures c.strong > 1 && c.strong + c.weak == ULONG_MODULUS + 1 ==> r.free && !r.finalise
    ensures InRange(c) && c.strong + c.weak > ULONG_MODULUS + 1 ==> !r.free
  {
    var strong := if c.strong > 0 then c.strong - 1 else c.strong;
    Release(c.(strong := strong), strong == 0, Wrap(strong + c.weak) == 0)
  }

  /**
   * `weak_ref--` as the weak_ptr writes it: there is no zero guard, so on a
   * zero counter the unsigned subtraction wraps around.
   */
  function DecrementUnguarded(x: nat): (r: nat)
    ensures x < ULONG_MODULUS ==> r == (x - 1) % ULONG_MODULUS
  {
    if x == 0 then ULONG_MODULUS - 1 else x - 1
  }

  /**
   * The release a weak_ptr performs on its block (`weak_ptr::unlink`): it
   * lowers `weak_ref` and deletes the block when the unsigned sum of the two
   * counters is then zero; it never runs the finaliser and never touches
   * `strong_ref`.  From a zero `weak_ref` the decrement wraps to the top of
   * the range, and the sum wraps to zero exactly when one owner is left.
   * With `weak_ref` above zero the sum wraps to zero when the counters
   * exceed the modulus by exactly one, with owners left.
   */
  function ReleaseWeak(c: Counters): (r: Release)
    ensures r.after.strong == c.strong && !r.finalise
    ensures c.weak > 0 ==> r.after.weak + 1 == c.weak
    ensures c.weak == 0 ==> r.after.weak == ULONG_MODULUS - 1
    ensures InRange(c) && c.weak > 0 && c.strong + c.weak <= ULONG_MODULUS ==> (r.free <==> c.strong == 0 && c.weak == 1)
    ensures InRange(c) && c.weak == 0 ==> (r.free <==> c.strong == 1)
    ensures InRange(c) && c.weak > 0 && c.strong + c.weak == ULONG_MODULUS + 1 ==> r.free
    ensures InRange(c) && c.strong + c.weak > ULONG_MODULUS + 1 ==> !r.free
  {
    var weak := DecrementUnguarded(c.weak);
    Release(c.(weak := weak), false, Wrap(c.strong + weak) == 0)
  }

  /**
   * The test `lock()` makes before it promotes a weak_ptr.  It is the test
   * under which `shared_ptr::unlink` lowers `strong_ref`: a lock succeeds
   * exactly when an owner's release would still count.
   */
  predicate CanLock(c: Counters)
    ensures CanLock(c) <==> ReleaseStrong(c).after.strong + 1 == c.strong
  {
    c.strong != 0
  }

  /** Releasing undoes acquiring: a copy that is destroyed leaves no trace. */
  lemma AcquireReleaseRoundTrip(c: Counters)
    requires Room(c)
    ensures ReleaseStrong(AcquireStrong(c)) == Release(c, c.strong == 0, c.strong + c.weak == 0)
    ensures ReleaseWeak(AcquireWeak(c)) == Release(c, false, c.strong + c.weak == 0)
  {
  }

  /**
   * The counters of one block beside what they count: live owning handles,
   * live observing handles, runs of the finaliser and deletions of the block.
   */
  datatype Ledger = Ledger(counts: Counters, owners: nat, observers: nat, finalisations: nat, frees: nat)

  /** The events that touch a block, one per kind of handle operation. */
  datatype Event =
    | Share         // a shared_ptr copied, converted or aliased from a live owner
    | Drop          // a shared_ptr holding the block destroyed or reset
    | Observe       // a weak_ptr built or assigned from a live owner
    | CopyObserver  // a weak_ptr copied from a live observer
    | Unobserve     // a weak_ptr holding the block destroyed or reassigned
    | Lock          // `lock()` called on a live observer
    | Transfer      // a move or a swap: a holder changes hands

  /**
   * Each event needs a live handle of the right kind to perform it, and an
   * event that adds a holder needs room for it in the counters.
   */
  predicate Enabled(l: Ledger, e: Event)
  {
    match e
    case Share => l.owners > 0 && Room(l.counts)
    case Drop => l.owners > 0
    case Observe => l.owners > 0 && Room(l.counts)
    case CopyObserver => l.observers > 0 && Room(l.counts)
    case Unobserve => l.observers > 0
    case Lock => l.observers > 0 && (CanLock(l.counts) ==> Room(l.counts))
    case Transfer => l.owners + l.observers > 0
  }

  /** Books the outcome of one release. */
  function Settle(l: Ledger, r: Release): Ledger
  {
    l.(counts := r.after,
       finalisations := l.finalisations + (if r.finalise then 1 else 0),
       frees := l.frees + (if r.free then 1 else 0))
  }

  /** One event, applied to the counters with the functions above. */
  function Apply(l: Ledger, e: Event): Ledger
    requires Enabled(l, e)
  {
    match e
    case Share => l.(counts := AcquireStrong(l.counts), owners := l.owners + 1)
    case Drop => Settle(l, ReleaseStrong(l.counts)).(owners := l.owners - 1)
    case Observe => l.(counts := AcquireWeak(l.counts), observers := l.observers + 1)
    case CopyObserver => l.(counts := AcquireWeak(l.counts), observers := l.observers + 1)
    case Unobserve => Settle(l, ReleaseWeak(l.counts)).(observers := l.observers - 1)
    case Lock =>
      if CanLock(l.counts) then l.(counts := AcquireStrong(l.counts), owners := l.owners + 1)
      else l
    case Transfer => l
  }

  /** A sequence of events each of which some live handle can perform. */
  predicate Legal(l: Ledger, es: seq<Event>)
    decreases |es|
  {
    es == [] || (Enabled(l, es[0]) && Legal(Apply(l, es[0]), es[1..]))
  }

  function Run(l: Ledger, es: seq<Event>): Ledger
    requires Legal(l, es)
    decreases |es|
  {
    if es == [] then l else Run(Apply(l, es[0]), es[1..])
  }

  /**
   * The protocol's invariant: `strong_ref` counts the live owners and
   * `weak_ref` the live observers; the value has been finalised once if no
   * owner is left and never otherwise; the block has been deleted once if no
   * holder at all is left and never otherwise; and there are fewer holders
   * than an `unsigned long` can count.
   */
  predicate Inv(l: Ledger)
  {
    && l.owners + l.observers < ULONG_MODULUS
    && l.counts.strong == l.owners
    && l.counts.weak == l.observers
    && l.finalisations == (if l.owners == 0 then 1 else 0)
    && l.frees == (if l.owners + l.observers == 0 then 1 else 0)
  }

  /** A block just built by `make_cb` or `make_shared`, held by its first owner. */
  function Created(): (l: Ledger)
    ensures Inv(l)
  {
    Ledger(Counters(1, 0), 1, 0, 0, 0)
  }

  lemma StepKeepsInv(l: Ledger, e: Event)
    requires Inv(l) && Enabled(l, e)
    ensures Inv(Apply(l, e))
  {
  }

  /** Every legal sequence of events keeps the invariant. */
  lemma {:induction false} RunKeepsInv(l: Ledger, es: seq<Event>)
    requires Inv(l) && Legal(l, es)
    ensures Inv(Run(l, es))
    decreases |es|
  {
    if es != [] {
      StepKeepsInv(l, es[0]);
      RunKeepsInv(Apply(l, es[0]), es[1..]);
    }
  }

  /**
   * For handles descended from one `make_cb` or `make_shared`, whatever they
   * do: `use_count()` equals the live owners, the value is finalised at most
   * once, and it is finalised exactly when no owner is left.
   */
  lemma {:induction false} FinalisedExactlyOnce(es: seq<Event>)
    requires Legal(Created(), es)
    ensures Run(Created(), es).counts.strong == Run(Created(), es).owners
    ensures Run(Created(), es).finalisations <= 1
    ensures Run(Created(), es).finalisations == 1 <==> Run(Created(), es).owners == 0
    ensures Run(Created(), es).frees == 1 <==> Run(Created(), es).owners + Run(Created(), es).observers == 0
  {
    RunKeepsInv(Created(), es);
  }

  /**
   * Once the last owner is gone nothing revives the value: no later event,
   * `lock()` included, brings an owner back, and the finaliser never runs
   * again.
   */
  lemma {:induction false} DeadStaysDead(l: Ledger, es: seq<Event>)
    requires Inv(l) && l.owners == 0 && Legal(l, es)
    ensures Run(l, es).owners == 0
    ensures Run(l, es).finalisations == 1
    ensures !CanLock(Run(l, es).counts)
    decreases |es|
  {
    if es != [] {
      StepKeepsInv(l, es[0]);
      DeadStaysDead(Apply(l, es[0]), es[1..]);
    }
  }

  /** After the block is deleted no handle is left that could touch it. */
  lemma FreedIsFinal(l: Ledger, e: Event)
    requires Inv(l) && l.frees > 0
    ensures !Enabled(l, e)
  {
  }

  /** While the protocol is kept, the unguarded `weak_ref--` never wraps. */
  lemma NoWeakUnderflow(l: Ledger)
    requires Inv(l) && Enabled(l, Unobserve)
    ensures ReleaseWeak(l.counts).after.weak == l.counts.weak - 1
  {
  }

  /**
   * Copy assignment from a handle of the same block is a copy into a
   * temporary followed by the temporary's destruction; it changes nothing.
   */
  lemma SameBlockAssignNeutral(l: Ledger)
    requires Inv(l) && l.owners > 0 && Room(l.counts)
    ensures Legal(l, [Share, Drop]) && Run(l, [Share, Drop]) == l
  {
  }

  /**
   * `shared_ptr(nullptr)` as written leaves a block with `strong_ref == 0`
   * held by one live owner.  That breaks the invariant.
   */
  function NullCreated(): (l: Ledger)
    ensures !Inv(l)
  {
    Ledger(Counters(0, 0), 1, 0, 0, 0)
  }

  /**
   * Destroying that handle while it is the block's only holder is well
   * defined: the deleter runs on `nullptr` once and the block is deleted
   * once.
   */
  lemma NullBlockDestroyed()
    ensures Legal(NullCreated(), [Drop])
    ensures Run(NullCreated(), [Drop]).owners == 0
    ensures Run(NullCreated(), [Drop]).finalisations == 1
    ensures Run(NullCreated(), [Drop]).frees == 1
  {
  }

  /**
   * From that state, copying the handle and destroying the copy finalises
   * the value and deletes the block while the original handle still holds
   * it.
   */
  lemma NullBlockCopyFreesEarly()
    ensures Legal(NullCreated(), [Share, Drop])
    ensures Run(NullCreated(), [Share, Drop]).owners == 1
    ensures Run(NullCreated(), [Share, Drop]).finalisations == 1
    ensures Run(NullCreated(), [Share, Drop]).frees == 1
  {
  }
}
