/**
 * What the engine computes, as functions on a value: a ready set, a delayed set and the arrival
 * counter. The class in Engine.dfy is proved to compute these functions. The lemmas here show that
 * over whole runs they behave like one undivided set of messages from which the best available
 * one is taken (pkg/engine/queue.go:138-377).
 */
module Scheduling {
  import opened Model
  import opened Selection

  function Due(s: set<Entry>, now: Time): set<Entry> {
    set e | e in s && e.msg.Available(now)
  }

  predicate SameId(a: Entry, b: Entry) {
    a.msg.id == b.msg.id
  }

  ghost predicate DistinctIds(s: set<Entry>) {
    forall a, b {:trigger SameId(a, b)} :: a in s && b in s && SameId(a, b) ==> a == b
  }

  /** No two of the messages share a Seq. */
  ghost predicate DistinctSeqs(s: set<Entry>) {
    forall a, b {:trigger SameId(a, b)} :: a in s && b in s && a.msg.seqNo == b.msg.seqNo ==> SameId(a, b)
  }

  function Messages(es: seq<Entry>): (ms: seq<Message>)
    ensures |ms| == |es|
    ensures forall i :: 0 <= i < |es| ==> ms[i] == es[i].msg
  {
    seq(|es|, i requires 0 <= i < |es| => es[i].msg)
  }

  function Cut(es: seq<Entry>, limit: int): Page {
    if limit > 0 && |es| > limit then Page(Messages(es[..limit]), true)
    else Page(Messages(es), false)
  }

  datatype View = View(ready: Page, delayed: Page, readyLen: nat, delayedLen: nat)

  datatype QueueState = QueueState(mode: Mode, ready: set<Entry>, delayed: set<Entry>, nextOrder: nat) {

    function Held(): set<Entry> {
      ready + delayed
    }

    ghost predicate WellFormed() {
      && ready !! delayed
      && DistinctOrders(Held())
      && DistinctIds(Held())
      && forall e :: e in Held() ==> e.order < nextOrder
    }

    /** Everything promoted so far was available by the instant `clock`. */
    ghost predicate PromotedBy(clock: Time) {
      forall e :: e in ready ==> e.msg.Available(clock)
    }

    ghost predicate Holds(id: string) {
      exists e :: e in Held() && e.msg.id == id
    }

    /** The held message with this ID. */
    ghost function Lookup(id: string): (e: Entry)
      requires Holds(id)
      ensures e in Held() && e.msg.id == id
    {
      var e :| e in Held() && e.msg.id == id;
      e
    }

    ghost function Push(msg: Message): QueueState {
      if Holds(msg.id) then this
      else this.(delayed := delayed + {Entry(msg, nextOrder)}, nextOrder := nextOrder + 1)
    }

    function Promote(now: Time): QueueState {
      this.(ready := ready + Due(delayed, now), delayed := delayed - Due(delayed, now))
    }

    ghost function Pop(now: Time): (QueueState, Option<Message>) {
      var q := Promote(now);
      match First(BySelection(mode), q.ready)
      case None => (q, None)
      case Some(e) => (q.(ready := q.ready - {e}), Some(e.msg))
    }

    ghost function Peek(now: Time): (QueueState, Option<Message>) {
      var q := Promote(now);
      match First(BySelection(mode), q.ready)
      case None => (q, None)
      case Some(e) => (q, Some(e.msg))
    }

    ghost function Remove(id: string): (QueueState, bool) {
      if Holds(id) then
        var e := Lookup(id);
        (this.(ready := ready - {e}, delayed := delayed - {e}), true)
      else (this, false)
    }

    ghost function Snapshot(now: Time, limit: int): (QueueState, View) {
      var q := Promote(now);
      (q, View(
         Cut(InOrder(BySelection(mode), q.ready), limit),
         Cut(InOrder(ByMaturity, q.delayed), limit),
         |q.ready|, |q.delayed|))
    }
  }

  function Empty(mode: Mode): QueueState {
    QueueState(mode, {}, {}, 0)
  }

  lemma PushKeepsWellFormed(q: QueueState, msg: Message)
    requires q.WellFormed()
    ensures q.Push(msg).WellFormed()
  {
  }

  lemma FewerHeldIsWellFormed(q: QueueState, q': QueueState)
    requires q.WellFormed()
    requires q'.Held() <= q.Held() && q'.ready !! q'.delayed && q'.nextOrder >= q.nextOrder
    ensures q'.WellFormed()
  {
  }

  lemma PromoteKeepsWellFormed(q: QueueState, now: Time)
    requires q.WellFormed()
    ensures q.Promote(now).WellFormed() && q.Promote(now).Held() == q.Held()
  {
    FewerHeldIsWellFormed(q, q.Promote(now));
  }

  lemma PopKeepsWellFormed(q: QueueState, now: Time)
    requires q.WellFormed()
    ensures q.Pop(now).0.WellFormed()
  {
    FewerHeldIsWellFormed(q, q.Pop(now).0);
  }

  // ---------- Whole runs against one undivided set ----------

  datatype Op =
    | Push(msg: Message)
    | Pop(now: Time)
    | Peek(now: Time)
    | Remove(id: string)
    | AvailableLen(now: Time)
    | Snapshot(now: Time, limit: int)

  datatype Answer =
    | Nothing
    | Found(msg: Option<Message>)
    | Removed(was: bool)
    | Count(n: nat)
    | Shown(view: View)

  /** The instant an operation carries; an operation without one leaves the clock alone. */
  function ClockAfter(op: Op, clock: Time): Time {
    match op
    case Push(_) | Remove(_) => clock
    case Pop(now) => now
    case Peek(now) => now
    case AvailableLen(now) => now
    case Snapshot(now, _) => now
  }

  ghost function Step(q: QueueState, op: Op): (QueueState, Answer) {
    match op
    case Push(msg) => (q.Push(msg), Nothing)
    case Pop(now) => var (q', r) := q.Pop(now); (q', Found(r))
    case Peek(now) => var (q', r) := q.Peek(now); (q', Found(r))
    case Remove(id) => var (q', b) := q.Remove(id); (q', Removed(b))
    case AvailableLen(now) => (q.Promote(now), Count(|q.Promote(now).ready|))
    case Snapshot(now, limit) => var (q', v) := q.Snapshot(now, limit); (q', Shown(v))
  }

  /** The same operations on a set of entries, with visibility decided by `now` alone. */
  datatype Simple = Simple(mode: Mode, held: set<Entry>, nextOrder: nat) {
    /** The best available message; there is none only when nothing is available. */
    ghost function Best(now: Time): Option<Entry> {
      First(BySelection(mode), Due(held, now))
    }

    ghost function Step(op: Op): (Simple, Answer) {
      match op
      case Push(msg) =>
        if exists e :: e in held && e.msg.id == msg.id then (this, Nothing)
        else (this.(held := held + {Entry(msg, nextOrder)}, nextOrder := nextOrder + 1), Nothing)
      case Pop(now) =>
        (match Best(now)
         case None => (this, Found(None))
         case Some(e) => (this.(held := held - {e}), Found(Some(e.msg))))
      case Peek(now) =>
        (match Best(now)
         case None => (this, Found(None))
         case Some(e) => (this, Found(Some(e.msg))))
      case Remove(id) =>
        var kept := set e | e in held && e.msg.id != id;
        (this.(held := kept), Removed(kept != held))
      case AvailableLen(now) => (this, Count(|Due(held, now)|))
      case Snapshot(now, limit) =>
        (this, Shown(View(
           Cut(InOrder(BySelection(mode), Due(held, now)), limit),
           Cut(InOrder(ByMaturity, held - Due(held, now)), limit),
           |Due(held, now)|, |held - Due(held, now)|)))
    }
  }

  function Forget(q: QueueState): Simple {
    Simple(q.mode, q.Held(), q.nextOrder)
  }

  /** Under a non-decreasing clock every promoted set is exactly the available part. */
  lemma PromoteSplitsByAvailability(q: QueueState, clock: Time, now: Time)
    requires q.WellFormed() && q.PromotedBy(clock) && clock <= now
    ensures var p := q.Promote(now);
            && p.WellFormed() && p.PromotedBy(now) && p.Held() == q.Held()
            && p.ready == Due(q.Held(), now)
            && p.delayed == q.Held() - Due(q.Held(), now)
  {
  }

  /**
   * Pop finds nothing exactly when nothing held is available; otherwise it hands out the entry that
   * precedes every other available one and takes only that. Peek shows the same one.
   */
  lemma PopTakesTheFirst(q: QueueState, clock: Time, now: Time)
    requires q.WellFormed() && q.PromotedBy(clock) && clock <= now
    ensures var (q', r) := q.Pop(now);
            var available := Due(q.Held(), now);
            && (r == None <==> available == {})
            && (r == None ==> q'.Held() == q.Held())
            && (r.Some? ==> exists e :: IsFirst(BySelection(q.mode), available, e)
                                        && r.value == e.msg && q'.Held() == q.Held() - {e})
            && q.Peek(now).1 == r && q.Peek(now).0.Held() == q.Held()
  {
    PromoteSplitsByAvailability(q, clock, now);
    FirstOfNonEmpty(BySelection(q.mode), Due(q.Held(), now));
    var r := First(BySelection(q.mode), Due(q.Held(), now));
    if r.Some? {
      assert q.Pop(now).0.Held() == q.Held() - {r.value};
    }
  }

  /**
   * The selection rule in full. Pop finds nothing exactly when nothing held is available. Otherwise it
   * takes one available message, and only that: none available has a higher priority; of those with the
   * same priority none has a lower Seq in FIFO mode, a higher one in LIFO mode; of those that share the
   * Seq too none arrived before in FIFO mode, after in LIFO mode. Peek shows the same one.
   */
  lemma PopTakesTheBest(q: QueueState, clock: Time, now: Time)
    requires q.WellFormed() && q.PromotedBy(clock) && clock <= now
    ensures q.Pop(now).1 == None <==> forall x :: x in q.Held() ==> x.msg.availableAt > now
    ensures q.Pop(now).1 == None ==> q.Pop(now).0.Held() == q.Held()
    ensures q.Pop(now).1.Some? ==>
              exists e :: && e in q.Held() && e.msg == q.Pop(now).1.value && q.Pop(now).0.Held() == q.Held() - {e}
                          && e.msg.availableAt <= now
                          && forall x :: x in q.Held() && x.msg.availableAt <= now ==>
                               && e.msg.priority >= x.msg.priority
                               && (e.msg.priority == x.msg.priority ==>
                                     && (q.mode == FIFO ==> e.msg.seqNo <= x.msg.seqNo)
                                     && (q.mode == LIFO ==> e.msg.seqNo >= x.msg.seqNo)
                                     && (e.msg.seqNo == x.msg.seqNo && q.mode == FIFO ==> e.order <= x.order)
                                     && (e.msg.seqNo == x.msg.seqNo && q.mode == LIFO ==> e.order >= x.order))
    ensures q.Peek(now).1 == q.Pop(now).1 && q.Peek(now).0.Held() == q.Held()
  {
    PopTakesTheFirst(q, clock, now);
    var due := Due(q.Held(), now);
    if q.Pop(now).1 == None {
      forall x | x in q.Held() ensures x.msg.availableAt > now {
        assert x !in due;
      }
    } else {
      var e :| IsFirst(BySelection(q.mode), due, e) && q.Pop(now).1 == Some(e.msg) && q.Pop(now).0.Held() == q.Held() - {e};
      forall x | x in q.Held() && x.msg.availableAt <= now && x != e ensures Before(BySelection(q.mode), e, x) {
        assert x in due;
      }
      assert e in q.Held() && e.msg.availableAt <= now;
    }
  }

  lemma StepIsSimple(q: QueueState, op: Op, clock: Time)
    requires q.WellFormed() && q.PromotedBy(clock) && clock <= ClockAfter(op, clock)
    ensures var (q', a) := Step(q, op);
            && q'.WellFormed() && q'.PromotedBy(ClockAfter(op, clock))
            && Forget(q).Step(op) == (Forget(q'), a)
  {
    var (q', a) := Step(q, op);
    match op
    case Push(msg) =>
      if !q.Holds(msg.id) {
        assert q'.Held() == q.Held() + {Entry(msg, q.nextOrder)};
      }
    case Pop(now) =>
      PromoteSplitsByAvailability(q, clock, now);
      PopKeepsWellFormed(q, now);
      if a.msg.Some? {
        var e := First(BySelection(q.mode), q.Promote(now).ready).value;
        assert q'.Held() == q.Held() - {e};
      }
    case Peek(now) => PromoteSplitsByAvailability(q, clock, now);
    case Remove(id) =>
      if q.Holds(id) {
        var e := q.Lookup(id);
        forall x | x in q.Held() ensures x.msg.id == id <==> x == e {
          assert SameId(x, e) <==> x.msg.id == id;
        }
        assert q'.Held() == set x | x in q.Held() && x.msg.id != id;
        assert e in q.Held() && e !in q'.Held();
      } else {
        assert q.Held() == set x | x in q.Held() && x.msg.id != id;
      }
    case AvailableLen(now) => PromoteSplitsByAvailability(q, clock, now);
    case Snapshot(now, limit) => PromoteSplitsByAvailability(q, clock, now);
  }

  ghost predicate ClockRuns(ops: seq<Op>, clock: Time) {
    ops == [] || (clock <= ClockAfter(ops[0], clock) && ClockRuns(ops[1..], ClockAfter(ops[0], clock)))
  }

  ghost function Answers(q: QueueState, ops: seq<Op>): seq<Answer>
    decreases |ops|
  {
    if ops == [] then []
    else [Step(q, ops[0]).1] + Answers(Step(q, ops[0]).0, ops[1..])
  }

  ghost function SimpleAnswers(s: Simple, ops: seq<Op>): seq<Answer>
    decreases |ops|
  {
    if ops == [] then []
    else [s.Step(ops[0]).1] + SimpleAnswers(s.Step(ops[0]).0, ops[1..])
  }

  /**
   * Two heaps with lazy promotion answer every run of operations under a non-decreasing clock as
   * the undivided set does, whatever was promoted before and by whom.
   */
  lemma {:induction false} EngineIsSimple(q: QueueState, ops: seq<Op>, clock: Time)
    requires q.WellFormed() && q.PromotedBy(clock) && ClockRuns(ops, clock)
    ensures Answers(q, ops) == SimpleAnswers(Forget(q), ops)
    decreases |ops|
  {
    if ops != [] {
      StepIsSimple(q, ops[0], clock);
      EngineIsSimple(Step(q, ops[0]).0, ops[1..], ClockAfter(ops[0], clock));
    }
  }

  // ---------- A snapshot predicts the drain ----------

  /** What Pop(now), repeated until it finds nothing, hands out. */
  ghost function PopAll(q: QueueState, now: Time): seq<Message>
    decreases |q.ready| + |q.delayed|
  {
    var (q', r) := q.Pop(now);
    if r == None then []
    else
      PopTakesOne(q, now);
      [r.value] + PopAll(q', now)
  }

  lemma PopTakesOne(q: QueueState, now: Time)
    requires q.Pop(now).1.Some?
    ensures var q' := q.Pop(now).0;
            |q'.ready| + |q'.delayed| < |q.ready| + |q.delayed|
  {
    var due := Due(q.delayed, now);
    assert |q.ready + due| <= |q.ready| + |due|;
    assert |q.delayed - due| == |q.delayed| - |due|;
  }

  lemma PromoteIsIdempotent(q: QueueState, now: Time)
    ensures q.Promote(now).Promote(now) == q.Promote(now)
    ensures Due(q.delayed, now) == {} ==> q.Promote(now) == q
  {
  }

  /** With everything due already promoted, the drain is the ready set in order. */
  lemma {:induction false} ReadyDrainsInOrder(q: QueueState, now: Time)
    requires q.ready !! q.delayed && Due(q.delayed, now) == {}
    ensures PopAll(q, now) == Messages(InOrder(BySelection(q.mode), q.ready))
    decreases |q.ready|
  {
    PromoteIsIdempotent(q, now);
    var rule := BySelection(q.mode);
    var first := First(rule, q.ready);
    if first.Some? {
      var q' := q.(ready := q.ready - {first.value});
      ReadyDrainsInOrder(q', now);
      PopAllOfReady(q, now, first.value);
      MessagesOfMore(first.value, InOrder(rule, q'.ready));
    }
  }

  lemma PopAllOfReady(q: QueueState, now: Time, e: Entry)
    requires q.Promote(now) == q && First(BySelection(q.mode), q.ready) == Some(e)
    ensures PopAll(q, now) == [e.msg] + PopAll(q.(ready := q.ready - {e}), now)
    ensures InOrder(BySelection(q.mode), q.ready) == [e] + InOrder(BySelection(q.mode), q.ready - {e})
  {
  }

  lemma MessagesOfMore(e: Entry, es: seq<Entry>)
    ensures Messages([e] + es) == [e.msg] + Messages(es)
  {
  }

  lemma DrainIsInOrder(q: QueueState, now: Time)
    requires q.WellFormed()
    ensures PopAll(q, now) == Messages(InOrder(BySelection(q.mode), q.Promote(now).ready))
    ensures PopAll(q.Promote(now), now) == PopAll(q, now)
  {
    PromoteIsIdempotent(q, now);
    ReadyDrainsInOrder(q.Promote(now), now);
  }

  /** The listing of some of the held entries names a held message exactly when it is one of them. */
  lemma ListingHas(rule: Rule, s: set<Entry>, held: set<Entry>, e: Entry)
    requires s <= held && DistinctOrders(held) && DistinctIds(held) && e in held
    ensures e.msg in Messages(InOrder(rule, s)) <==> e in s
  {
    var es := InOrder(rule, s);
    InOrderListsAll(rule, s, e);
    if e in s {
      var i :| 0 <= i < |es| && es[i] == e;
      assert Messages(es)[i] == e.msg;
    }
    if e.msg in Messages(es) {
      var i :| 0 <= i < |es| && Messages(es)[i] == e.msg;
      assert es[i] in s && SameId(es[i], e);
    }
  }

  /** A held message is handed out by draining at exactly the instants from which it is available. */
  lemma DrainedWhenAvailable(q: QueueState, clock: Time, now: Time, e: Entry)
    requires q.WellFormed() && q.PromotedBy(clock) && clock <= now && e in q.Held()
    ensures e.msg in PopAll(q, now) <==> e.msg.Available(now)
  {
    PromoteSplitsByAvailability(q, clock, now);
    DrainIsInOrder(q, now);
    ListingHas(BySelection(q.mode), q.Promote(now).ready, q.Held(), e);
  }

  /** No Pop returns it earlier, and from then on no Pop comes back empty while it is held. */
  lemma PoppedWhenAvailable(q: QueueState, clock: Time, now: Time, e: Entry)
    requires q.WellFormed() && q.PromotedBy(clock) && clock <= now && e in q.Held()
    ensures q.Pop(now).1 == Some(e.msg) ==> e.msg.Available(now)
    ensures e.msg.Available(now) ==> q.Pop(now).1.Some?
  {
    PopTakesTheFirst(q, clock, now);
    assert e in Due(q.Held(), now) <==> e.msg.Available(now);
  }

  lemma InOrderIsWhole(rule: Rule, s: set<Entry>, held: set<Entry>)
    requires s <= held && DistinctOrders(held)
    ensures |InOrder(rule, s)| == |s|
  {
    if s != {} {
      var e :| e in s;
      InOrderListsAll(rule, s, e);
    }
  }

  lemma CutIsPrefix(es: seq<Entry>, limit: int)
    ensures var page := Cut(es, limit);
            && page.messages <= Messages(es)
            && (page.truncated <==> |page.messages| < |es|)
            && (page.truncated ==> |page.messages| == limit)
            && (limit <= 0 ==> !page.truncated)
            && (limit > 0 ==> |page.messages| <= limit)
  {
  }

  ghost predicate ByMaturityAfter(ms: seq<Message>, now: Time) {
    && (forall i :: 0 <= i < |ms| ==> now < ms[i].availableAt)
    && (forall i, j :: 0 <= i < j < |ms| ==> ms[i].availableAt <= ms[j].availableAt)
  }

  lemma MaturityOrder(s: set<Entry>, now: Time)
    requires forall e :: e in s ==> !e.msg.Available(now)
    ensures ByMaturityAfter(Messages(InOrder(ByMaturity, s)), now)
  {
    var es := InOrder(ByMaturity, s);
    InOrderAscends(ByMaturity, s);
    forall i | 0 <= i < |es| ensures now < es[i].msg.availableAt {
      assert es[i] in s;
    }
    forall i, j | 0 <= i < j < |es| ensures es[i].msg.availableAt <= es[j].msg.availableAt {
      assert Before(ByMaturity, es[i], es[j]);
    }
  }

  /**
   * The ready list is what repeated Pop(now) would return, cut to the limit; its flag tells exactly
   * whether something was cut and its length is the whole one; nothing leaves the queue and the
   * drain stays what it was.
   */
  lemma SnapshotPredictsDrain(q: QueueState, now: Time, limit: int)
    requires q.WellFormed()
    ensures var (q', v) := q.Snapshot(now, limit);
            var drain := PopAll(q, now);
            && q'.WellFormed() && q'.Held() == q.Held() && PopAll(q', now) == drain
            && v.readyLen == |drain|
            && v.ready.messages <= drain
            && (v.ready.truncated <==> |v.ready.messages| < v.readyLen)
            && (v.ready.truncated ==> |v.ready.messages| == limit)
            && (limit > 0 ==> |v.ready.messages| <= limit)
            && (limit <= 0 ==> v.ready == Page(drain, false))
  {
    PromoteKeepsWellFormed(q, now);
    DrainIsInOrder(q, now);
    var p := q.Promote(now);
    CutIsPrefix(InOrder(BySelection(q.mode), p.ready), limit);
    InOrderIsWhole(BySelection(q.mode), p.ready, q.Held());
  }

  ghost predicate NoneTwice(ms: seq<Message>) {
    forall i, j :: 0 <= i < j < |ms| ==> ms[i].id != ms[j].id
  }

  /** An ascending listing of held entries names each message once. */
  lemma ListingNamesOnce(rule: Rule, s: set<Entry>, held: set<Entry>)
    requires s <= held && DistinctIds(held)
    ensures NoneTwice(Messages(InOrder(rule, s)))
  {
    var es := InOrder(rule, s);
    InOrderAscends(rule, s);
    forall i, j | 0 <= i < j < |es| ensures es[i].msg.id != es[j].msg.id {
      assert es[i] in s && es[j] in s && Before(rule, es[i], es[j]);
      BeforeIsStrictOrder(rule, es[i], es[i], es[i]);
      assert !SameId(es[i], es[j]);
    }
  }

  /**
   * The delayed list is a prefix of the one listing by maturity, and then arrival, of all that is
   * held back; with no limit it is that listing. The listing itself has each such message once and
   * nothing due. The lengths add up to all that is held.
   */
  lemma SnapshotListsDelayed(q: QueueState, now: Time, limit: int)
    requires q.WellFormed()
    ensures var (q', v) := q.Snapshot(now, limit);
            var all := Messages(InOrder(ByMaturity, q'.delayed));
            && v.readyLen + v.delayedLen == |q.Held()| && v.delayedLen == |all|
            && v.delayed.messages <= all
            && (v.delayed.truncated <==> |v.delayed.messages| < v.delayedLen)
            && (v.delayed.truncated ==> |v.delayed.messages| == limit)
            && (limit > 0 ==> |v.delayed.messages| <= limit)
            && (limit <= 0 ==> v.delayed == Page(all, false))
    ensures var all := Messages(InOrder(ByMaturity, q.Snapshot(now, limit).0.delayed));
            ByMaturityAfter(all, now) && NoneTwice(all)
    ensures var all := Messages(InOrder(ByMaturity, q.Snapshot(now, limit).0.delayed));
            forall m :: m in all <==> HoldsBack(q, m, now)
    ensures var es := InOrder(ByMaturity, q.Snapshot(now, limit).0.delayed);
            forall i, j :: 0 <= i < j < |es| && es[i].msg.availableAt == es[j].msg.availableAt ==> es[i].order < es[j].order
  {
    PromoteKeepsWellFormed(q, now);
    var p := q.Promote(now);
    assert |p.Held()| == |p.ready| + |p.delayed|;
    CutIsPrefix(InOrder(ByMaturity, p.delayed), limit);
    InOrderIsWhole(ByMaturity, p.delayed, q.Held());
    MaturityOrder(p.delayed, now);
    ListingNamesOnce(ByMaturity, p.delayed, q.Held());
    ListingIsWhole(q, now);
    ArrivalDecides(p.delayed);
  }

  lemma ArrivalDecides(s: set<Entry>)
    ensures var es := InOrder(ByMaturity, s);
            forall i, j :: 0 <= i < j < |es| && es[i].msg.availableAt == es[j].msg.availableAt ==> es[i].order < es[j].order
  {
    var es := InOrder(ByMaturity, s);
    InOrderAscends(ByMaturity, s);
    assert forall i, j :: 0 <= i < j < |es| ==> Before(ByMaturity, es[i], es[j]);
  }

  /** m is held, not promoted and not due. */
  ghost predicate HoldsBack(q: QueueState, m: Message, now: Time) {
    exists e :: e in q.delayed && e.msg == m && now < m.availableAt
  }

  lemma ListingIsWhole(q: QueueState, now: Time)
    requires q.WellFormed()
    ensures forall m :: m in Messages(InOrder(ByMaturity, q.Promote(now).delayed)) <==> HoldsBack(q, m, now)
  {
    var s := q.Promote(now).delayed;
    var es := InOrder(ByMaturity, s);
    forall m ensures m in Messages(es) <==> HoldsBack(q, m, now) {
      if m in Messages(es) {
        var i :| 0 <= i < |es| && Messages(es)[i] == m;
        assert es[i] in s;
      }
      if HoldsBack(q, m, now) {
        var e :| e in q.delayed && e.msg == m && now < m.availableAt;
        InOrderListsAll(ByMaturity, s, e);
        var i :| 0 <= i < |es| && es[i] == e;
        assert Messages(es)[i] == m;
      }
    }
  }
}
