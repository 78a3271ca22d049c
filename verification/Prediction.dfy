/**
 * The client's prediction against the engine (cmd/client/main.go:258-330, pkg/engine/queue.go:205-220): the
 * engine driven by the schedule that the client simulates, and exactly when the two hand out the same.
 */
module Prediction {
  import opened Model
  import opened Selection
  import opened Scheduling
  import opened Service
  import opened Client

  // ---------- The engine driven the same way ----------

  /** Pop at t; one interval after a message, or a jump to the earliest AvailableAt when there is none. */
  ghost predicate EngineDrains(q: QueueState, t: Time, out: seq<Message>)
    decreases |out|, if q.Promote(t).ready == {} then 1 else 0
  {
    var (q', r) := q.Pop(t);
    match r
    case Some(m) => out != [] && out[0] == m && EngineDrains(q', t + POLL_INTERVAL, out[1..])
    case None =>
      if q'.Held() == {} then out == []
      else exists e :: IsFirst(ByMaturity, q'.delayed, e) && JumpIsUseful(q, t, e) && EngineDrains(q', e.msg.availableAt, out)
  }

  /** Nothing is ready now and something is at the instant jumped to. */
  ghost predicate JumpIsUseful(q: QueueState, t: Time, e: Entry) {
    q.Promote(t).ready == {} && q.Pop(t).0.Promote(e.msg.availableAt).ready != {}
  }

  function Sims(s: set<Entry>): set<SimItem> {
    set e | e in s :: ToSim(e.msg)
  }

  lemma SimsOfPromoted(q: QueueState, t: Time)
    ensures Sims(q.Promote(t).ready) == Sims(q.ready) + Ripe(Sims(q.delayed), t)
    ensures Sims(q.Promote(t).delayed) == Sims(q.delayed) - Ripe(Sims(q.delayed), t)
  {
    assert Sims(Due(q.delayed, t)) == Ripe(Sims(q.delayed), t);
    SimsUnion(q.ready, Due(q.delayed, t));
  }

  lemma SimsUnion(a: set<Entry>, b: set<Entry>)
    ensures Sims(a + b) == Sims(a) + Sims(b)
  {
  }

  lemma SimsAreDisjoint(q: QueueState)
    requires q.WellFormed()
    ensures Sims(q.ready) !! Sims(q.delayed)
  {
    forall a, b | a in q.ready && b in q.delayed ensures ToSim(a.msg) != ToSim(b.msg) {
      assert a in q.Held() && b in q.Held();
      assert !SameId(a, b);
    }
  }

  lemma SimsWithout(s: set<Entry>, e: Entry)
    requires DistinctIds(s) && e in s
    ensures Sims(s - {e}) == Sims(s) - {ToSim(e.msg)}
  {
    forall x | x in s && ToSim(x.msg) == ToSim(e.msg) ensures x == e {
      assert SameId(x, e);
    }
  }

  /** The engine's precedence among held messages, arrival included. */
  ghost function EngineRule(held: set<Entry>, mode: Mode): Precedence {
    (x, y) => exists a, b :: a in held && b in held && ToSim(a.msg) == x && ToSim(b.msg) == y && Before(BySelection(mode), a, b)
  }

  /** An item stands for one held message. */
  lemma OneEntry(held: set<Entry>, a: Entry, b: Entry)
    requires DistinctIds(held) && a in held && b in held && ToSim(a.msg) == ToSim(b.msg)
    ensures a == b
  {
    assert SameId(a, b);
  }

  lemma NotTheOtherWay(held: set<Entry>, mode: Mode, a: Entry, b: Entry)
    requires DistinctIds(held) && a in held && b in held && Before(BySelection(mode), a, b)
    ensures !EngineRule(held, mode)(ToSim(b.msg), ToSim(a.msg))
  {
    forall b', a' | b' in held && a' in held && ToSim(b'.msg) == ToSim(b.msg) && ToSim(a'.msg) == ToSim(a.msg)
      ensures !Before(BySelection(mode), b', a')
    {
      OneEntry(held, a, a');
      OneEntry(held, b, b');
      BeforeIsStrictOrder(BySelection(mode), a, b, a);
    }
  }

  lemma EngineRuleIsOrder(held: set<Entry>, mode: Mode)
    requires DistinctIds(held)
    ensures Asymmetric(EngineRule(held, mode)) && Respects(EngineRule(held, mode), mode)
    ensures Extends(EngineRule(held, mode), mode, Sims(held))
  {
    var rule := EngineRule(held, mode);
    forall x, y | rule(x, y) ensures !rule(y, x) && !SimBefore(mode, y, x) {
      var a, b :| a in held && b in held && ToSim(a.msg) == x && ToSim(b.msg) == y && Before(BySelection(mode), a, b);
      NotTheOtherWay(held, mode, a, b);
    }
    forall x, y | x in Sims(held) && y in Sims(held) && SimBefore(mode, x, y) ensures rule(x, y) {
      var a :| a in held && ToSim(a.msg) == x;
      var b :| b in held && ToSim(b.msg) == y;
      assert Before(BySelection(mode), a, b);
    }
  }

  lemma BestIsNext(mode: Mode, held: set<Entry>, ready: set<Entry>, e: Entry)
    requires IsFirst(BySelection(mode), ready, e) && ready <= held
    ensures IsNext(EngineRule(held, mode), Sims(ready), ToSim(e.msg))
  {
    forall y | y in Sims(ready) && y != ToSim(e.msg) ensures EngineRule(held, mode)(ToSim(e.msg), y) {
      var x :| x in ready && ToSim(x.msg) == y;
      assert Before(BySelection(mode), e, x);
    }
  }

  lemma EarliestIsSoonest(s: set<Entry>, e: Entry)
    requires IsFirst(ByMaturity, s, e)
    ensures IsSoonest(Sims(s), e.msg.availableAt) && Ripe(Sims(s), e.msg.availableAt) != {}
    ensures e in Due(s, e.msg.availableAt)
  {
    assert ToSim(e.msg) in Sims(s);
    forall x | x in Sims(s) ensures e.msg.availableAt <= x.availableAt {
      var y :| y in s && ToSim(y.msg) == x;
      assert y != e ==> Before(ByMaturity, e, y);
    }
    assert ToSim(e.msg) in Ripe(Sims(s), e.msg.availableAt);
  }

  /** What one Pop leaves, in terms of what is ready after promotion; no clock is asked for. */
  lemma PopOfPromoted(q: QueueState, t: Time)
    requires q.WellFormed()
    ensures var (p, q', r) := (q.Promote(t), q.Pop(t).0, q.Pop(t).1);
            && p.WellFormed() && q'.WellFormed() && q'.mode == q.mode && q'.delayed == p.delayed
            && (p.ready == {} ==> r == None && q' == p)
            && (p.ready != {} ==> exists e :: IsFirst(BySelection(q.mode), p.ready, e)
                                              && r == Some(e.msg) && q'.ready == p.ready - {e})
  {
    PromoteKeepsWellFormed(q, t);
    PopKeepsWellFormed(q, t);
    FirstOfNonEmpty(BySelection(q.mode), q.Promote(t).ready);
  }

  /** What the engine hands out under the schedule is a drain of what it holds, whatever it has promoted before. */
  lemma {:induction false} EngineDrainIsDrain(q: QueueState, held: set<Entry>, t: Time, ms: seq<Message>)
    requires q.WellFormed() && q.Held() <= held && EngineDrains(q, t, ms)
    ensures Drains(EngineRule(held, q.mode), Sims(q.ready), Sims(q.delayed), t, ToSims(ms))
    decreases |ms|, if q.Promote(t).ready == {} then 1 else 0
  {
    var q' := q.Pop(t).0;
    PopOfPromoted(q, t);
    HeldAfterPop(q, t);
    if q.Promote(t).ready != {} {
      EngineDrainIsDrain(q', held, t + POLL_INTERVAL, ms[1..]);
      EngineDrainTakes(q, held, t, ms);
    } else if q'.Held() != {} {
      var e :| IsFirst(ByMaturity, q'.delayed, e) && JumpIsUseful(q, t, e) && EngineDrains(q', e.msg.availableAt, ms);
      EngineDrainIsDrain(q', held, e.msg.availableAt, ms);
      EngineDrainWaits(EngineRule(held, q.mode), q, t, e, ms);
    } else {
      SimsOfPromoted(q, t);
      assert Sims(q'.ready) == {} && Sims(q'.delayed) == {};
    }
  }

  lemma HeldAfterPop(q: QueueState, t: Time)
    requires q.WellFormed()
    ensures q.Pop(t).0.Held() <= q.Held() && q.Promote(t).ready <= q.Held()
  {
  }

  lemma EngineDrainTakes(q: QueueState, held: set<Entry>, t: Time, ms: seq<Message>)
    requires q.WellFormed() && q.Held() <= held && q.Promote(t).ready != {} && ms != [] && q.Pop(t).1 == Some(ms[0])
    requires var q' := q.Pop(t).0;
             Drains(EngineRule(held, q.mode), Sims(q'.ready), Sims(q'.delayed), t + POLL_INTERVAL, ToSims(ms[1..]))
    ensures Drains(EngineRule(held, q.mode), Sims(q.ready), Sims(q.delayed), t, ToSims(ms))
  {
    var p, q' := q.Promote(t), q.Pop(t).0;
    PopOfPromoted(q, t);
    HeldAfterPop(q, t);
    SimsOfPromoted(q, t);
    var e :| IsFirst(BySelection(q.mode), p.ready, e) && q.Pop(t).1 == Some(e.msg) && q'.ready == p.ready - {e};
    BestIsNext(q.mode, held, p.ready, e);
    EngineGivesNext(p, e);
    assert ToSims(ms)[1..] == ToSims(ms[1..]);
    NextOut(EngineRule(held, q.mode), Sims(q.ready), Sims(q.delayed), t, ToSims(ms), Sims(q'.ready));
  }

  lemma EngineDrainWaits(before: Precedence, q: QueueState, t: Time, e: Entry, ms: seq<Message>)
    requires q.WellFormed() && q.Promote(t).ready == {} && IsFirst(ByMaturity, q.Pop(t).0.delayed, e)
    requires var q' := q.Pop(t).0; Drains(before, Sims(q'.ready), Sims(q'.delayed), e.msg.availableAt, ToSims(ms))
    ensures Drains(before, Sims(q.ready), Sims(q.delayed), t, ToSims(ms))
  {
    var q' := q.Pop(t).0;
    PopOfPromoted(q, t);
    SimsOfPromoted(q, t);
    EarliestIsSoonest(q'.delayed, e);
    assert Sims(q'.ready) == {} && ToSim(e.msg) in Sims(q'.delayed);
    NoneOut(before, Sims(q.ready), Sims(q.delayed), t, ToSims(ms), e.msg.availableAt);
  }

  lemma NoneOut(before: Precedence, ready: set<SimItem>, delayed: set<SimItem>, t: Time, out: seq<SimItem>, u: Time)
    requires var d := delayed - Ripe(delayed, t);
             ready + Ripe(delayed, t) == {} && d != {} && IsSoonest(d, u) && Ripe(d, u) != {} && Drains(before, {}, d, u, out)
    ensures Drains(before, ready, delayed, t, out)
  {
  }

  lemma EngineGivesNext(p: QueueState, e: Entry)
    requires p.WellFormed() && IsFirst(BySelection(p.mode), p.ready, e)
    ensures Sims(p.ready - {e}) == Sims(p.ready) - {ToSim(e.msg)}
  {
    forall a, b {:trigger SameId(a, b)} | a in p.ready && b in p.ready && SameId(a, b) ensures a == b {
      assert a in p.Held() && b in p.Held();
    }
    SimsWithout(p.ready, e);
  }

  lemma NextOut(before: Precedence, ready: set<SimItem>, delayed: set<SimItem>, t: Time, out: seq<SimItem>, left: set<SimItem>)
    requires out != [] && IsNext(before, ready + Ripe(delayed, t), out[0]) && left == ready + Ripe(delayed, t) - {out[0]}
    requires Drains(before, left, delayed - Ripe(delayed, t), t + POLL_INTERVAL, out[1..])
    ensures Drains(before, ready, delayed, t, out)
  {
  }

  /** Driving the engine so ends, with everything handed out. */
  lemma {:induction false} EngineDrainEnds(q: QueueState, t: Time) returns (ms: seq<Message>)
    requires q.WellFormed()
    ensures EngineDrains(q, t, ms)
    decreases |q.Held()|, if q.Promote(t).ready == {} then 1 else 0, 1
  {
    PopOfPromoted(q, t);
    PromoteKeepsWellFormed(q, t);
    var q', r := q.Pop(t).0, q.Pop(t).1;
    if r.Some? {
      OneFewer(q, t);
      var rest := EngineDrainEnds(q', t + POLL_INTERVAL);
      ms := [r.value] + rest;
      DrainAfterPop(q, t, rest);
    } else if q'.Held() == {} {
      ms := [];
    } else {
      ms := EngineDrainJumps(q, t);
    }
  }

  lemma OneFewer(q: QueueState, t: Time)
    requires q.WellFormed() && q.Pop(t).1.Some?
    ensures |q.Pop(t).0.Held()| < |q.Held()|
  {
    PromoteKeepsWellFormed(q, t);
    var e := First(BySelection(q.mode), q.Promote(t).ready).value;
    assert q.Pop(t).0.Held() == q.Held() - {e};
  }

  lemma {:induction false} EngineDrainJumps(q: QueueState, t: Time) returns (ms: seq<Message>)
    requires q.WellFormed()
    requires q.Pop(t).1 == None && q.Pop(t).0.Held() != {}
    ensures EngineDrains(q, t, ms)
    decreases |q.Held()|, if q.Promote(t).ready == {} then 1 else 0, 0
  {
    PopOfPromoted(q, t);
    PromoteKeepsWellFormed(q, t);
    var q' := q.Pop(t).0;
    FirstOfNonEmpty(ByMaturity, q'.delayed);
    var e := First(ByMaturity, q'.delayed).value;
    EarliestIsSoonest(q'.delayed, e);
    assert e in q'.Promote(e.msg.availableAt).ready;
    ms := EngineDrainEnds(q', e.msg.availableAt);
    DrainAfterJump(q, t, e, ms);
  }

  lemma DrainAfterPop(q: QueueState, t: Time, rest: seq<Message>)
    requires q.Pop(t).1.Some? && EngineDrains(q.Pop(t).0, t + POLL_INTERVAL, rest)
    ensures EngineDrains(q, t, [q.Pop(t).1.value] + rest)
  {
    assert ([q.Pop(t).1.value] + rest)[1..] == rest;
  }

  lemma DrainAfterJump(q: QueueState, t: Time, e: Entry, ms: seq<Message>)
    requires q.Pop(t).1 == None && IsFirst(ByMaturity, q.Pop(t).0.delayed, e) && JumpIsUseful(q, t, e)
    requires EngineDrains(q.Pop(t).0, e.msg.availableAt, ms)
    ensures EngineDrains(q, t, ms)
  {
  }

  // ---------- The prediction ----------

  /** A snapshot of the service that no limit has cut. */
  ghost predicate WholeSnapshot(s: ServiceState, now: Time, limit: int) {
    && s.queue.WellFormed()
    && !s.Snapshot(now, limit).1.ready.truncated && !s.Snapshot(now, limit).1.delayed.truncated
  }

  lemma SnapshotShowsAll(s: ServiceState, now: Time, limit: int)
    requires WholeSnapshot(s, now, limit)
    ensures var (s', snap) := s.Snapshot(now, limit);
            && snap.mode == s.queue.mode && snap.now == now
            && snap.ready.messages == Messages(InOrder(BySelection(s.queue.mode), s'.queue.ready))
            && snap.delayed.messages == Messages(InOrder(ByMaturity, s'.queue.delayed))
            && LineOf(snap) == ToSims(snap.ready.messages) + ToSims(snap.delayed.messages)
            && Set(ToSims(snap.ready.messages)) == Sims(s'.queue.ready)
            && Set(ToSims(snap.delayed.messages)) == Sims(s'.queue.delayed)
            && s'.queue.WellFormed() && s'.queue.Held() == s.queue.Held() && s'.queue.mode == s.queue.mode
  {
    var p := s.queue.Promote(now);
    PromoteKeepsWellFormed(s.queue, now);
    ListedItems(BySelection(s.queue.mode), p.ready, p.Held());
    ListedItems(ByMaturity, p.delayed, p.Held());
    ListedByMaturity(p.delayed);
    SortedStays(Matures, ToSims(Messages(InOrder(ByMaturity, p.delayed))));
  }

  lemma ListedByMaturity(s: set<Entry>)
    ensures Sorted(Matures, ToSims(Messages(InOrder(ByMaturity, s))))
  {
    var es := InOrder(ByMaturity, s);
    InOrderAscends(ByMaturity, s);
    assert forall i, j :: 0 <= i < j < |es| ==> Before(ByMaturity, es[i], es[j]);
  }

  lemma ListedItems(rule: Rule, s: set<Entry>, held: set<Entry>)
    requires s <= held && DistinctOrders(held)
    ensures Set(ToSims(Messages(InOrder(rule, s)))) == Sims(s)
  {
    var es := InOrder(rule, s);
    var xs := ToSims(Messages(es));
    forall x ensures x in Set(xs) <==> x in Sims(s) {
      if x in Set(xs) {
        var i :| 0 <= i < |xs| && xs[i] == x;
        assert es[i] in s;
      }
      if x in Sims(s) {
        var e :| e in s && ToSim(e.msg) == x;
        InOrderListsAll(rule, s, e);
        var i :| 0 <= i < |es| && es[i] == e;
        assert xs[i] == x;
      }
    }
  }

  /** Such a snapshot lists no item twice. */
  lemma SnapshotCanBeSimulated(s: ServiceState, now: Time, limit: int)
    requires WholeSnapshot(s, now, limit)
    ensures var snap := s.Snapshot(now, limit).1;
            NoRepeats(ToSims(snap.ready.messages) + ToSims(snap.delayed.messages))
  {
    SnapshotShowsAll(s, now, limit);
    var p := s.Snapshot(now, limit).0.queue;
    InOrderAscends(BySelection(p.mode), p.ready);
    InOrderAscends(ByMaturity, p.delayed);
    ListingsDoNotRepeat(p, InOrder(BySelection(p.mode), p.ready), InOrder(ByMaturity, p.delayed));
  }

  lemma ListingsDoNotRepeat(p: QueueState, ready: seq<Entry>, delayed: seq<Entry>)
    requires p.WellFormed()
    requires forall i :: 0 <= i < |ready| ==> ready[i] in p.ready
    requires forall i :: 0 <= i < |delayed| ==> delayed[i] in p.delayed
    requires Ascending(BySelection(p.mode), ready) && Ascending(ByMaturity, delayed)
    ensures NoRepeats(ToSims(Messages(ready)) + ToSims(Messages(delayed)))
  {
    var es := ready + delayed;
    var xs := ToSims(Messages(ready)) + ToSims(Messages(delayed));
    assert forall i :: 0 <= i < |es| ==> xs[i] == ToSim(es[i].msg) && es[i] in p.Held();
    forall i, j | 0 <= i < j < |es| ensures xs[i] != xs[j] {
      if j < |ready| {
        assert Before(BySelection(p.mode), ready[i], ready[j]);
      } else if i >= |ready| {
        assert Before(ByMaturity, delayed[i - |ready|], delayed[j - |ready|]);
      }
      assert es[i] != es[j];
      assert !SameId(es[i], es[j]);
    }
  }

  lemma DrainsOfHeld(before: Precedence, q: QueueState, t: Time, out: seq<SimItem>)
    requires q.WellFormed() && Drains(before, Sims(q.ready), Sims(q.delayed), t, out)
    ensures |out| == |q.Held()| && forall x :: x in out <==> x in Sims(q.Held())
  {
    SimsAreDisjoint(q);
    SimsUnion(q.ready, q.delayed);
    DrainIsPermutation(before, Sims(q.ready), Sims(q.delayed), t, out);
    assert |Sims(q.Held())| == |Sims(q.ready)| + |Sims(q.delayed)|;
    SimsCount(q.Held());
  }

  lemma {:induction false} SimsCount(s: set<Entry>)
    requires DistinctIds(s)
    ensures |Sims(s)| == |s|
    decreases |s|
  {
    if s != {} {
      var e :| e in s;
      SimsWithout(s, e);
      SimsCount(s - {e});
      assert ToSim(e.msg) in Sims(s);
    }
  }

  /**
   * Whenever the prediction lets a message go while another of the same priority and Seq is ready, the engine
   * prefers the one that goes. A holder of the prediction and of the arrival counters can tell.
   */
  ghost predicate TiesGoAsTheyCame(s: ServiceState, now: Time, out: seq<SimItem>) {
    var q := s.queue.Promote(now);
    TiesKept(EngineRule(q.Held(), q.mode), Sims(q.ready), Sims(q.delayed), now, out)
  }

  /**
   * From an untruncated snapshot, also one taken by a reader whose instant others had overtaken, the
   * prediction and the engine driven by the same schedule hand out every held message once, and in
   * every turn one of the same priority and Seq. They hand out the very same message in every turn
   * exactly when ties go as they came.
   */
  lemma PredictionIsTheDrain(s: ServiceState, now: Time, limit: int, out: seq<SimItem>, ms: seq<Message>)
    requires WholeSnapshot(s, now, limit)
    requires SnapshotDrains(s.Snapshot(now, limit).1, out)
    requires EngineDrains(s.Snapshot(now, limit).0.queue, now, ms)
    ensures |out| == |ms| == |s.queue.Held()|
    ensures forall x :: x in out <==> x in Sims(s.queue.Held())
    ensures forall x :: x in ToSims(ms) <==> x in Sims(s.queue.Held())
    ensures SameKeysInTurn(out, ToSims(ms))
    ensures out == ToSims(ms) <==> TiesGoAsTheyCame(s, now, out)
  {
    SnapshotShowsAll(s, now, limit);
    SnapshotCanBeSimulated(s, now, limit);
    var q, snap := s.Snapshot(now, limit).0.queue, s.Snapshot(now, limit).1;
    var client, engine := ClientRule(snap.mode, LineOf(snap)), EngineRule(q.Held(), q.mode);
    LineRepeatsNothing(snap);
    ClientRuleIsOrder(snap.mode, LineOf(snap));
    EngineRuleIsOrder(q.Held(), q.mode);
    EngineDrainIsDrain(q, q.Held(), now, ms);
    DrainsOfHeld(client, q, now, out);
    DrainsOfHeld(engine, q, now, ToSims(ms));
    TwoDrainsOfHeld(q, client, engine, now, out, ToSims(ms));
  }

  lemma TwoDrainsOfHeld(q: QueueState, client: Precedence, engine: Precedence, t: Time, a: seq<SimItem>, b: seq<SimItem>)
    requires q.WellFormed() && Respects(client, q.mode) && Respects(engine, q.mode)
    requires Asymmetric(engine) && Extends(engine, q.mode, Sims(q.Held()))
    requires Drains(client, Sims(q.ready), Sims(q.delayed), t, a)
    requires Drains(engine, Sims(q.ready), Sims(q.delayed), t, b)
    ensures SameKeysInTurn(a, b)
    ensures a == b <==> TiesKept(engine, Sims(q.ready), Sims(q.delayed), t, a)
  {
    SimsAreDisjoint(q);
    DrainsAgreeUpToTies(q.mode, client, engine, Sims(q.ready), Sims(q.ready), Sims(q.delayed), t, a, b);
    DrainsUnderOtherIff(q.mode, client, engine, Sims(q.Held()), Sims(q.ready), Sims(q.delayed), t, a);
    if Drains(engine, Sims(q.ready), Sims(q.delayed), t, a) {
      DrainIsUnique(engine, Sims(q.ready), Sims(q.delayed), t, a, b);
    }
  }

  // ---------- When ties are sure to go as they came ----------

  /** In the order in which the snapshot lists them, tied messages stand as the engine prefers them. */
  ghost predicate TiesInLine(held: set<Entry>, mode: Mode, line: seq<SimItem>) {
    forall i, j :: 0 <= i < j < |line| && SameKey(line[i], line[j]) ==> EngineRule(held, mode)(line[i], line[j])
  }

  /** Where one precedence says what the other says, a drain under it is one under the other. */
  lemma {:induction false} DrainsUnderStronger(before: Precedence, other: Precedence, all: set<SimItem>,
                                               ready: set<SimItem>, delayed: set<SimItem>, t: Time, out: seq<SimItem>)
    requires forall x, y :: x in all && y in all && before(x, y) ==> other(x, y)
    requires ready <= all && delayed <= all && Drains(before, ready, delayed, t, out)
    ensures Drains(other, ready, delayed, t, out)
    decreases |out|, if ready + Ripe(delayed, t) == {} then 1 else 0
  {
    var r, d := ready + Ripe(delayed, t), delayed - Ripe(delayed, t);
    if r != {} {
      DrainsUnderStronger(before, other, all, r - {out[0]}, d, t + POLL_INTERVAL, out[1..]);
    } else if d != {} {
      var u :| IsSoonest(d, u) && Ripe(d, u) != {} && Drains(before, {}, d, u, out);
      DrainsUnderStronger(before, other, all, {}, d, u, out);
    }
  }

  /** Then the prediction is exact; the snapshot and the arrival counters tell beforehand. */
  lemma PredictionIsExactInLine(s: ServiceState, now: Time, limit: int, out: seq<SimItem>, ms: seq<Message>)
    requires WholeSnapshot(s, now, limit)
    requires SnapshotDrains(s.Snapshot(now, limit).1, out)
    requires EngineDrains(s.Snapshot(now, limit).0.queue, now, ms)
    requires TiesInLine(s.queue.Held(), s.queue.mode, LineOf(s.Snapshot(now, limit).1))
    ensures out == ToSims(ms)
  {
    SnapshotShowsAll(s, now, limit);
    var q, snap := s.Snapshot(now, limit).0.queue, s.Snapshot(now, limit).1;
    var client, engine := ClientRule(snap.mode, LineOf(snap)), EngineRule(q.Held(), q.mode);
    EngineRuleIsOrder(q.Held(), q.mode);
    EngineDrainIsDrain(q, q.Held(), now, ms);
    InLineIsEngines(q.Held(), q.mode, LineOf(snap));
    SimsUnion(q.ready, q.delayed);
    DrainsUnderStronger(client, engine, Sims(q.Held()), Sims(q.ready), Sims(q.delayed), now, out);
    DrainIsUnique(engine, Sims(q.ready), Sims(q.delayed), now, out, ToSims(ms));
  }

  lemma InLineIsEngines(held: set<Entry>, mode: Mode, line: seq<SimItem>)
    requires TiesInLine(held, mode, line) && Extends(EngineRule(held, mode), mode, Sims(held))
    ensures forall x, y :: x in Sims(held) && y in Sims(held) && ClientRule(mode, line)(x, y) ==> EngineRule(held, mode)(x, y)
  {
    forall x, y | x in Sims(held) && y in Sims(held) && ClientRule(mode, line)(x, y) ensures EngineRule(held, mode)(x, y) {
      if !SimBefore(mode, x, y) {
        var i, j :| 0 <= i < j < |line| && line[i] == x && line[j] == y;
      }
    }
  }

  /** No two items share both priority and Seq. */
  ghost predicate Untied(s: set<SimItem>) {
    forall x, y :: x in s && y in s && SameKey(x, y) ==> x == y
  }

  /** Tied messages are all visible. */
  ghost predicate OnlyReadyTies(q: QueueState) {
    forall x, y :: x in Sims(q.Held()) && y in Sims(q.Held()) && SameKey(x, y) && x != y ==> x in Sims(q.ready) && y in Sims(q.ready)
  }

  /** It is so when the messages that share priority and Seq, if any, are all in the snapshot's ready list. */
  lemma ReadyTiesAreInLine(s: ServiceState, now: Time, limit: int)
    requires WholeSnapshot(s, now, limit) && OnlyReadyTies(s.Snapshot(now, limit).0.queue)
    ensures TiesInLine(s.queue.Held(), s.queue.mode, LineOf(s.Snapshot(now, limit).1))
  {
    SnapshotShowsAll(s, now, limit);
    SnapshotCanBeSimulated(s, now, limit);
    var q, snap := s.Snapshot(now, limit).0.queue, s.Snapshot(now, limit).1;
    var rule := BySelection(q.mode);
    var es := InOrder(rule, q.ready);
    var ready, delayed := ToSims(snap.ready.messages), ToSims(snap.delayed.messages);
    var line := ready + delayed;
    InOrderAscends(rule, q.ready);
    SimsAreDisjoint(q);
    SimsUnion(q.ready, q.delayed);
    forall i, j | 0 <= i < j < |line| && SameKey(line[i], line[j]) ensures EngineRule(q.Held(), q.mode)(line[i], line[j]) {
      InSims(q, ready, delayed, i);
      InSims(q, ready, delayed, j);
      assert line[i] != line[j];
      assert es[i] in q.ready && es[j] in q.ready && Before(rule, es[i], es[j]);
      assert line[i] == ToSim(es[i].msg) && line[j] == ToSim(es[j].msg);
    }
  }

  lemma InSims(q: QueueState, ready: seq<SimItem>, delayed: seq<SimItem>, i: nat)
    requires q.WellFormed() && Set(ready) == Sims(q.ready) && Set(delayed) == Sims(q.delayed) && i < |ready + delayed|
    ensures (ready + delayed)[i] in Sims(q.Held())
    ensures (ready + delayed)[i] in Sims(q.ready) <==> i < |ready|
  {
    SimsAreDisjoint(q);
    SimsUnion(q.ready, q.delayed);
    if i < |ready| {
      assert ready[i] in Set(ready);
    } else {
      assert delayed[i - |ready|] in Set(delayed);
    }
  }

  /** Above all it is so when there are none. */
  lemma UntiedIsOnlyReady(q: QueueState)
    requires Untied(Sims(q.Held()))
    ensures OnlyReadyTies(q)
  {
  }

  /** And there are none where Seqs are distinct. */
  lemma DistinctSeqsAreUntied(s: set<Entry>)
    requires DistinctIds(s) && DistinctSeqs(s)
    ensures Untied(Sims(s))
  {
    forall x, y | x in Sims(s) && y in Sims(s) && SameKey(x, y) ensures x == y {
      var a :| a in s && ToSim(a.msg) == x;
      var b :| b in s && ToSim(b.msg) == y;
      assert SameId(a, b);
    }
  }

  /** The labels of the prediction are then those of the engine's drain. */
  lemma LabelsAreTheEngines(s: ServiceState, now: Time, limit: int, mine: map<string, string>, labels: seq<string>, ms: seq<Message>)
    requires WholeSnapshot(s, now, limit)
    requires exists drain :: SnapshotDrains(s.Snapshot(now, limit).1, drain) && labels == LabelsOf(mine, drain)
    requires EngineDrains(s.Snapshot(now, limit).0.queue, now, ms)
    requires TiesInLine(s.queue.Held(), s.queue.mode, LineOf(s.Snapshot(now, limit).1))
    ensures labels == LabelsOf(mine, ToSims(ms))
    ensures exists at :: LabelsAt(mine, MessageIds(ms), labels, at)
  {
    var drain :| SnapshotDrains(s.Snapshot(now, limit).1, drain) && labels == LabelsOf(mine, drain);
    PredictionIsExactInLine(s, now, limit, drain, ms);
    var at := LabelsArePicked(mine, ToSims(ms));
    assert IdsOf(ToSims(ms)) == MessageIds(ms);
  }

  function MessageIds(ms: seq<Message>): (ids: seq<string>)
    ensures |ids| == |ms| && forall i :: 0 <= i < |ms| ==> ids[i] == ms[i].id
  {
    seq(|ms|, i requires 0 <= i < |ms| => ms[i].id)
  }

  // ---------- A prediction that fails ----------

  /** A last-in-first-out queue with two messages pushed in turn. */
  ghost function TwoPushed(a: Message, b: Message): QueueState {
    Empty(LIFO).Push(a).Push(b)
  }

  lemma TwoHeld(a: Message, b: Message)
    requires a.id != b.id
    ensures TwoPushed(a, b) == QueueState(LIFO, {}, {Entry(a, 0), Entry(b, 1)}, 2)
    ensures TwoPushed(a, b).WellFormed()
  {
    var q := Empty(LIFO).Push(a);
    assert q == QueueState(LIFO, {}, {Entry(a, 0)}, 1);
    assert !q.Holds(b.id);
  }

  /**
   * Two delayed messages of one priority, Seq and maturity in such a queue: the engine hands out the one
   * that arrived last, the prediction the one that arrived first.
   */
  lemma TiedPredictionFails(s: ServiceState, a: Message, b: Message, now: Time, out: seq<SimItem>, ms: seq<Message>)
    requires a.id != b.id && a.priority == b.priority && a.seqNo == b.seqNo && now < a.availableAt == b.availableAt
    requires s.queue == TwoPushed(a, b)
    requires SnapshotDrains(s.Snapshot(now, 0).1, out)
    requires EngineDrains(s.Snapshot(now, 0).0.queue, now, ms)
    ensures out != [] && ms != [] && out[0] == ToSim(a) && ms[0] == b && out != ToSims(ms)
  {
    TwoShown(s, a, b, now);
    PredictedFirst(s.Snapshot(now, 0).1, a, b, out);
    EngineFirst(s.queue, a, b, now, ms);
    assert ToSims(ms)[0] == ToSim(b) != ToSim(a);
  }

  lemma PredictedFirst(snap: QueueSnapshot, a: Message, b: Message, out: seq<SimItem>)
    requires a.id != b.id && a.priority == b.priority && a.seqNo == b.seqNo && snap.now < a.availableAt == b.availableAt
    requires IsViewOfTwo(snap, a, b) && SnapshotDrains(snap, out)
    ensures out != [] && out[0] == ToSim(a)
  {
    var x, y := ToSim(a), ToSim(b);
    PairWaits(ClientRule(LIFO, [x, y]), x, y, snap.now, out);
    ClientTakesFirst(x, y, out[0]);
  }

  lemma EngineFirst(q: QueueState, a: Message, b: Message, now: Time, ms: seq<Message>)
    requires a.id != b.id && a.priority == b.priority && a.seqNo == b.seqNo && now < a.availableAt == b.availableAt
    requires q == TwoPushed(a, b) && EngineDrains(q, now, ms)
    ensures ms != [] && ms[0] == b
  {
    TwoHeld(a, b);
    PairSims(a, b);
    EngineDrainIsDrain(q, q.Held(), now, ms);
    PairWaits(EngineRule(q.Held(), LIFO), ToSim(a), ToSim(b), now, ToSims(ms));
    EngineTakesLast(q.Held(), a, b, ToSims(ms)[0]);
    EngineHoldsOnly(q, a, b, now, ms);
  }

  ghost predicate IsViewOfTwo(snap: QueueSnapshot, a: Message, b: Message) {
    && snap.mode == LIFO && LineOf(snap) == [ToSim(a), ToSim(b)]
    && Set(ToSims(snap.ready.messages)) == {} && Set(ToSims(snap.delayed.messages)) == {ToSim(a), ToSim(b)}
  }

  /** The first message out is one of the two. */
  lemma EngineHoldsOnly(q: QueueState, a: Message, b: Message, now: Time, ms: seq<Message>)
    requires a.id != b.id && q == TwoPushed(a, b) && EngineDrains(q, now, ms) && ms != [] && now < a.availableAt && now < b.availableAt
    requires ToSim(ms[0]) == ToSim(b)
    ensures ms[0] == b
  {
    TwoHeld(a, b);
    var e := FirstOut(q, now, ms);
    assert e in {Entry(a, 0), Entry(b, 1)};
  }

  /** When nothing is ready the first message out is still one of those held. */
  lemma {:induction false} FirstOut(q: QueueState, t: Time, ms: seq<Message>) returns (e: Entry)
    requires q.WellFormed() && EngineDrains(q, t, ms) && ms != []
    ensures e in q.Held() && e.msg == ms[0]
    decreases if q.Promote(t).ready == {} then 1 else 0
  {
    PopOfPromoted(q, t);
    HeldAfterPop(q, t);
    var q' := q.Pop(t).0;
    if q.Promote(t).ready != {} {
      e :| IsFirst(BySelection(q.mode), q.Promote(t).ready, e) && q.Pop(t).1 == Some(e.msg) && q'.ready == q.Promote(t).ready - {e};
    } else {
      var f :| IsFirst(ByMaturity, q'.delayed, f) && JumpIsUseful(q, t, f) && EngineDrains(q', f.msg.availableAt, ms);
      e := FirstOut(q', f.msg.availableAt, ms);
    }
  }

  lemma TwoShown(s: ServiceState, a: Message, b: Message, now: Time)
    requires a.id != b.id && now < a.availableAt == b.availableAt && s.queue == TwoPushed(a, b)
    ensures var (s', snap) := s.Snapshot(now, 0);
            s'.queue == s.queue && snap.now == now && IsViewOfTwo(snap, a, b)
  {
    TwoHeld(a, b);
    TwoListed(a, b);
    NothingPromoted(s.queue, a, b, now);
    var snap := s.Snapshot(now, 0).1;
    TwoInLine(snap, a, b);
  }

  lemma NothingPromoted(q: QueueState, a: Message, b: Message, now: Time)
    requires q == QueueState(LIFO, {}, {Entry(a, 0), Entry(b, 1)}, 2) && now < a.availableAt && now < b.availableAt
    ensures q.Promote(now) == q
  {
    assert Due(q.delayed, now) == {};
  }

  lemma TwoInLine(snap: QueueSnapshot, a: Message, b: Message)
    requires snap.mode == LIFO && a.availableAt == b.availableAt
    requires snap.ready.messages == [] && snap.delayed.messages == Messages([Entry(a, 0), Entry(b, 1)])
    ensures IsViewOfTwo(snap, a, b)
  {
    var line := ToSims(snap.delayed.messages);
    assert line == [ToSim(a), ToSim(b)];
    SortedStays(Matures, line);
    assert ToSims(snap.ready.messages) == [];
  }

  lemma TwoListed(a: Message, b: Message)
    requires a.id != b.id && a.availableAt == b.availableAt
    ensures InOrder(ByMaturity, {Entry(a, 0), Entry(b, 1)}) == [Entry(a, 0), Entry(b, 1)]
    ensures Messages(InOrder(BySelection(LIFO), {})) == []
  {
    AscendingIsInOrder(ByMaturity, [Entry(a, 0), Entry(b, 1)], {Entry(a, 0), Entry(b, 1)});
  }

  lemma PairSims(a: Message, b: Message)
    ensures Sims({Entry(a, 0), Entry(b, 1)}) == {ToSim(a), ToSim(b)} && Sims({}) == {}
  {
    assert Entry(a, 0).msg == a && Entry(b, 1).msg == b;
  }

  lemma PairWaits(before: Precedence, x: SimItem, y: SimItem, t: Time, out: seq<SimItem>)
    requires t < x.availableAt == y.availableAt && Drains(before, {}, {x, y}, t, out)
    ensures out != [] && IsNext(before, {x, y}, out[0])
  {
    var d := {x, y};
    assert Ripe(d, t) == {} && {} + Ripe(d, t) == {} && d - Ripe(d, t) == d;
    var u :| IsSoonest(d, u) && Ripe(d, u) != {} && Drains(before, {}, d, u, out);
    assert x in d && u == x.availableAt;
    assert {} + Ripe(d, u) == d;
  }

  lemma ClientTakesFirst(x: SimItem, y: SimItem, z: SimItem)
    requires x != y && SameKey(x, y) && IsNext(ClientRule(LIFO, [x, y]), {x, y}, z)
    ensures z == x
  {
    assert !Earlier([x, y], y, x);
  }

  lemma EngineTakesLast(held: set<Entry>, a: Message, b: Message, z: SimItem)
    requires held == {Entry(a, 0), Entry(b, 1)} && a.id != b.id && SameKey(ToSim(a), ToSim(b))
    requires IsNext(EngineRule(held, LIFO), {ToSim(a), ToSim(b)}, z)
    ensures z == ToSim(b)
  {
    assert Before(BySelection(LIFO), Entry(b, 1), Entry(a, 0));
    TwoHeld(a, b);
    NotTheOtherWay(held, LIFO, Entry(b, 1), Entry(a, 0));
  }
}
