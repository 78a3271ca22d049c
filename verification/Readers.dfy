/**
 * Interleavings under the RWMutex (pkg/service/queue_service.go:95-211). Readers hold the read lock
 * together and each of their steps is separate, so the engine may be given instants out of order
 * (pkg/engine/queue.go:156-159); a writer holds the lock alone.
 */
module Readers {
  import opened Model
  import opened Selection
  import opened Scheduling

  datatype Reader =
    | Locked                            // holds the read lock
    | Read(now: Time)                   // has read the clock
    | Counted(now: Time, total: nat)    // has asked the engine for its length

  datatype Writer = Absent | Alone | Timed(now: Time)

  /** maxSeen is the latest instant the engine was ever given. */
  datatype World = World(queue: QueueState, clock: Time, maxSeen: Time, readers: map<nat, Reader>, writer: Writer)

  datatype Step =
    | Tick(clock: Time)
    | RLock(r: nat)
    | ReadClock(r: nat)
    | Len(r: nat)                       // first engine call of Stats
    | AnswerStats(r: nat)              // second engine call of Stats, and its answer
    | AnswerSnapshot(r: nat, limit: int) // the engine call of Snapshot, and its answer
    | Lock
    | WriterReadsClock
    | Insert(m: Message)                // the memory step of Enqueue
    | Take                              // the engine call of Dequeue, and its answer
    | Unlock

  datatype Answer = Silence | StatsAnswer(stats: QueueStats) | ViewAnswer(view: View) | PopAnswer(r: Option<Message>)

  ghost predicate Enabled(w: World, s: Step) {
    match s
    case Tick(clock) => w.clock <= clock
    case RLock(r) => w.writer == Absent && r !in w.readers
    case ReadClock(r) => r in w.readers && w.readers[r] == Locked
    case Len(r) => r in w.readers && w.readers[r].Read?
    case AnswerStats(r) => r in w.readers && w.readers[r].Counted?
    case AnswerSnapshot(r, _) => r in w.readers && w.readers[r].Read?
    case Lock => w.writer == Absent && w.readers == map[]
    case WriterReadsClock => w.writer == Alone
    case Insert(_) => w.writer.Timed?
    case Take => w.writer.Timed?
    case Unlock => w.writer != Absent
  }

  function Later(a: Time, b: Time): Time {
    if a < b then b else a
  }

  ghost function Next(w: World, s: Step): (World, Answer)
    requires Enabled(w, s)
  {
    match s
    case Tick(clock) => (w.(clock := clock), Silence)
    case RLock(r) => (w.(readers := w.readers[r := Locked]), Silence)
    case ReadClock(r) => (w.(readers := w.readers[r := Read(w.clock)]), Silence)
    case Len(r) => (w.(readers := w.readers[r := Counted(w.readers[r].now, |w.queue.Held()|)]), Silence)
    case AnswerStats(r) =>
      var q := w.queue.Promote(w.readers[r].now);
      var total := w.readers[r].total;
      (w.(queue := q, maxSeen := Later(w.maxSeen, w.readers[r].now), readers := w.readers - {r}),
       StatsAnswer(QueueStats(total, |q.ready|, total - |q.ready|)))
    case AnswerSnapshot(r, limit) =>
      var (q, view) := w.queue.Snapshot(w.readers[r].now, limit);
      (w.(queue := q, maxSeen := Later(w.maxSeen, w.readers[r].now), readers := w.readers - {r}), ViewAnswer(view))
    case Lock => (w.(writer := Alone), Silence)
    case WriterReadsClock => (w.(writer := Timed(w.clock)), Silence)
    case Insert(m) => (w.(queue := w.queue.Push(m)), Silence)
    case Take =>
      var (q, r) := w.queue.Pop(w.writer.now);
      (w.(queue := q, maxSeen := Later(w.maxSeen, w.writer.now)), PopAnswer(r))
    case Unlock => (w.(writer := Absent), Silence)
  }

  ghost predicate ReaderOk(w: World, reader: Reader) {
    match reader
    case Locked => true
    case Read(now) => SeenBy(w, now)
    case Counted(now, total) => SeenBy(w, now) && total == |w.queue.Held()|
  }

  /** Nothing the engine was given runs ahead of `now`, or else it left nothing due behind. */
  ghost predicate SeenBy(w: World, now: Time) {
    now <= w.clock && (w.maxSeen <= now || Due(w.queue.delayed, w.maxSeen) == {})
  }

  ghost predicate Inv(w: World) {
    && w.queue.WellFormed() && w.queue.PromotedBy(w.maxSeen) && w.maxSeen <= w.clock
    && (w.writer != Absent ==> w.readers == map[])
    && (w.writer.Timed? ==> w.maxSeen <= w.writer.now <= w.clock)
    && (forall r :: r in w.readers ==> ReaderOk(w, w.readers[r]))
  }

  // ---------- What the answers mean ----------

  /** The instant a reader's answer is exact for: its own, or a later one the engine has been given. */
  function AnswerInstant(w: World, now: Time): Time {
    Later(w.maxSeen, now)
  }

  /**
   * Stats and Snapshot answer exactly as of one instant between the reader's own clock reading and
   * the time of the answer; Dequeue answers exactly as of the writer's clock reading.
   */
  ghost predicate AnswerOk(w: World, s: Step)
    requires Enabled(w, s)
  {
    var held := w.queue.Held();
    match s
    case AnswerStats(r) =>
      var t := AnswerInstant(w, w.readers[r].now);
      var stats := Next(w, s).1.stats;
      && w.readers[r].now <= t <= w.clock
      && stats.total == |held| && stats.available == |Due(held, t)|
      && stats.delayed == |held - Due(held, t)|
      && 0 <= stats.available <= stats.total && stats.available + stats.delayed == stats.total
    case AnswerSnapshot(r, limit) =>
      var t := AnswerInstant(w, w.readers[r].now);
      var view := Next(w, s).1.view;
      && w.readers[r].now <= t <= w.clock
      && view == View(Cut(InOrder(BySelection(w.queue.mode), Due(held, t)), limit),
                      Cut(InOrder(ByMaturity, held - Due(held, t)), limit),
                      |Due(held, t)|, |held - Due(held, t)|)
    case Take =>
      var now := w.writer.now;
      (match Next(w, s).1.r
       case None => Due(held, now) == {}
       case Some(m) =>
         && m.availableAt <= now <= w.clock
         && exists e :: IsFirst(BySelection(w.queue.mode), Due(held, now), e) && e.msg == m)
    case _ => true
  }

  /** A promotion for a reader, in whatever order instants arrive, leaves exactly what is due at its instant. */
  lemma PromoteForReader(w: World, now: Time)
    requires w.queue.WellFormed() && w.queue.PromotedBy(w.maxSeen) && SeenBy(w, now)
    ensures var (q, t) := (w.queue.Promote(now), AnswerInstant(w, now));
            && q.WellFormed() && q.PromotedBy(t) && q.Held() == w.queue.Held() && q.mode == w.queue.mode
            && q.ready == Due(w.queue.Held(), t) && q.delayed == w.queue.Held() - Due(w.queue.Held(), t)
            && Due(q.delayed, t) == {}
  {
    PromoteKeepsWellFormed(w.queue, now);
    var (q, t) := (w.queue.Promote(now), AnswerInstant(w, now));
    forall e | e in w.queue.Held() ensures e in q.ready <==> e.msg.Available(t) {
      assert e in Due(w.queue.delayed, w.maxSeen) <==> e in w.queue.delayed && e.msg.Available(w.maxSeen);
    }
  }

  /** The other readers keep their guarantee when one is answered. */
  lemma OthersStayOk(w: World, w': World, now: Time)
    requires w.queue.WellFormed() && w.queue.PromotedBy(w.maxSeen) && SeenBy(w, now)
    requires w'.queue == w.queue.Promote(now) && w'.maxSeen == Later(w.maxSeen, now) && w'.clock == w.clock
    requires forall r :: r in w'.readers ==> r in w.readers && w'.readers[r] == w.readers[r]
    requires forall r :: r in w.readers ==> ReaderOk(w, w.readers[r])
    ensures forall r :: r in w'.readers ==> ReaderOk(w', w'.readers[r])
  {
    PromoteForReader(w, now);
  }

  lemma PopIsExact(w: World)
    requires Inv(w) && w.writer.Timed?
    ensures AnswerOk(w, Take) && Inv(Next(w, Take).0)
  {
    PopTakesTheFirst(w.queue, w.maxSeen, w.writer.now);
    PopKeepsWellFormed(w.queue, w.writer.now);
    PromoteSplitsByAvailability(w.queue, w.maxSeen, w.writer.now);
  }

  lemma StatsIsExact(w: World, r: nat)
    requires Inv(w) && Enabled(w, AnswerStats(r))
    ensures AnswerOk(w, AnswerStats(r)) && Inv(Next(w, AnswerStats(r)).0)
  {
    var now := w.readers[r].now;
    PromoteForReader(w, now);
    var held, t := w.queue.Held(), AnswerInstant(w, now);
    assert |held - Due(held, t)| == |held| - |Due(held, t)|;
    OthersStayOk(w, Next(w, AnswerStats(r)).0, now);
  }

  lemma SnapshotIsExact(w: World, r: nat, limit: int)
    requires Inv(w) && Enabled(w, AnswerSnapshot(r, limit))
    ensures AnswerOk(w, AnswerSnapshot(r, limit)) && Inv(Next(w, AnswerSnapshot(r, limit)).0)
  {
    var now := w.readers[r].now;
    PromoteForReader(w, now);
    OthersStayOk(w, Next(w, AnswerSnapshot(r, limit)).0, now);
  }

  lemma StepIsSafe(w: World, s: Step)
    requires Inv(w) && Enabled(w, s)
    ensures AnswerOk(w, s) && Inv(Next(w, s).0)
  {
    match s
    case AnswerStats(r) => StatsIsExact(w, r);
    case AnswerSnapshot(r, limit) => SnapshotIsExact(w, r, limit);
    case Take => PopIsExact(w);
    case Insert(m) => PushKeepsWellFormed(w.queue, m);
    case _ =>
  }

  // ---------- All interleavings ----------

  ghost predicate Runs(w: World, steps: seq<Step>)
    decreases |steps|
  {
    steps == [] || (Enabled(w, steps[0]) && Runs(Next(w, steps[0]).0, steps[1..]))
  }

  ghost predicate AllAnswersOk(w: World, steps: seq<Step>)
    requires Runs(w, steps)
    decreases |steps|
  {
    steps == [] || (AnswerOk(w, steps[0]) && AllAnswersOk(Next(w, steps[0]).0, steps[1..]))
  }

  /**
   * In every interleaving under a non-decreasing clock, every answer is exact for its instant; in
   * particular no message is handed out before it is available.
   */
  lemma {:induction false} EveryInterleavingIsSafe(w: World, steps: seq<Step>)
    requires Inv(w) && Runs(w, steps)
    ensures AllAnswersOk(w, steps)
    decreases |steps|
  {
    if steps != [] {
      StepIsSafe(w, steps[0]);
      EveryInterleavingIsSafe(Next(w, steps[0]).0, steps[1..]);
    }
  }

  /** A service just opened, at any instant. */
  lemma OpenedIsOk(q: QueueState, clock: Time)
    requires q.WellFormed() && q.ready == {}
    ensures Inv(World(q, clock, clock, map[], Absent))
  {
  }

  /**
   * A reader's count is also exact for its own clock reading precisely when nothing held became
   * available between that reading and the latest instant the engine was given.
   */
  lemma CountIsOwnInstantIff(w: World, r: nat)
    requires Inv(w) && Enabled(w, AnswerStats(r))
    ensures var (held, now) := (w.queue.Held(), w.readers[r].now);
            Next(w, AnswerStats(r)).1.stats.available == |Due(held, now)|
            <==> forall e :: e in held ==> !(now < e.msg.availableAt <= w.maxSeen)
  {
    var held, now := w.queue.Held(), w.readers[r].now;
    var t := AnswerInstant(w, now);
    PromoteForReader(w, now);
    assert Due(held, now) <= Due(held, t);
    if e :| e in held && now < e.msg.availableAt <= w.maxSeen {
      assert Due(held, now) < Due(held, t) by {
        assert e in Due(held, t) && e !in Due(held, now);
      }
      ProperSubsetIsSmaller(Due(held, now), Due(held, t));
    } else {
      assert Due(held, now) == Due(held, t);
    }
  }

  /** What an engine with these messages shows at an instant. */
  ghost function ViewAt(mode: Mode, held: set<Entry>, now: Time, limit: int): View {
    View(Cut(InOrder(BySelection(mode), Due(held, now)), limit),
         Cut(InOrder(ByMaturity, held - Due(held, now)), limit),
         |Due(held, now)|, |held - Due(held, now)|)
  }

  /**
   * Snapshot hands out its own clock reading beside the lists. They belong together, and so does each of
   * the two lengths, under the same condition.
   */
  lemma SnapshotIsOwnInstantIff(w: World, r: nat, limit: int)
    requires Inv(w) && Enabled(w, AnswerSnapshot(r, limit))
    ensures var (held, now) := (w.queue.Held(), w.readers[r].now);
            var view := Next(w, AnswerSnapshot(r, limit)).1.view;
            var nothingMatured := forall e :: e in held ==> !(now < e.msg.availableAt <= w.maxSeen);
            && (view.readyLen == |Due(held, now)| <==> nothingMatured)
            && (view.delayedLen == |held - Due(held, now)| <==> nothingMatured)
            && (view == ViewAt(w.queue.mode, held, now, limit) <==> nothingMatured)
  {
    var held, now := w.queue.Held(), w.readers[r].now;
    var t := AnswerInstant(w, now);
    SnapshotIsExact(w, r, limit);
    assert Due(held, now) <= Due(held, t);
    DueCounts(held, now);
    DueCounts(held, t);
    if e :| e in held && now < e.msg.availableAt <= w.maxSeen {
      assert e in Due(held, t) && e !in Due(held, now);
      ProperSubsetIsSmaller(Due(held, now), Due(held, t));
    } else {
      assert Due(held, now) == Due(held, t);
    }
  }

  lemma DueCounts(held: set<Entry>, now: Time)
    ensures |held - Due(held, now)| == |held| - |Due(held, now)|
  {
  }

  lemma ProperSubsetIsSmaller(a: set<Entry>, b: set<Entry>)
    requires a < b
    ensures |a| < |b|
  {
    assert |b - a| > 0 && b == a + (b - a);
  }

  ghost function After(w: World, steps: seq<Step>): World
    requires Runs(w, steps)
    decreases |steps|
  {
    if steps == [] then w else After(Next(w, steps[0]).0, steps[1..])
  }

  lemma RunsOn(w: World, s: Step, rest: seq<Step>)
    requires Enabled(w, s) && Runs(Next(w, s).0, rest)
    ensures Runs(w, [s] + rest) && After(w, [s] + rest) == After(Next(w, s).0, rest)
  {
    assert ([s] + rest)[1..] == rest;
  }

  /** A service over a queue that holds only m, still delayed, at the last instant before m is available. */
  ghost function AlmostDue(mode: Mode, m: Message): World {
    World(Empty(mode).Push(m), m.availableAt - 1, m.availableAt - 1, map[], Absent)
  }

  /**
   * Two readers can give the engine their instants out of order. From a service just opened, the
   * first one reads the clock while the only message is still delayed; the clock moves on and the
   * second is answered; then the first counts the message as available.
   */
  lemma AReaderCanBeOvertaken(mode: Mode, m: Message) returns (steps: seq<Step>)
    ensures Inv(AlmostDue(mode, m)) && Runs(AlmostDue(mode, m), steps)
    ensures var w := After(AlmostDue(mode, m), steps);
            && w.queue.Held() == {Entry(m, 0)}
            && Enabled(w, AnswerStats(0)) && !m.Available(w.readers[0].now)
            && Next(w, AnswerStats(0)).1.stats == QueueStats(1, 1, 0)
  {
    var start := AlmostDue(mode, m);
    OneHeld(mode, m);
    OpenedIsOk(start.queue, start.clock);
    var w1 := Next(start, RLock(0)).0;
    var w2 := Next(w1, ReadClock(0)).0;
    var w3 := Next(w2, Len(0)).0;
    var rest := Overtakes(m, w3);
    RunsOn(w2, Len(0), rest);
    RunsOn(w1, ReadClock(0), [Len(0)] + rest);
    RunsOn(start, RLock(0), [ReadClock(0)] + ([Len(0)] + rest));
    steps := [RLock(0)] + ([ReadClock(0)] + ([Len(0)] + rest));
  }

  lemma OneHeld(mode: Mode, m: Message)
    ensures Empty(mode).Push(m) == QueueState(mode, {}, {Entry(m, 0)}, 1)
    ensures |{Entry(m, 0)}| == 1
  {
  }

  /** The second reader, while the first waits between its two calls of the engine. */
  lemma Overtakes(m: Message, w: World) returns (steps: seq<Step>)
    requires w.queue.ready == {} && w.queue.delayed == {Entry(m, 0)} && w.writer == Absent
    requires w.clock == m.availableAt - 1 && w.readers == map[0 := Counted(m.availableAt - 1, 1)]
    ensures Runs(w, steps)
    ensures var w' := After(w, steps);
            && w'.queue.Held() == {Entry(m, 0)}
            && w'.readers == w.readers && Next(w', AnswerStats(0)).1.stats == QueueStats(1, 1, 0)
  {
    var w1 := Next(w, Tick(m.availableAt)).0;
    var w2 := Next(w1, RLock(1)).0;
    var w3 := Next(w2, ReadClock(1)).0;
    var w4 := Next(w3, Len(1)).0;
    RunsOn(w4, AnswerStats(1), []);
    RunsOn(w3, Len(1), [AnswerStats(1)] + []);
    RunsOn(w2, ReadClock(1), [Len(1)] + ([AnswerStats(1)] + []));
    RunsOn(w1, RLock(1), [ReadClock(1)] + ([Len(1)] + ([AnswerStats(1)] + [])));
    steps := [Tick(m.availableAt)] + ([RLock(1)] + ([ReadClock(1)] + ([Len(1)] + ([AnswerStats(1)] + []))));
    RunsOn(w, Tick(m.availableAt), [RLock(1)] + ([ReadClock(1)] + ([Len(1)] + ([AnswerStats(1)] + []))));
    CountedEarly(m, w4);
  }

  lemma CountedEarly(m: Message, w: World)
    requires w.queue.ready == {} && w.queue.delayed == {Entry(m, 0)}
    requires 0 in w.readers && w.readers[0] == Counted(m.availableAt - 1, 1)
    requires 1 in w.readers && w.readers[1].Counted? && w.readers[1].now == m.availableAt
    ensures var w' := Next(w, AnswerStats(1)).0;
            && w'.queue.Held() == {Entry(m, 0)} && w'.readers == w.readers - {1}
            && Next(w', AnswerStats(0)).1.stats == QueueStats(1, 1, 0)
  {
    var w' := Next(w, AnswerStats(1)).0;
    assert w'.queue.ready == {Entry(m, 0)} && w'.queue.delayed == {};
    assert |{Entry(m, 0)}| == 1;
  }
}
