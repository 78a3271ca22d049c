/**
 * A service in step with its log, and the one rebuilt from that log, answer every later run alike, up to
 * an order-preserving renaming of Seqs (pkg/service/queue_service.go:50-150), although heap layout,
 * promotion state, arrival counters and the next Seq may all differ.
 */
module Bisimulation {
  import opened Model
  import opened Selection
  import opened Scheduling
  import opened Codec
  import opened Replay
  import opened Log
  import opened Wal
  import opened Service
  import opened Durability

  // ---------- Renaming Seqs ----------

  type Renaming = map<nat, nat>

  ghost predicate OrderPreserving(f: Renaming) {
    forall i, j :: i in f && j in f && i < j ==> f[i] < f[j]
  }

  ghost predicate Extends(f: Renaming, g: Renaming) {
    forall i :: i in f ==> i in g && g[i] == f[i]
  }

  ghost predicate IsIdentity(f: Renaming) {
    forall i :: i in f ==> f[i] == i
  }

  function Rename(f: Renaming, m: Message): Message {
    if m.seqNo in f then m.(seqNo := f[m.seqNo]) else m
  }

  // ---------- Runs ----------

  datatype Op =
    | Enqueue(req: EnqueueRequest, id: string, now: Time, ts: Time, o: Outcome)
    | Dequeue(now: Time, ts: Time, o: Outcome)
    | Count(now: Time)
    | Look(now: Time, limit: int)

  datatype Answer =
    | Enqueued(e: Result<Message, ServiceError>)
    | Dequeued(d: Result<Option<Message>, ServiceError>)
    | Counted(stats: QueueStats)
    | Looked(stats: QueueStats, ready: Page, waiting: set<Message>)

  function Listed(ms: seq<Message>): set<Message> {
    set m | m in ms
  }

  /**
   * Count is Stats. Look is Snapshot: its counts, its ready list within the limit, and which messages the
   * whole delayed list has; among those of equal maturity the order of that list is by arrival.
   */
  ghost function Step(c: RecordCodec, s: ServiceState, op: Op): (ServiceState, Answer) {
    match op
    case Enqueue(req, id, now, ts, o) => var (s', r) := s.Enqueue(c, req, id, now, ts, o); (s', Enqueued(r))
    case Dequeue(now, ts, o) => var (s', r) := s.Dequeue(c, now, ts, o); (s', Dequeued(r))
    case Count(now) => var (s', stats) := s.Stats(now); (s', Counted(stats))
    case Look(now, limit) =>
      var (s', snap) := s.Snapshot(now, limit);
      (s', Looked(snap.stats, snap.ready, Listed(s.Snapshot(now, 0).1.delayed.messages)))
  }

  ghost function Answers(c: RecordCodec, s: ServiceState, ops: seq<Op>): seq<Answer>
    decreases |ops|
  {
    if ops == [] then [] else [Step(c, s, ops[0]).1] + Answers(c, Step(c, s, ops[0]).0, ops[1..])
  }

  ghost predicate ClockRuns(ops: seq<Op>, clock: Time) {
    ops == [] || (clock <= ops[0].now && ClockRuns(ops[1..], ops[0].now))
  }

  function RenameAll(f: Renaming, ms: seq<Message>): (rs: seq<Message>)
    ensures |rs| == |ms|
    ensures forall i :: 0 <= i < |ms| ==> rs[i] == Rename(f, ms[i])
  {
    seq(|ms|, i requires 0 <= i < |ms| => Rename(f, ms[i]))
  }

  function RenameEach(f: Renaming, ms: set<Message>): set<Message> {
    set m | m in ms :: Rename(f, m)
  }

  function RenameAnswer(f: Renaming, a: Answer): Answer {
    match a
    case Enqueued(Ok(m)) => Enqueued(Ok(Rename(f, m)))
    case Dequeued(Ok(Some(m))) => Dequeued(Ok(Some(Rename(f, m))))
    case Looked(stats, ready, waiting) =>
      Looked(stats, Page(RenameAll(f, ready.messages), ready.truncated), RenameEach(f, waiting))
    case _ => a
  }

  // ---------- The relation ----------

  /** The messages of q' are those of q with their Seqs renamed. */
  ghost predicate RenamedTo(f: Renaming, q: QueueState, q': QueueState) {
    && (forall e :: e in q.Held() ==> e.msg.seqNo in f && HoldsMessage(q', Rename(f, e.msg)))
    && (forall e' :: e' in q'.Held() ==> exists e :: e in q.Held() && e'.msg == Rename(f, e.msg))
  }

  ghost predicate HoldsMessage(q: QueueState, m: Message) {
    exists e :: e in q.Held() && e.msg == m
  }

  ghost predicate QueuesAlike(f: Renaming, q: QueueState, q': QueueState) {
    && q.mode == q'.mode
    && q.WellFormed() && q'.WellFormed()
    && OrderPreserving(f)
    && DistinctSeqs(q.Held())
    && RenamedTo(f, q, q')
  }

  ghost predicate Alike(f: Renaming, s: ServiceState, s': ServiceState, clock: Time) {
    && !s.closed && !s'.closed && s.wal.open && s'.wal.open
    && QueuesAlike(f, s.queue, s'.queue)
    && s.queue.PromotedBy(clock) && s'.queue.PromotedBy(clock)
    && Below(f, s.seqNo, s'.seqNo)
  }

  // ---------- Steps ----------

  lemma HoldsAlike(f: Renaming, q: QueueState, q': QueueState, id: string)
    requires RenamedTo(f, q, q')
    ensures q.Holds(id) <==> q'.Holds(id)
  {
    if q.Holds(id) {
      var e := q.Lookup(id);
      assert HoldsMessage(q', Rename(f, e.msg));
    }
    if q'.Holds(id) {
      var e' := q'.Lookup(id);
      var e :| e in q.Held() && e'.msg == Rename(f, e.msg);
    }
  }

  lemma PromoteStaysAlike(f: Renaming, q: QueueState, q': QueueState, now: Time)
    requires QueuesAlike(f, q, q')
    ensures QueuesAlike(f, q.Promote(now), q'.Promote(now))
  {
    PromoteKeepsWellFormed(q, now);
    PromoteKeepsWellFormed(q', now);
  }

  /** Of two distinct available entries the renamed ones come in the same order. */
  lemma BeforeIsRenamed(mode: Mode, f: Renaming, a: Entry, b: Entry, a': Entry, b': Entry)
    requires OrderPreserving(f) && a.msg.seqNo in f && b.msg.seqNo in f
    requires a.msg.seqNo != b.msg.seqNo
    requires a'.msg == Rename(f, a.msg) && b'.msg == Rename(f, b.msg)
    requires Before(BySelection(mode), a, b)
    ensures Before(BySelection(mode), a', b')
  {
  }

  lemma BestIsRenamed(f: Renaming, q: QueueState, q': QueueState, now: Time, e: Entry) returns (e': Entry)
    requires QueuesAlike(f, q, q')
    requires IsFirst(BySelection(q.mode), Due(q.Held(), now), e)
    ensures IsFirst(BySelection(q.mode), Due(q'.Held(), now), e') && e'.msg == Rename(f, e.msg)
  {
    assert e in q.Held();
    assert HoldsMessage(q', Rename(f, e.msg));
    e' :| e' in q'.Held() && e'.msg == Rename(f, e.msg);
    forall x' | x' in Due(q'.Held(), now) && x' != e' ensures Before(BySelection(q.mode), e', x') {
      var x :| x in q.Held() && x'.msg == Rename(f, x.msg);
      assert x in Due(q.Held(), now);
      assert !SameId(x', e') && !SameId(x, e);
      BeforeIsRenamed(q.mode, f, e, x, e', x');
    }
  }

  /** Everything available is promoted and nothing else. */
  ghost predicate SplitAt(q: QueueState, now: Time) {
    q.WellFormed() && q.ready == Due(q.Held(), now) && q.Promote(now) == q
  }

  lemma PromotedIsSplit(q: QueueState, clock: Time, now: Time)
    requires q.WellFormed() && q.PromotedBy(clock) && clock <= now
    ensures SplitAt(q.Promote(now), now) && q.Pop(now) == q.Promote(now).Pop(now)
  {
    PromoteSplitsByAvailability(q, clock, now);
    PromoteIsIdempotent(q, now);
  }

  /** What Pop(now) does to a queue that is already split. */
  lemma PopOfSplit(q: QueueState, now: Time)
    requires SplitAt(q, now)
    ensures var (p, r) := q.Pop(now);
            && p.WellFormed() && p.PromotedBy(now) && p.mode == q.mode
            && (Due(q.Held(), now) == {} ==> (p, r) == (q, None))
            && (Due(q.Held(), now) != {} ==>
                  exists e :: IsFirst(BySelection(q.mode), Due(q.Held(), now), e)
                              && r == Some(e.msg) && p.Held() == q.Held() - {e})
  {
    PopKeepsWellFormed(q, now);
    FirstOfNonEmpty(BySelection(q.mode), q.ready);
    if q.ready != {} {
      var e := First(BySelection(q.mode), q.ready).value;
      assert q.Pop(now).0.Held() == q.Held() - {e};
    }
  }

  lemma PopOfSplitIsRenamed(f: Renaming, q: QueueState, q': QueueState, now: Time)
    requires QueuesAlike(f, q, q') && SplitAt(q, now) && SplitAt(q', now)
    ensures var ((p, r), (p', r')) := (q.Pop(now), q'.Pop(now));
            && QueuesAlike(f, p, p')
            && (r == None <==> r' == None)
            && (r.Some? ==> r.value.seqNo in f && r' == Some(Rename(f, r.value)))
  {
    PopOfSplit(q, now);
    PopOfSplit(q', now);
    if Due(q.Held(), now) == {} {
      NothingDueIsRenamed(f, q, q', now);
    } else {
      var rule := BySelection(q.mode);
      var e :| IsFirst(rule, Due(q.Held(), now), e) && q.Pop(now).1 == Some(e.msg) && q.Pop(now).0.Held() == q.Held() - {e};
      var e' := BestIsRenamed(f, q, q', now, e);
      assert e' in Due(q'.Held(), now);
      var x' :| IsFirst(rule, Due(q'.Held(), now), x') && q'.Pop(now).1 == Some(x'.msg) && q'.Pop(now).0.Held() == q'.Held() - {x'};
      FirstIsUnique(rule, Due(q'.Held(), now), e', x');
      TakenStaysRenamed(f, q, q', q.Pop(now).0, q'.Pop(now).0, e, e');
    }
  }

  lemma PopIsRenamed(f: Renaming, q: QueueState, q': QueueState, clock: Time, now: Time)
    requires QueuesAlike(f, q, q') && q.PromotedBy(clock) && q'.PromotedBy(clock) && clock <= now
    ensures var ((p, r), (p', r')) := (q.Pop(now), q'.Pop(now));
            && QueuesAlike(f, p, p') && p.PromotedBy(now) && p'.PromotedBy(now)
            && (r == None <==> r' == None)
            && (r.Some? ==> r.value.seqNo in f && r' == Some(Rename(f, r.value)))
  {
    PromotedIsSplit(q, clock, now);
    PromotedIsSplit(q', clock, now);
    PromoteStaysAlike(f, q, q', now);
    PopOfSplit(q.Promote(now), now);
    PopOfSplit(q'.Promote(now), now);
    PopOfSplitIsRenamed(f, q.Promote(now), q'.Promote(now), now);
  }

  lemma NothingDueIsRenamed(f: Renaming, q: QueueState, q': QueueState, now: Time)
    requires RenamedTo(f, q, q') && Due(q.Held(), now) == {}
    ensures Due(q'.Held(), now) == {}
  {
    forall x' | x' in q'.Held() ensures !x'.msg.Available(now) {
      var x :| x in q.Held() && x'.msg == Rename(f, x.msg);
      assert x !in Due(q.Held(), now);
    }
  }

  lemma TakenStaysRenamed(f: Renaming, q: QueueState, q': QueueState, p: QueueState, p': QueueState, e: Entry, e': Entry)
    requires QueuesAlike(f, q, q')
    requires e in q.Held() && e' in q'.Held() && e'.msg == Rename(f, e.msg)
    requires p.Held() == q.Held() - {e} && p'.Held() == q'.Held() - {e'}
    ensures RenamedTo(f, p, p') && DistinctSeqs(p.Held())
  {
    forall x | x in p.Held() ensures HoldsMessage(p', Rename(f, x.msg)) {
      assert HoldsMessage(q', Rename(f, x.msg));
      var x' :| x' in q'.Held() && x'.msg == Rename(f, x.msg);
      assert !SameId(x, e);
      assert x' in p'.Held();
    }
    forall x' | x' in p'.Held() ensures exists x :: x in p.Held() && x'.msg == Rename(f, x.msg) {
      var x :| x in q.Held() && x'.msg == Rename(f, x.msg);
      assert !SameId(x', e');
      assert x in p.Held();
    }
  }

  /** Pushing a message and its renamed self, whose Seq is not yet taken, keeps the queues alike. */
  lemma PushStaysAlike(f: Renaming, q: QueueState, q': QueueState, m: Message)
    requires QueuesAlike(f, q, q') && m.seqNo in f
    requires forall e :: e in q.Held() ==> e.msg.seqNo != m.seqNo
    ensures QueuesAlike(f, q.Push(m), q'.Push(Rename(f, m)))
  {
    var m' := Rename(f, m);
    HoldsAlike(f, q, q', m.id);
    PushKeepsWellFormed(q, m);
    PushKeepsWellFormed(q', m');
    if !q.Holds(m.id) {
      var p, p' := q.Push(m), q'.Push(m');
      assert p.Held() == q.Held() + {Entry(m, q.nextOrder)};
      assert p'.Held() == q'.Held() + {Entry(m', q'.nextOrder)};
      forall x | x in p.Held() ensures x.msg.seqNo in f && HoldsMessage(p', Rename(f, x.msg)) {
        if x in q.Held() {
          assert HoldsMessage(q', Rename(f, x.msg));
          var x' :| x' in q'.Held() && x'.msg == Rename(f, x.msg);
          assert x' in p'.Held();
        } else {
          assert Entry(m', q'.nextOrder) in p'.Held();
        }
      }
      forall x' | x' in p'.Held() ensures exists x :: x in p.Held() && x'.msg == Rename(f, x.msg) {
        if x' in q'.Held() {
          var x :| x in q.Held() && x'.msg == Rename(f, x.msg);
          assert x in p.Held();
        } else {
          assert Entry(m, q.nextOrder) in p.Held();
        }
      }
    }
  }

  ghost predicate Below(f: Renaming, i: nat, j: nat) {
    forall k :: k in f ==> k <= i && f[k] <= j
  }

  lemma ExtendKeepsOrder(f: Renaming, i: nat, j: nat)
    requires OrderPreserving(f) && Below(f, i, j)
    ensures var g := f[i + 1 := j + 1];
            OrderPreserving(g) && Extends(f, g) && Below(g, i + 1, j + 1) && i + 1 !in f
  {
  }

  lemma ExtendKeepsRenamed(f: Renaming, g: Renaming, q: QueueState, q': QueueState)
    requires RenamedTo(f, q, q') && Extends(f, g)
    ensures RenamedTo(g, q, q')
  {
    forall e | e in q.Held() ensures HoldsMessage(q', Rename(g, e.msg)) {
      assert HoldsMessage(q', Rename(f, e.msg));
    }
    forall e' | e' in q'.Held() ensures exists e :: e in q.Held() && e'.msg == Rename(g, e.msg) {
      var e :| e in q.Held() && e'.msg == Rename(f, e.msg);
      assert e'.msg == Rename(g, e.msg);
    }
  }

  lemma FreshSeq(f: Renaming, q: QueueState, q': QueueState, i: nat)
    requires RenamedTo(f, q, q') && i !in f
    ensures forall e :: e in q.Held() ==> e.msg.seqNo != i
  {
  }

  lemma PushKeepsPromoted(q: QueueState, m: Message, clock: Time)
    requires q.PromotedBy(clock)
    ensures q.Push(m).PromotedBy(clock)
  {
  }

  lemma AcceptedStaysAlike(c: RecordCodec, f: Renaming, s: ServiceState, s': ServiceState, clock: Time,
                           req: EnqueueRequest, id: string, now: Time, ts: Time, o: Outcome)
    returns (g: Renaming)
    requires Alike(f, s, s', clock) && Refusal(req, id, o) == None
    ensures g == f[s.seqNo + 1 := s'.seqNo + 1] && Extends(f, g)
    ensures Alike(g, s.Enqueue(c, req, id, now, ts, o).0, s'.Enqueue(c, req, id, now, ts, o).0, clock)
  {
    EnqueueOutcome(c, s, req, id, now, ts, o);
    EnqueueOutcome(c, s', req, id, now, ts, o);
    var m := MakeMessage(req, id, now, s.seqNo + 1);
    g := f[s.seqNo + 1 := s'.seqNo + 1];
    ExtendKeepsOrder(f, s.seqNo, s'.seqNo);
    PushNewStaysAlike(f, g, s.queue, s'.queue, clock, m);
    assert Rename(g, m) == MakeMessage(req, id, now, s'.seqNo + 1);
  }

  lemma EnqueueStaysAlike(c: RecordCodec, f: Renaming, s: ServiceState, s': ServiceState, clock: Time,
                          req: EnqueueRequest, id: string, now: Time, ts: Time, o: Outcome)
    returns (g: Renaming)
    requires Alike(f, s, s', clock)
    ensures Alike(g, s.Enqueue(c, req, id, now, ts, o).0, s'.Enqueue(c, req, id, now, ts, o).0, clock)
    ensures if Refusal(req, id, o) == None then g == f[s.seqNo + 1 := s'.seqNo + 1] && Extends(f, g) else g == f
  {
    g := f;
    if Refusal(req, id, o) == None {
      g := AcceptedStaysAlike(c, f, s, s', clock, req, id, now, ts, o);
    } else {
      EnqueueOutcome(c, s, req, id, now, ts, o);
      EnqueueOutcome(c, s', req, id, now, ts, o);
    }
  }

  lemma EnqueueAnswersAlike(c: RecordCodec, f: Renaming, g: Renaming, s: ServiceState, s': ServiceState,
                            req: EnqueueRequest, id: string, now: Time, ts: Time, o: Outcome)
    requires !s.closed && !s'.closed && s.wal.open && s'.wal.open
    requires if Refusal(req, id, o) == None then g == f[s.seqNo + 1 := s'.seqNo + 1] && Extends(f, g) else g == f
    ensures var a := Enqueued(s.Enqueue(c, req, id, now, ts, o).1);
            Covered(g, a) && Enqueued(s'.Enqueue(c, req, id, now, ts, o).1) == RenameAnswer(g, a)
    ensures IsIdentity(f) && s.seqNo == s'.seqNo ==> IsIdentity(g)
    ensures s.seqNo == s'.seqNo ==>
              s.Enqueue(c, req, id, now, ts, o).0.seqNo == s'.Enqueue(c, req, id, now, ts, o).0.seqNo
  {
    EnqueueOutcome(c, s, req, id, now, ts, o);
    EnqueueOutcome(c, s', req, id, now, ts, o);
  }

  lemma ClockMayAdvance(f: Renaming, s: ServiceState, s': ServiceState, clock: Time, now: Time)
    requires Alike(f, s, s', clock) && clock <= now
    ensures Alike(f, s, s', now)
  {
  }

  /** Why an open service refuses an Enqueue; it depends on nothing it holds. */
  function Refusal(req: EnqueueRequest, id: string, o: Outcome): Option<ServiceError> {
    match req.Validate()
    case Some(why) => Some(Invalid(why))
    case None =>
      if id == "" then Some(LogError(EmptyId))
      else if o != Done then Some(LogError(AppendFailed))
      else None
  }

  lemma EnqueueOutcome(c: RecordCodec, s: ServiceState, req: EnqueueRequest, id: string, now: Time, ts: Time, o: Outcome)
    requires !s.closed && s.wal.open
    ensures var (t, r) := s.Enqueue(c, req, id, now, ts, o);
            && !t.closed && t.wal.open
            && match Refusal(req, id, o)
               case Some(e) => r == Err(e) && t.queue == s.queue && t.seqNo == s.seqNo
               case None =>
                 var m := MakeMessage(req, id, now, s.seqNo + 1);
                 r == Ok(m) && t.queue == s.queue.Push(m) && t.seqNo == s.seqNo + 1
  {
  }

  lemma PushNewStaysAlike(f: Renaming, g: Renaming, q: QueueState, q': QueueState, clock: Time, m: Message)
    requires QueuesAlike(f, q, q') && q.PromotedBy(clock) && q'.PromotedBy(clock)
    requires OrderPreserving(g) && Extends(f, g) && m.seqNo !in f && m.seqNo in g
    ensures QueuesAlike(g, q.Push(m), q'.Push(Rename(g, m)))
    ensures q.Push(m).PromotedBy(clock) && q'.Push(Rename(g, m)).PromotedBy(clock)
  {
    ExtendKeepsRenamed(f, g, q, q');
    FreshSeq(f, q, q', m.seqNo);
    PushStaysAlike(g, q, q', m);
    PushKeepsPromoted(q, m, clock);
    PushKeepsPromoted(q', Rename(g, m), clock);
  }

  lemma DequeueStaysAlike(c: RecordCodec, f: Renaming, s: ServiceState, s': ServiceState, clock: Time,
                          now: Time, ts: Time, o: Outcome)
    requires Alike(f, s, s', clock) && clock <= now
    ensures var ((t, r), (t', r')) := (s.Dequeue(c, now, ts, o), s'.Dequeue(c, now, ts, o));
            && Alike(f, t, t', now)
            && t.seqNo == s.seqNo && t'.seqNo == s'.seqNo
            && (r.Err? || r.value == None ==> r' == r)
            && (r.Ok? && r.value.Some? ==> r.value.value.seqNo in f && r' == Ok(Some(Rename(f, r.value.value))))
  {
    PopIsRenamed(f, s.queue, s'.queue, clock, now);
    var ((q, r), (q', r')) := (s.queue.Pop(now), s'.queue.Pop(now));
    if r.Some? {
      var ((t, y), (t', y')) := (s.Dequeue(c, now, ts, o), s'.Dequeue(c, now, ts, o));
      assert r'.value.id == r.value.id && t.wal.open && t'.wal.open;
      if y.Err? {
        TakenIsGone(s.queue, now);
        PushStaysAlike(f, q, q', r.value);
        PushKeepsPromoted(q, r.value, now);
        PushKeepsPromoted(q', r'.value, now);
        assert t.queue == q.Push(r.value) && t'.queue == q'.Push(r'.value);
      } else {
        assert t.queue == q && t'.queue == q';
      }
    }
  }

  /** The popped message is no longer held, nor is any other with its Seq. */
  lemma TakenIsGone(q: QueueState, now: Time)
    requires q.WellFormed() && DistinctSeqs(q.Held()) && q.Pop(now).1.Some?
    ensures forall x :: x in q.Pop(now).0.Held() ==> x.msg.seqNo != q.Pop(now).1.value.seqNo
  {
    var e := First(BySelection(q.mode), q.Promote(now).ready).value;
    PromoteKeepsWellFormed(q, now);
    assert e in q.Held();
    forall x | x in q.Pop(now).0.Held() ensures x.msg.seqNo != e.msg.seqNo {
      assert x in q.Held() && x != e;
      assert !SameId(x, e);
    }
  }

  function Ids(s: set<Entry>): set<string> {
    set e | e in s :: e.msg.id
  }

  lemma {:induction false} IdsCount(s: set<Entry>)
    requires DistinctIds(s)
    ensures |Ids(s)| == |s|
    decreases |s|
  {
    if s != {} {
      var e :| e in s;
      var rest := s - {e};
      forall x | x in rest ensures x.msg.id != e.msg.id {
        assert !SameId(x, e);
      }
      assert Ids(s) == Ids(rest) + {e.msg.id};
      IdsCount(rest);
    }
  }

  ghost predicate HasTwin(s: set<Entry>, m: Message) {
    exists e :: e in s && e.msg.id == m.id && e.msg.availableAt == m.availableAt
  }

  lemma TwinsCover(s: set<Entry>, s': set<Entry>, now: Time)
    requires AllHaveTwins(s, s')
    ensures Ids(s) <= Ids(s') && Ids(Due(s, now)) <= Ids(Due(s', now))
  {
    forall e | e in s ensures e.msg.id in Ids(s') && (e in Due(s, now) ==> e.msg.id in Ids(Due(s', now))) {
      var e' :| e' in s' && e'.msg.id == e.msg.id && e'.msg.availableAt == e.msg.availableAt;
      assert e in Due(s, now) ==> e' in Due(s', now);
    }
  }

  lemma TwinOf(f: Renaming, q: QueueState, q': QueueState, e: Entry)
    requires RenamedTo(f, q, q') && e in q.Held()
    ensures HasTwin(q'.Held(), e.msg)
  {
    assert HoldsMessage(q', Rename(f, e.msg));
    var e' :| e' in q'.Held() && e'.msg == Rename(f, e.msg);
  }

  lemma TwinFrom(f: Renaming, q: QueueState, q': QueueState, e': Entry)
    requires RenamedTo(f, q, q') && e' in q'.Held()
    ensures HasTwin(q.Held(), e'.msg)
  {
    var e :| e in q.Held() && e'.msg == Rename(f, e.msg);
  }

  ghost predicate AllHaveTwins(s: set<Entry>, s': set<Entry>) {
    forall e :: e in s ==> HasTwin(s', e.msg)
  }

  lemma HeldHaveTwins(f: Renaming, q: QueueState, q': QueueState)
    requires RenamedTo(f, q, q')
    ensures AllHaveTwins(q.Held(), q'.Held())
  {
    forall e | e in q.Held() ensures HasTwin(q'.Held(), e.msg) {
      TwinOf(f, q, q', e);
    }
  }

  lemma HeldAreTwins(f: Renaming, q: QueueState, q': QueueState)
    requires RenamedTo(f, q, q')
    ensures AllHaveTwins(q'.Held(), q.Held())
  {
    forall e' | e' in q'.Held() ensures HasTwin(q.Held(), e'.msg) {
      TwinFrom(f, q, q', e');
    }
  }

  lemma SubsetIsNoLarger(a: set<string>, b: set<string>)
    requires a <= b
    ensures |a| <= |b|
  {
    assert b == a + (b - a);
  }

  lemma TwinsAreNoFewer(s: set<Entry>, s': set<Entry>, now: Time)
    requires DistinctIds(s) && DistinctIds(s') && AllHaveTwins(s, s')
    ensures |s| <= |s'| && |Due(s, now)| <= |Due(s', now)|
  {
    TwinsCover(s, s', now);
    IdsCount(s);
    IdsCount(s');
    IdsCount(Due(s, now));
    IdsCount(Due(s', now));
    SubsetIsNoLarger(Ids(s), Ids(s'));
    SubsetIsNoLarger(Ids(Due(s, now)), Ids(Due(s', now)));
  }

  /** Equally many are held, and equally many are available. */
  lemma CountsAlike(f: Renaming, q: QueueState, q': QueueState, now: Time)
    requires QueuesAlike(f, q, q')
    ensures |q.Held()| == |q'.Held()| && |Due(q.Held(), now)| == |Due(q'.Held(), now)|
  {
    assert |q.Held()| <= |q'.Held()| && |Due(q.Held(), now)| <= |Due(q'.Held(), now)| by {
      HeldHaveTwins(f, q, q');
      TwinsAreNoFewer(q.Held(), q'.Held(), now);
    }
    assert |q'.Held()| <= |q.Held()| && |Due(q'.Held(), now)| <= |Due(q.Held(), now)| by {
      HeldAreTwins(f, q, q');
      TwinsAreNoFewer(q'.Held(), q.Held(), now);
    }
  }

  lemma CountStaysAlike(f: Renaming, s: ServiceState, s': ServiceState, clock: Time, now: Time)
    requires Alike(f, s, s', clock) && clock <= now
    ensures Alike(f, s.Stats(now).0, s'.Stats(now).0, now) && s.Stats(now).1 == s'.Stats(now).1
    ensures s.Stats(now).0.seqNo == s.seqNo && s'.Stats(now).0.seqNo == s'.seqNo
  {
    PromoteStaysAlike(f, s.queue, s'.queue, now);
    PromoteSplitsByAvailability(s.queue, clock, now);
    PromoteSplitsByAvailability(s'.queue, clock, now);
    CountsAlike(f, s.queue, s'.queue, now);
  }

  // ---------- Lists ----------

  ghost predicate HasMessage(s: set<Entry>, m: Message) {
    exists e :: e in s && e.msg == m
  }

  /** m is the renamed message of one of s. */
  ghost predicate IsRenamedOf(f: Renaming, s: set<Entry>, m: Message) {
    exists e :: e in s && m == Rename(f, e.msg)
  }

  ghost predicate SetRenamed(f: Renaming, s: set<Entry>, s': set<Entry>) {
    && (forall e :: e in s ==> e.msg.seqNo in f && HasMessage(s', Rename(f, e.msg)))
    && (forall e' :: e' in s' ==> IsRenamedOf(f, s, e'.msg))
  }

  lemma DueIsRenamed(f: Renaming, q: QueueState, q': QueueState, now: Time)
    requires RenamedTo(f, q, q')
    ensures SetRenamed(f, Due(q.Held(), now), Due(q'.Held(), now))
    ensures SetRenamed(f, q.Held() - Due(q.Held(), now), q'.Held() - Due(q'.Held(), now))
  {
    forall e | e in q.Held()
      ensures e in Due(q.Held(), now) ==> HasMessage(Due(q'.Held(), now), Rename(f, e.msg))
      ensures e !in Due(q.Held(), now) ==> HasMessage(q'.Held() - Due(q'.Held(), now), Rename(f, e.msg))
    {
      DueTwin(f, q, q', now, e);
    }
    forall e' | e' in q'.Held()
      ensures e' in Due(q'.Held(), now) ==> IsRenamedOf(f, Due(q.Held(), now), e'.msg)
      ensures e' !in Due(q'.Held(), now) ==> IsRenamedOf(f, q.Held() - Due(q.Held(), now), e'.msg)
    {
      var e :| e in q.Held() && e'.msg == Rename(f, e.msg);
    }
  }

  lemma DueTwin(f: Renaming, q: QueueState, q': QueueState, now: Time, e: Entry)
    requires RenamedTo(f, q, q') && e in q.Held()
    ensures e in Due(q.Held(), now) ==> HasMessage(Due(q'.Held(), now), Rename(f, e.msg))
    ensures e !in Due(q.Held(), now) ==> HasMessage(q'.Held() - Due(q'.Held(), now), Rename(f, e.msg))
  {
    assert HoldsMessage(q', Rename(f, e.msg));
    var e' :| e' in q'.Held() && e'.msg == Rename(f, e.msg);
  }

  /** Sets that can be listed, with one Seq to a message. */
  ghost predicate Listable(s: set<Entry>) {
    DistinctIds(s) && DistinctOrders(s) && DistinctSeqs(s)
  }

  lemma FirstIsRenamed(mode: Mode, f: Renaming, s: set<Entry>, s': set<Entry>, e: Entry) returns (e': Entry)
    requires OrderPreserving(f) && Listable(s) && DistinctIds(s') && SetRenamed(f, s, s')
    requires IsFirst(BySelection(mode), s, e)
    ensures IsFirst(BySelection(mode), s', e') && e'.msg == Rename(f, e.msg)
  {
    assert HasMessage(s', Rename(f, e.msg));
    e' :| e' in s' && e'.msg == Rename(f, e.msg);
    forall x' | x' in s' && x' != e' ensures Before(BySelection(mode), e', x') {
      assert IsRenamedOf(f, s, x'.msg);
      var x :| x in s && x'.msg == Rename(f, x.msg);
      assert !SameId(x', e') && !SameId(x, e);
      BeforeIsRenamed(mode, f, e, x, e', x');
    }
  }

  lemma RestIsRenamed(f: Renaming, s: set<Entry>, s': set<Entry>, e: Entry, e': Entry)
    requires DistinctIds(s) && DistinctIds(s') && SetRenamed(f, s, s')
    requires e in s && e' in s' && e'.msg == Rename(f, e.msg)
    ensures SetRenamed(f, s - {e}, s' - {e'})
  {
    forall x | x in s - {e} ensures HasMessage(s' - {e'}, Rename(f, x.msg)) {
      assert HasMessage(s', Rename(f, x.msg));
      var x' :| x' in s' && x'.msg == Rename(f, x.msg);
      assert !SameId(x, e);
    }
    forall x' | x' in s' - {e'} ensures IsRenamedOf(f, s - {e}, x'.msg) {
      assert IsRenamedOf(f, s, x'.msg);
      var x :| x in s && x'.msg == Rename(f, x.msg);
      assert !SameId(x', e');
    }
  }

  lemma ListableWithout(s: set<Entry>, e: Entry)
    requires Listable(s)
    ensures Listable(s - {e})
  {
  }

  lemma ListOneMore(mode: Mode, s: set<Entry>, e: Entry)
    requires IsFirst(BySelection(mode), s, e)
    ensures Messages(InOrder(BySelection(mode), s)) == [e.msg] + Messages(InOrder(BySelection(mode), s - {e}))
  {
    FirstIsUnique(BySelection(mode), s, e, First(BySelection(mode), s).value);
  }

  ghost predicate SetsAlike(f: Renaming, s: set<Entry>, s': set<Entry>) {
    && OrderPreserving(f) && Listable(s) && DistinctIds(s') && DistinctOrders(s')
    && SetRenamed(f, s, s')
  }

  lemma FirstsAlike(mode: Mode, f: Renaming, s: set<Entry>, s': set<Entry>) returns (e: Entry, e': Entry)
    requires SetsAlike(f, s, s') && s != {}
    ensures IsFirst(BySelection(mode), s, e) && IsFirst(BySelection(mode), s', e') && e'.msg == Rename(f, e.msg)
    ensures SetsAlike(f, s - {e}, s' - {e'})
  {
    FirstOfNonEmpty(BySelection(mode), s);
    e := First(BySelection(mode), s).value;
    e' := FirstIsRenamed(mode, f, s, s', e);
    RestIsRenamed(f, s, s', e, e');
    ListableWithout(s, e);
  }

  lemma RenameOneMore(f: Renaming, m: Message, ms: seq<Message>)
    ensures RenameAll(f, [m] + ms) == [Rename(f, m)] + RenameAll(f, ms)
  {
  }

  lemma NothingListed(rule: Rule)
    ensures Messages(InOrder(rule, {})) == []
  {
  }

  /** The renamed messages are listed in the same order. */
  lemma {:induction false} ListingIsRenamed(mode: Mode, f: Renaming, s: set<Entry>, s': set<Entry>)
    requires SetsAlike(f, s, s')
    ensures Messages(InOrder(BySelection(mode), s')) == RenameAll(f, Messages(InOrder(BySelection(mode), s)))
    decreases |s|
  {
    if s == {} {
      NothingIsRenamed(f, s');
      NothingListed(BySelection(mode));
    } else {
      var e, e' := FirstsAlike(mode, f, s, s');
      ListingIsRenamed(mode, f, s - {e}, s' - {e'});
      ListOneMore(mode, s, e);
      ListOneMore(mode, s', e');
      RenameOneMore(f, e.msg, Messages(InOrder(BySelection(mode), s - {e})));
    }
  }

  lemma NothingIsRenamed(f: Renaming, s': set<Entry>)
    requires SetRenamed(f, {}, s')
    ensures s' == {}
  {
    assert forall m :: !IsRenamedOf(f, {}, m);
  }

  lemma CutIsRenamed(f: Renaming, es: seq<Entry>, es': seq<Entry>, limit: int)
    requires Messages(es') == RenameAll(f, Messages(es))
    ensures Cut(es', limit) == Page(RenameAll(f, Cut(es, limit).messages), Cut(es, limit).truncated)
  {
    assert |es'| == |Messages(es')| == |es|;
    var ms, ms' := Cut(es, limit).messages, Cut(es', limit).messages;
    forall i | 0 <= i < |ms'| ensures ms'[i] == Rename(f, ms[i]) {
      assert ms'[i] == Messages(es')[i] && ms[i] == Messages(es)[i];
    }
  }

  /** The messages of a listing are those of the set. */
  lemma ListedAre(rule: Rule, s: set<Entry>)
    requires DistinctOrders(s)
    ensures Listed(Messages(InOrder(rule, s))) == set e | e in s :: e.msg
  {
    var es := InOrder(rule, s);
    forall e | e in s ensures e.msg in Messages(es) {
      InOrderListsAll(rule, s, e);
      var i :| 0 <= i < |es| && es[i] == e;
      assert Messages(es)[i] == e.msg;
    }
    forall m | m in Messages(es) ensures exists e :: e in s && e.msg == m {
      var i :| 0 <= i < |es| && Messages(es)[i] == m;
      assert es[i] in s;
    }
  }

  lemma MessagesAreRenamed(f: Renaming, s: set<Entry>, s': set<Entry>)
    requires SetRenamed(f, s, s')
    ensures (set e | e in s' :: e.msg) == RenameEach(f, set e | e in s :: e.msg)
    ensures AllIn(f, set e | e in s :: e.msg)
  {
    forall e | e in s ensures Rename(f, e.msg) in (set e' | e' in s' :: e'.msg) {
      assert HasMessage(s', Rename(f, e.msg));
    }
    forall e' | e' in s' ensures e'.msg in RenameEach(f, set e | e in s :: e.msg) {
      assert IsRenamedOf(f, s, e'.msg);
    }
  }

  lemma PartIsListable(s: set<Entry>, held: set<Entry>)
    requires s <= held && Listable(held)
    ensures Listable(s)
  {
  }

  /** The ready lists of two queues alike, and which messages they still hold back. */
  lemma ListsAlike(f: Renaming, q: QueueState, q': QueueState, now: Time, limit: int)
    requires QueuesAlike(f, q, q')
    ensures var page := Cut(InOrder(BySelection(q.mode), Due(q.Held(), now)), limit);
            && Cut(InOrder(BySelection(q.mode), Due(q'.Held(), now)), limit) == Page(RenameAll(f, page.messages), page.truncated)
            && AllIn(f, Listed(page.messages))
    ensures var (d, d') := (q.Held() - Due(q.Held(), now), q'.Held() - Due(q'.Held(), now));
            && Listed(Messages(InOrder(ByMaturity, d'))) == RenameEach(f, Listed(Messages(InOrder(ByMaturity, d))))
            && AllIn(f, Listed(Messages(InOrder(ByMaturity, d))))
  {
    var r, r' := Due(q.Held(), now), Due(q'.Held(), now);
    DueIsRenamed(f, q, q', now);
    PartIsListable(r, q.Held());
    ListingIsRenamed(q.mode, f, r, r');
    CutIsRenamed(f, InOrder(BySelection(q.mode), r), InOrder(BySelection(q.mode), r'), limit);
    CutIsOfSet(f, BySelection(q.mode), r, limit);
    ListedAre(ByMaturity, q.Held() - r);
    ListedAre(ByMaturity, q'.Held() - r');
    MessagesAreRenamed(f, q.Held() - r, q'.Held() - r');
  }

  lemma CutIsOfSet(f: Renaming, rule: Rule, s: set<Entry>, limit: int)
    requires forall e :: e in s ==> e.msg.seqNo in f
    ensures AllIn(f, Listed(Cut(InOrder(rule, s), limit).messages))
  {
    var ms := Cut(InOrder(rule, s), limit).messages;
    forall m | m in ms ensures m.seqNo in f {
      var i :| 0 <= i < |ms| && ms[i] == m;
      assert InOrder(rule, s)[i] in s;
    }
  }

  /** What a Look answers, in terms of what is available and what is not. */
  ghost function LookAnswer(mode: Mode, due: set<Entry>, waiting: set<Entry>, limit: int): Answer {
    Looked(QueueStats(|due| + |waiting|, |due|, |waiting|),
           Cut(InOrder(BySelection(mode), due), limit),
           Listed(Messages(InOrder(ByMaturity, waiting))))
  }

  lemma SnapshotAnswers(c: RecordCodec, s: ServiceState, now: Time, limit: int)
    ensures var p := s.queue.Promote(now);
            Step(c, s, Look(now, limit)) == (s.(queue := p), LookAnswer(s.queue.mode, p.ready, p.delayed, limit))
  {
    assert Cut(InOrder(ByMaturity, s.queue.Promote(now).delayed), 0).messages
        == Messages(InOrder(ByMaturity, s.queue.Promote(now).delayed));
  }

  lemma LookAnswers(c: RecordCodec, s: ServiceState, clock: Time, now: Time, limit: int)
    requires s.queue.WellFormed() && s.queue.PromotedBy(clock) && clock <= now
    ensures var (s', a) := Step(c, s, Look(now, limit));
            var due := Due(s.queue.Held(), now);
            s' == s.(queue := s.queue.Promote(now)) && a == LookAnswer(s.queue.mode, due, s.queue.Held() - due, limit)
  {
    PromoteSplitsByAvailability(s.queue, clock, now);
    SnapshotAnswers(c, s, now, limit);
  }

  lemma LookAnswerIsRenamed(f: Renaming, mode: Mode, due: set<Entry>, waiting: set<Entry>, due': set<Entry>, waiting': set<Entry>, limit: int)
    requires |due'| == |due| && |waiting'| == |waiting|
    requires var page := Cut(InOrder(BySelection(mode), due), limit);
             Cut(InOrder(BySelection(mode), due'), limit) == Page(RenameAll(f, page.messages), page.truncated)
    requires Listed(Messages(InOrder(ByMaturity, waiting'))) == RenameEach(f, Listed(Messages(InOrder(ByMaturity, waiting))))
    ensures LookAnswer(mode, due', waiting', limit) == RenameAnswer(f, LookAnswer(mode, due, waiting, limit))
  {
  }

  lemma ViewsAlike(f: Renaming, q: QueueState, q': QueueState, now: Time, limit: int)
    requires QueuesAlike(f, q, q')
    ensures var (due, due') := (Due(q.Held(), now), Due(q'.Held(), now));
            var a := LookAnswer(q.mode, due, q.Held() - due, limit);
            LookAnswer(q.mode, due', q'.Held() - due', limit) == RenameAnswer(f, a) && Covered(f, a)
  {
    CountsAlike(f, q, q', now);
    DueCount(q.Held(), now);
    DueCount(q'.Held(), now);
    ListsAlike(f, q, q', now, limit);
    var due, due' := Due(q.Held(), now), Due(q'.Held(), now);
    LookAnswerIsRenamed(f, q.mode, due, q.Held() - due, due', q'.Held() - due', limit);
  }

  lemma LookStaysAlike(c: RecordCodec, f: Renaming, s: ServiceState, s': ServiceState, clock: Time, now: Time, limit: int)
    requires Alike(f, s, s', clock) && clock <= now
    ensures var ((t, a), (t', a')) := (Step(c, s, Look(now, limit)), Step(c, s', Look(now, limit)));
            && Alike(f, t, t', now) && t.seqNo == s.seqNo && t'.seqNo == s'.seqNo
            && a' == RenameAnswer(f, a) && Covered(f, a)
  {
    CountStaysAlike(f, s, s', clock, now);
    LookAnswers(c, s, clock, now, limit);
    LookAnswers(c, s', clock, now, limit);
    ViewsAlike(f, s.queue, s'.queue, now, limit);
  }

  lemma DueCount(s: set<Entry>, now: Time)
    ensures |s - Due(s, now)| == |s| - |Due(s, now)|
  {
  }

  lemma StepStaysAlike(c: RecordCodec, f: Renaming, s: ServiceState, s': ServiceState, clock: Time, op: Op)
    returns (g: Renaming)
    requires Alike(f, s, s', clock) && clock <= op.now
    ensures var ((t, a), (t', a')) := (Step(c, s, op), Step(c, s', op));
            && Alike(g, t, t', op.now) && Extends(f, g) && a' == RenameAnswer(g, a) && Covered(g, a)
            && (IsIdentity(f) && s.seqNo == s'.seqNo ==> IsIdentity(g) && t.seqNo == t'.seqNo)
  {
    g := f;
    match op
    case Enqueue(req, id, now, ts, o) =>
      g := EnqueueStaysAlike(c, f, s, s', clock, req, id, now, ts, o);
      EnqueueAnswersAlike(c, f, g, s, s', req, id, now, ts, o);
      ClockMayAdvance(g, Step(c, s, op).0, Step(c, s', op).0, clock, now);
    case Dequeue(now, ts, o) => DequeueStaysAlike(c, f, s, s', clock, now, ts, o);
    case Count(now) => CountStaysAlike(f, s, s', clock, now);
    case Look(now, limit) => LookStaysAlike(c, f, s, s', clock, now, limit);
  }

  ghost predicate AllIn(f: Renaming, ms: set<Message>) {
    forall m :: m in ms ==> m.seqNo in f
  }

  /** The renaming reaches the messages in the answer. */
  ghost predicate Covered(f: Renaming, a: Answer) {
    match a
    case Enqueued(Ok(m)) => m.seqNo in f
    case Dequeued(Ok(Some(m))) => m.seqNo in f
    case Looked(_, ready, waiting) => AllIn(f, Listed(ready.messages)) && AllIn(f, waiting)
    case _ => true
  }

  /** One renaming serves the answers of a whole run. */
  lemma {:induction false} RunsAnswerAlike(c: RecordCodec, f: Renaming, s: ServiceState, s': ServiceState, clock: Time, ops: seq<Op>)
    returns (g: Renaming)
    requires Alike(f, s, s', clock) && ClockRuns(ops, clock)
    ensures Extends(f, g) && OrderPreserving(g)
    ensures IsIdentity(f) && s.seqNo == s'.seqNo ==> IsIdentity(g)
    ensures var (ys, ys') := (Answers(c, s, ops), Answers(c, s', ops));
            |ys| == |ys'| == |ops| && forall i :: 0 <= i < |ops| ==> ys'[i] == RenameAnswer(g, ys[i])
    decreases |ops|
  {
    g := f;
    if ops != [] {
      var h := StepStaysAlike(c, f, s, s', clock, ops[0]);
      var t, t' := Step(c, s, ops[0]).0, Step(c, s', ops[0]).0;
      g := RunsAnswerAlike(c, h, t, t', ops[0].now, ops[1..]);
      AnswersOfMore(c, s, ops);
      AnswersOfMore(c, s', ops);
      CoveredRename(h, g, Step(c, s, ops[0]).1);
    }
  }

  lemma AnswersOfMore(c: RecordCodec, s: ServiceState, ops: seq<Op>)
    requires ops != []
    ensures Answers(c, s, ops) == [Step(c, s, ops[0]).1] + Answers(c, Step(c, s, ops[0]).0, ops[1..])
  {
  }

  lemma CoveredRename(f: Renaming, g: Renaming, a: Answer)
    requires Extends(f, g) && Covered(f, a)
    ensures RenameAnswer(g, a) == RenameAnswer(f, a)
  {
    if a.Looked? {
      assert forall m :: m in a.ready.messages ==> m in Listed(a.ready.messages);
      assert RenameAll(g, a.ready.messages) == RenameAll(f, a.ready.messages);
      assert RenameEach(g, a.waiting) == RenameEach(f, a.waiting);
    }
  }

  // ---------- Recovered against never crashed ----------

  /** The identity on the Seqs of the held messages. */
  ghost function Unchanged(q: QueueState): Renaming {
    map e | e in q.Held() :: e.msg.seqNo := e.msg.seqNo
  }

  lemma SameMessagesAreAlike(q: QueueState, q': QueueState)
    requires q.mode == q'.mode && q.WellFormed() && q'.WellFormed() && DistinctSeqs(q.Held())
    requires forall e :: e in q.Held() ==> HoldsMessage(q', e.msg)
    requires forall e' :: e' in q'.Held() ==> HoldsMessage(q, e'.msg)
    ensures QueuesAlike(Unchanged(q), q, q') && IsIdentity(Unchanged(q))
  {
  }

  /** The file can be read, memory holds exactly its live messages, and their Seqs ascend in the log. */
  ghost predicate InStep(c: RecordCodec, s: ServiceState, rs: seq<Record>) {
    && !s.closed && s.wal.open
    && ReadBack(c, s.wal.file) == Ok(rs)
    && s.queue.WellFormed() && Agrees(s.queue, Fold(NOTHING, rs).live)
    && AscendingSeqs(InLogOrder(rs), s.seqNo)
  }

  /** It is so where every failed append left no bytes; Recovery.dfy shows it after runs with crashes. */
  lemma ConsistentIsInStep(c: RecordCodec, s: ServiceState, rs: seq<Record>)
    requires c.Sound() && Consistent(c, s, rs)
    ensures InStep(c, s, rs)
  {
    LogTextReadsBack(c, rs);
    WholeScan(c, ScanLines(LogText(c, rs)));
  }

  /**
   * Where memory and file are in step, the service rebuilt from the file and the one that never stopped
   * give the same answers to every later run under a non-decreasing clock, up to one order-preserving
   * renaming of Seqs that leaves the Seqs of the survivors alone.
   */
  lemma RecoveredAnswersAlike(c: RecordCodec, s: ServiceState, rs: seq<Record>, clock: Time, ops: seq<Op>)
    returns (g: Renaming)
    requires InStep(c, s, rs) && s.queue.PromotedBy(clock) && ClockRuns(ops, clock)
    ensures OrderPreserving(g)
    ensures forall e :: e in s.queue.Held() ==> Rename(g, e.msg) == e.msg
    ensures Restart(c, s.queue.mode, s.wal.file, s.wal.synced).Ok?
    ensures var recovered := Restart(c, s.queue.mode, s.wal.file, s.wal.synced).value;
            var (ys, ys') := (Answers(c, s, ops), Answers(c, recovered, ops));
            |ys| == |ys'| == |ops| && forall i :: 0 <= i < |ops| ==> ys'[i] == RenameAnswer(g, ys[i])
  {
    var s' := RecoveredIsAlike(c, s, rs, clock);
    g := RunsAnswerAlike(c, Unchanged(s.queue), s, s', clock, ops);
  }

  lemma RecoveredIsAlike(c: RecordCodec, s: ServiceState, rs: seq<Record>, clock: Time) returns (s': ServiceState)
    requires InStep(c, s, rs) && s.queue.PromotedBy(clock)
    ensures Restart(c, s.queue.mode, s.wal.file, s.wal.synced) == Ok(s')
    ensures Alike(Unchanged(s.queue), s, s', clock)
  {
    RestartHoldsTheRead(c, s.queue.mode, s.wal.file, rs, s.wal.synced);
    s' := Restart(c, s.queue.mode, s.wal.file, s.wal.synced).value;
    ListingIsLogOrder(rs, s.seqNo);
    MaxSeqBounds(InLogOrder(rs), s.seqNo);
    SeqsOfLive(rs, s.seqNo, s.queue);
    SeqsOfLive(rs, s'.seqNo, s'.queue);
    BothHoldTheLive(s.queue, s'.queue, Fold(NOTHING, rs).live);
    BothHoldTheLive(s'.queue, s.queue, Fold(NOTHING, rs).live);
    SameMessagesAreAlike(s.queue, s'.queue);
    var f := Unchanged(s.queue);
    forall i | i in f ensures i <= s.seqNo && f[i] <= s'.seqNo {
      var e :| e in s.queue.Held() && e.msg.seqNo == i;
      assert HoldsMessage(s'.queue, e.msg);
      var e' :| e' in s'.queue.Held() && e'.msg == e.msg;
    }
  }

  lemma BothHoldTheLive(q: QueueState, q': QueueState, live: Live)
    requires Agrees(q, live) && Agrees(q', live)
    ensures forall e :: e in q.Held() ==> HoldsMessage(q', e.msg)
  {
    forall e | e in q.Held() ensures HoldsMessage(q', e.msg) {
      var e' := q'.Lookup(e.msg.id);
      assert e' in q'.Held() && e'.msg == e.msg;
    }
  }

  // ---------- A failed Dequeue ----------

  /**
   * Until a restart, a Dequeue whose tombstone cannot be written changes nothing that can be observed,
   * though its message re-enters through the delayed heap with a new arrival counter: the same messages
   * are held, and every later run is answered as without the failed call.
   */
  lemma FailedDequeueIsUnobservable(c: RecordCodec, s: ServiceState, clock: Time, now: Time, ts: Time, kept: nat, ops: seq<Op>)
    requires !s.closed && s.wal.open
    requires s.queue.WellFormed() && DistinctSeqs(s.queue.Held())
    requires forall e :: e in s.queue.Held() ==> e.msg.seqNo <= s.seqNo
    requires s.queue.PromotedBy(clock) && clock <= now && ClockRuns(ops, now)
    requires s.Dequeue(c, now, ts, Failed(kept)).1.Err?
    ensures var s' := s.Dequeue(c, now, ts, Failed(kept)).0;
            && (forall m :: HoldsMessage(s'.queue, m) <==> HoldsMessage(s.queue, m))
            && Answers(c, s', ops) == Answers(c, s, ops)
  {
    var s' := s.Dequeue(c, now, ts, Failed(kept)).0;
    PushedBackHoldsTheSame(s.queue, clock, now);
    UnchangedIsAlike(s, s', now);
    var g := RunsAnswerAlike(c, Unchanged(s.queue), s, s', now, ops);
    RenamingNothing(g, Answers(c, s, ops), Answers(c, s', ops));
  }

  /**
   * Nor does a restart right after it bring anything to light, provided the tombstone did not reach the
   * file whole (Durability.FailedDequeueAgreesIff says what happens if it did).
   */
  lemma FailedDequeueThenRestart(c: RecordCodec, s: ServiceState, rs: seq<Record>, clock: Time,
                                 now: Time, ts: Time, kept: nat, ops: seq<Op>) returns (g: Renaming)
    requires c.Sound() && Consistent(c, s, rs)
    requires s.queue.PromotedBy(clock) && clock <= now && ClockRuns(ops, now)
    requires s.queue.Pop(now).1.Some?
    requires kept < |c.encode(Stamp(DequeueRecord(s.queue.Pop(now).1.value.id), s.wal.recordNo + 1, ts))|
    ensures OrderPreserving(g)
    ensures forall e :: e in s.queue.Held() ==> Rename(g, e.msg) == e.msg
    ensures var failed := s.Dequeue(c, now, ts, Failed(kept)).0;
            var reopened := Restart(c, failed.queue.mode, failed.wal.file, failed.wal.synced);
            && reopened.Ok?
            && var (ys, ys') := (Answers(c, s, ops), Answers(c, reopened.value, ops));
               |ys| == |ys'| == |ops| && forall i :: 0 <= i < |ops| ==> ys'[i] == RenameAnswer(g, ys[i])
  {
    var failed := s.Dequeue(c, now, ts, Failed(kept)).0;
    FailedDequeueAgreesIff(c, s, rs, now, ts, kept);
    LiveSeqsAreDistinct(c, s, rs);
    PushedBackHoldsTheSame(s.queue, clock, now);
    FailedDequeueIsUnobservable(c, s, clock, now, ts, kept, ops);
    StaysInStep(c, s, rs, now, ts, kept);
    g := RecoveredAnswersAlike(c, failed, rs, now, ops);
    forall e | e in s.queue.Held() ensures Rename(g, e.msg) == e.msg {
      assert HoldsMessage(failed.queue, e.msg);
    }
  }

  lemma StaysInStep(c: RecordCodec, s: ServiceState, rs: seq<Record>, now: Time, ts: Time, kept: nat)
    requires c.Sound() && Consistent(c, s, rs) && s.queue.Pop(now).1.Some?
    requires kept < |c.encode(Stamp(DequeueRecord(s.queue.Pop(now).1.value.id), s.wal.recordNo + 1, ts))|
    ensures InStep(c, s.Dequeue(c, now, ts, Failed(kept)).0, rs)
  {
    FailedDequeueAgreesIff(c, s, rs, now, ts, kept);
    NoEmptyId(rs);
    AgreesAfterPop(s.queue, Fold(NOTHING, rs).live, now);
    FailedDequeueFile(c, s, now, ts, kept);
    PopKeepsWellFormed(s.queue, now);
    PushKeepsWellFormed(s.queue.Pop(now).0, s.queue.Pop(now).1.value);
  }

  lemma UnchangedIsAlike(s: ServiceState, s': ServiceState, clock: Time)
    requires !s.closed && !s'.closed && s.wal.open && s'.wal.open && s.seqNo == s'.seqNo
    requires s.queue.mode == s'.queue.mode && s.queue.WellFormed() && s'.queue.WellFormed() && DistinctSeqs(s.queue.Held())
    requires s.queue.PromotedBy(clock) && s'.queue.PromotedBy(clock)
    requires forall e :: e in s.queue.Held() ==> e.msg.seqNo <= s.seqNo && HoldsMessage(s'.queue, e.msg)
    requires forall e :: e in s'.queue.Held() ==> HoldsMessage(s.queue, e.msg)
    ensures Alike(Unchanged(s.queue), s, s', clock) && IsIdentity(Unchanged(s.queue))
  {
    SameMessagesAreAlike(s.queue, s'.queue);
  }

  lemma RenamedToItself(g: Renaming, y: Answer)
    requires IsIdentity(g)
    ensures RenameAnswer(g, y) == y
  {
    assert forall m :: Rename(g, m) == m;
    if y.Looked? {
      assert RenameAll(g, y.ready.messages) == y.ready.messages;
      assert RenameEach(g, y.waiting) == y.waiting;
    }
  }

  lemma RenamingNothing(g: Renaming, ys: seq<Answer>, ys': seq<Answer>)
    requires IsIdentity(g) && |ys| == |ys'|
    requires forall i :: 0 <= i < |ys| ==> ys'[i] == RenameAnswer(g, ys[i])
    ensures ys == ys'
  {
    forall i | 0 <= i < |ys| ensures ys[i] == ys'[i] {
      RenamedToItself(g, ys[i]);
    }
  }

  lemma PushedBackHoldsTheSame(q: QueueState, clock: Time, now: Time)
    requires q.WellFormed() && q.PromotedBy(clock) && clock <= now && q.Pop(now).1.Some?
    ensures var p := q.Pop(now).0.Push(q.Pop(now).1.value);
            && p.WellFormed() && p.mode == q.mode && p.PromotedBy(now)
            && (forall e :: e in q.Held() ==> HoldsMessage(p, e.msg))
            && (forall e :: e in p.Held() ==> HoldsMessage(q, e.msg))
  {
    var (q', r) := q.Pop(now);
    var p := q'.Push(r.value);
    PromoteSplitsByAvailability(q, clock, now);
    PopKeepsWellFormed(q, now);
    PushKeepsWellFormed(q', r.value);
    var e := First(BySelection(q.mode), q.Promote(now).ready).value;
    assert q'.Held() == q.Held() - {e};
    assert !q'.Holds(e.msg.id) by {
      forall x | x in q'.Held() ensures x.msg.id != e.msg.id {
        assert !SameId(x, e);
      }
    }
    var back := Entry(e.msg, q'.nextOrder);
    assert p.Held() == q'.Held() + {back};
    forall x | x in q.Held() ensures HoldsMessage(p, x.msg) {
      assert (if x == e then back else x) in p.Held();
    }
    forall x | x in p.Held() ensures HoldsMessage(q, x.msg) {
      assert (if x == back then e else x) in q.Held();
    }
  }
}
