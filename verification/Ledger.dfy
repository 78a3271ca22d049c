/**
 * The ledger (pkg/service/queue_service.go:95-150): over any run of protocol steps, with crashes anywhere, no
 * message is lost, made up or, where IDs are fresh, returned twice. Here the invariants of the file, of
 * memory and of the Seqs come together into statements about whole runs.
 */
module Ledger {
  import opened Model
  import opened Selection
  import opened Scheduling
  import opened Codec
  import opened Replay
  import opened Log
  import opened Wal
  import opened Service
  import opened Durability
  import opened Protocol
  import opened Agreement
  import opened LiveSeqs

  /** r is an ENQUEUE or a DEQUEUE of this ID. */
  predicate Names(r: Record, id: string) {
    !IsForeign(r) && r.id == id
  }

  ghost predicate RecordOk(r: Record, submitted: map<string, Message>, attempted: set<string>) {
    || IsForeign(r)
    || (r.id != "" && r.op == OP_ENQUEUE && r.id in submitted && MessageOf(r) == submitted[r.id])
    || (r.id != "" && r.op == OP_DEQUEUE && r.id in attempted)
  }

  /** Every record comes from a call, and nothing about an ID precedes its ENQUEUE. */
  ghost predicate RecordsOk(rs: seq<Record>, submitted: map<string, Message>, attempted: set<string>) {
    && (forall i :: 0 <= i < |rs| ==> RecordOk(rs[i], submitted, attempted))
    && (forall i, j :: 0 <= i < j < |rs| && rs[j].op == OP_ENQUEUE ==> !Names(rs[i], rs[j].id))
  }

  ghost predicate HasEnqueue(rs: seq<Record>, id: string) {
    exists i :: 0 <= i < |rs| && Enqueues(rs[i], id)
  }

  ghost predicate HasDequeue(rs: seq<Record>, id: string) {
    exists i :: 0 <= i < |rs| && Dequeues(rs[i], id)
  }

  ghost predicate HistoryOk(w: World, synced: seq<Record>) {
    && (forall id :: id in w.submitted ==> w.submitted[id].id == id)
    && (forall id :: id in w.attempted ==> id in w.submitted)
    && (forall i, j :: 0 <= i < j < |w.delivered| ==> w.delivered[i] != w.delivered[j])
    && (forall id :: id in w.delivered ==> HasDequeue(synced, id))
    && (forall id :: id in w.accepted ==> HasEnqueue(synced, id))
  }

  /** A message that came from its ENQUEUE and was not handed out. */
  ghost predicate Outstanding(m: Message, submitted: map<string, Message>, delivered: seq<string>, rs: seq<Record>) {
    && m.id in submitted && submitted[m.id] == m
    && HasEnqueue(rs, m.id)
    && m.id !in delivered
  }

  /** The message of the operation in progress, while it is not in memory. */
  ghost predicate InFlight(phase: Phase, id: string) {
    match phase
    case Idle | Down => false
    case Inserted(_) => false
    case _ => phase.m.id == id
  }

  ghost predicate HeldOk(w: World, rs: seq<Record>) {
    && w.queue.WellFormed()
    && (forall e :: e in w.queue.Held() ==> Outstanding(e.msg, w.submitted, w.delivered, rs) && !InFlight(w.phase, e.msg.id))
  }

  ghost predicate PhaseOk(w: World, rs: seq<Record>, synced: seq<Record>, tail: Tail) {
    match w.phase
    case Idle | Down => true
    case Submitting(m) =>
      && m.id != "" && m.id in w.submitted && w.submitted[m.id] == m && m.seqNo >= 1 && m.status == STATUS_PENDING
      && forall i :: 0 <= i < |WithTail(rs, tail)| ==> !Names(WithTail(rs, tail)[i], m.id)
    case Submitted(m) => Outstanding(m, w.submitted, w.delivered, rs)
    case Stored(m) => Outstanding(m, w.submitted, w.delivered, rs) && HasEnqueue(synced, m.id)
    case Inserted(m) => HasEnqueue(synced, m.id)
    case Taken(m) => Outstanding(m, w.submitted, w.delivered, rs)
    case Marked(m) => Outstanding(m, w.submitted, w.delivered, rs) && HasDequeue(rs, m.id)
    case Consumed(m) => Outstanding(m, w.submitted, w.delivered, rs) && HasDequeue(synced, m.id)
  }

  ghost predicate LedgerOk(w: World, rs: seq<Record>, d: nat, tail: Tail) {
    && d <= |rs|
    && RecordsOk(WithTail(rs, tail), w.submitted, w.attempted)
    && HistoryOk(w, rs[..d])
    && (!w.phase.Down? ==> HeldOk(w, rs))
    && PhaseOk(w, rs, rs[..d], tail)
  }

  // ---------- Facts about records ----------

  lemma HasOneMore(rs: seq<Record>, r: Record, id: string)
    ensures HasEnqueue(rs + [r], id) <==> HasEnqueue(rs, id) || Enqueues(r, id)
    ensures HasDequeue(rs + [r], id) <==> HasDequeue(rs, id) || Dequeues(r, id)
  {
    var all := rs + [r];
    assert all[|rs|] == r;
    assert forall i :: 0 <= i < |rs| ==> all[i] == rs[i];
  }

  lemma HasInPrefix(rs: seq<Record>, m: nat, id: string)
    requires m <= |rs|
    ensures HasEnqueue(rs[..m], id) ==> HasEnqueue(rs, id)
    ensures HasDequeue(rs[..m], id) ==> HasDequeue(rs, id)
  {
    assert forall i :: 0 <= i < m ==> rs[..m][i] == rs[i];
  }

  lemma RecordsOkPrefix(some: seq<Record>, rs: seq<Record>, submitted: map<string, Message>, attempted: set<string>)
    requires RecordsOk(rs, submitted, attempted) && some <= rs
    ensures RecordsOk(some, submitted, attempted)
  {
    assert forall i :: 0 <= i < |some| ==> some[i] == rs[i];
  }

  lemma RecordsOkAppend(rs: seq<Record>, r: Record, submitted: map<string, Message>, attempted: set<string>)
    requires RecordsOk(rs, submitted, attempted) && RecordOk(r, submitted, attempted)
    requires r.op == OP_ENQUEUE ==> forall i :: 0 <= i < |rs| ==> !Names(rs[i], r.id)
    ensures RecordsOk(rs + [r], submitted, attempted)
  {
  }

  /** More submissions and attempts leave the records in order. */
  lemma RecordsOkFrame(rs: seq<Record>, submitted: map<string, Message>, attempted: set<string>,
                       submitted': map<string, Message>, attempted': set<string>)
    requires RecordsOk(rs, submitted, attempted)
    requires forall id :: id in submitted ==> id in submitted' && submitted'[id] == submitted[id]
    requires attempted <= attempted'
    ensures RecordsOk(rs, submitted', attempted')
  {
    forall i | 0 <= i < |rs| ensures RecordOk(rs[i], submitted', attempted') {
      assert RecordOk(rs[i], submitted, attempted);
    }
  }

  /** An ID is live exactly when it was enqueued and never dequeued, and then with its own message. */
  lemma {:induction false} LiveIffNotDequeued(rs: seq<Record>, submitted: map<string, Message>, attempted: set<string>, id: string)
    requires RecordsOk(rs, submitted, attempted)
    ensures id in LiveIn(rs) <==> HasEnqueue(rs, id) && !HasDequeue(rs, id)
    ensures id in LiveIn(rs) ==> id in submitted && LiveIn(rs)[id] == submitted[id]
  {
    if rs != [] {
      var before, r := rs[..|rs| - 1], rs[|rs| - 1];
      RecordsOkPrefix(before, rs, submitted, attempted);
      LiveIffNotDequeued(before, submitted, attempted, id);
      assert RecordOk(r, submitted, attempted);
      ApplyActsOnEachId(LiveIn(before), r, id);
      HasOneMore(before, r, id);
      assert rs == before + [r];
      if Enqueues(r, id) {
        assert forall j :: 0 <= j < |before| ==> before[j] == rs[j] && !Names(before[j], id);
      }
    }
  }

  // ---------- Steps ----------

  /** An Enqueue begins under an ID that none was begun for before. */
  predicate IsFresh(w: World, step: Step) {
    step.Submit? ==> step.id !in w.submitted
  }

  lemma SubmitKeeps(c: RecordCodec, w: World, rs: seq<Record>, d: nat, tail: Tail, step: Step)
    requires LedgerOk(w, rs, d, tail) && step.Submit? && Enabled(c, w, step) && IsFresh(w, step)
    ensures LedgerOk(Next(c, w, step), rs, d, tail)
  {
    var w' := Next(c, w, step);
    var all := WithTail(rs, tail);
    RecordsOkFrame(all, w.submitted, w.attempted, w'.submitted, w'.attempted);
    forall i | 0 <= i < |all| ensures !Names(all[i], step.id) {
      assert RecordOk(all[i], w.submitted, w.attempted);
    }
    forall e | e in w.queue.Held() ensures e.msg.id != step.id {
      assert Outstanding(e.msg, w.submitted, w.delivered, rs);
    }
  }

  /** Pushing the message in flight, which is not held. */
  lemma PushedBack(w: World, m: Message, rs: seq<Record>)
    requires HeldOk(w, rs) && InFlight(w.phase, m.id)
    ensures var q := w.queue.Push(m);
            && q.WellFormed()
            && (forall e :: e in q.Held() ==> e.msg == m || e in w.queue.Held())
            && (forall e :: e in w.queue.Held() ==> e.msg.id != m.id)
  {
    PushKeepsWellFormed(w.queue, m);
    assert !w.queue.Holds(m.id);
    assert w.queue.Push(m).Held() == w.queue.Held() + {Entry(m, w.queue.nextOrder)};
  }

  lemma InsertKeeps(w: World, rs: seq<Record>, d: nat, tail: Tail)
    requires LedgerOk(w, rs, d, tail) && w.phase.Stored?
    ensures LedgerOk(w.(queue := w.queue.Push(w.phase.m), phase := Inserted(w.phase.m)), rs, d, tail)
  {
    PushedBack(w, w.phase.m, rs);
  }

  lemma AcceptKeeps(w: World, rs: seq<Record>, d: nat, tail: Tail)
    requires LedgerOk(w, rs, d, tail) && w.phase.Inserted?
    ensures LedgerOk(w.(accepted := w.accepted + {w.phase.m.id}, phase := Idle), rs, d, tail)
  {
  }

  lemma FewerHeldKeeps(w: World, q: QueueState, rs: seq<Record>, d: nat, tail: Tail)
    requires LedgerOk(w, rs, d, tail) && w.phase.Idle? && q.WellFormed() && q.Held() <= w.queue.Held()
    ensures LedgerOk(w.(queue := q), rs, d, tail)
  {
  }

  lemma TakeKeeps(w: World, rs: seq<Record>, d: nat, tail: Tail, now: Time)
    requires LedgerOk(w, rs, d, tail) && w.phase.Idle?
    ensures var (q, r) := w.queue.Pop(now);
            LedgerOk(w.(queue := q, phase := if r == None then Idle else Taken(r.value)), rs, d, tail)
  {
    var (q, r) := w.queue.Pop(now);
    PopKeepsWellFormed(w.queue, now);
    PromoteKeepsWellFormed(w.queue, now);
    if r.Some? {
      var e := First(BySelection(w.queue.mode), w.queue.Promote(now).ready).value;
      assert e in w.queue.Held() && q.Held() == w.queue.Held() - {e};
      forall x | x in q.Held() ensures x.msg.id != e.msg.id {
        assert !SameId(x, e);
      }
    }
    FewerHeldKeeps(w, q, rs, d, tail);
  }

  lemma LookKeeps(w: World, rs: seq<Record>, d: nat, tail: Tail, now: Time)
    requires LedgerOk(w, rs, d, tail) && w.phase.Idle?
    ensures LedgerOk(w.(queue := w.queue.Promote(now)), rs, d, tail)
  {
    PromoteKeepsWellFormed(w.queue, now);
    FewerHeldKeeps(w, w.queue.Promote(now), rs, d, tail);
  }

  lemma DeliverKeeps(w: World, rs: seq<Record>, d: nat, tail: Tail)
    requires LedgerOk(w, rs, d, tail) && w.phase.Consumed?
    ensures LedgerOk(w.(delivered := w.delivered + [w.phase.m.id], phase := Idle), rs, d, tail)
  {
    var w' := w.(delivered := w.delivered + [w.phase.m.id], phase := Idle);
    forall e | e in w.queue.Held() ensures Outstanding(e.msg, w'.submitted, w'.delivered, rs) {
      assert !InFlight(w.phase, e.msg.id);
    }
  }

  /** The record an operation writes names its own message, and an ENQUEUE is the first to do so. */
  ghost predicate RecordFits(w: World, rs: seq<Record>, r: Record) {
    && (w.phase.Submitting? || w.phase.Taken?)
    && r.id == w.phase.m.id && r.id != ""
    && (w.phase.Submitting? ==> r.op == OP_ENQUEUE && MessageOf(r) == w.phase.m
                                && r.id in w.submitted && w.submitted[r.id] == w.phase.m
                                && forall i :: 0 <= i < |rs| ==> !Names(rs[i], r.id))
    && (w.phase.Taken? ==> r.op == OP_DEQUEUE && Outstanding(w.phase.m, w.submitted, w.delivered, rs))
  }

  lemma PendingFits(w: World, rs: seq<Record>, d: nat, ts: Time)
    requires LedgerOk(w, rs, d, NoTail) && (w.phase.Submitting? || w.phase.Taken?)
    ensures RecordFits(w, rs, Pending(w, ts))
  {
    if w.phase.Submitting? {
      EnqueueRecordKeepsMessage(w.phase.m, w.recordNo + 1, ts);
    } else {
      var i :| 0 <= i < |rs| && Enqueues(rs[i], w.phase.m.id);
    }
  }

  function Attempted(w: World): set<string>
    requires w.phase.Submitting? || w.phase.Taken?
  {
    if w.phase.Taken? then w.attempted + {w.phase.m.id} else w.attempted
  }

  lemma RecordsOkOneMore(w: World, rs: seq<Record>, r: Record)
    requires RecordsOk(rs, w.submitted, w.attempted) && RecordFits(w, rs, r)
    ensures RecordsOk(rs, w.submitted, Attempted(w)) && RecordsOk(rs + [r], w.submitted, Attempted(w))
  {
    RecordsOkFrame(rs, w.submitted, w.attempted, w.submitted, Attempted(w));
    RecordsOkAppend(rs, r, w.submitted, Attempted(w));
  }

  /** A message whose ENQUEUE is being written has no tombstone, so it was not handed out. */
  lemma NotYetDelivered(w: World, rs: seq<Record>, d: nat, r: Record)
    requires d <= |rs| && HistoryOk(w, rs[..d]) && RecordFits(w, rs, r) && w.phase.Submitting?
    ensures r.id !in w.delivered
  {
    HasInPrefix(rs, d, r.id);
  }

  /** More records leave what is held outstanding. */
  lemma HeldWithMore(w: World, rs: seq<Record>, r: Record)
    requires HeldOk(w, rs)
    ensures HeldOk(w, rs + [r])
  {
    forall e | e in w.queue.Held() ensures Outstanding(e.msg, w.submitted, w.delivered, rs + [r]) {
      HasOneMore(rs, r, e.msg.id);
    }
  }

  lemma WriteKeeps(c: RecordCodec, w: World, rs: seq<Record>, d: nat, ts: Time)
    requires LedgerOk(w, rs, d, NoTail) && Enabled(c, w, Write(ts))
    ensures LedgerOk(Next(c, w, Write(ts)), rs + [Pending(w, ts)], d, NoTail)
  {
    var r := Pending(w, ts);
    PendingFits(w, rs, d, ts);
    RecordsOkOneMore(w, rs, r);
    HeldWithMore(w, rs, r);
    HasOneMore(rs, r, r.id);
    assert (rs + [r])[..d] == rs[..d];
    if w.phase.Submitting? {
      NotYetDelivered(w, rs, d, r);
    }
  }

  /** An append was begun for the message in hand; some of its record may be in the file. */
  lemma AbandonKeeps(w: World, w': World, rs: seq<Record>, d: nat, tail: Tail)
    requires d <= |rs| && HistoryOk(w, rs[..d]) && HeldOk(w, rs)
    requires w.phase.Submitting? || w.phase.Submitted? || w.phase.Taken? || w.phase.Marked?
    requires w.phase.Taken? || w.phase.Marked? ==> Outstanding(w.phase.m, w.submitted, w.delivered, rs)
    requires w'.submitted == w.submitted && w'.delivered == w.delivered && w'.accepted == w.accepted && w'.phase.Idle?
    requires w'.attempted == if w.phase.Taken? then w.attempted + {w.phase.m.id} else w.attempted
    requires w'.queue == if w.phase.Taken? || w.phase.Marked? then w.queue.Push(w.phase.m) else w.queue
    requires RecordsOk(WithTail(rs, tail), w'.submitted, w'.attempted)
    ensures LedgerOk(w', rs, d, tail)
  {
    if w.phase.Taken? || w.phase.Marked? {
      PushedBack(w, w.phase.m, rs);
    }
  }

  lemma WriteFailsKeeps(c: RecordCodec, w: World, rs: seq<Record>, d: nat, ts: Time, kept: nat, rs': seq<Record>, tail': Tail)
    requires LedgerOk(w, rs, d, NoTail) && Enabled(c, w, WriteFails(ts, kept))
    requires DiskMoves(c, w, WriteFails(ts, kept), rs, d, NoTail, rs', d, tail')
    ensures LedgerOk(Next(c, w, WriteFails(ts, kept)), rs', d, tail')
  {
    var r := Pending(w, ts);
    PendingFits(w, rs, d, ts);
    RecordsOkOneMore(w, rs, r);
    if rs' != rs {
      HeldWithMore(w, rs, r);
      HasOneMore(rs, r, r.id);
      assert rs'[..d] == rs[..d];
    }
    AbandonKeeps(w, Next(c, w, WriteFails(ts, kept)), rs', d, tail');
  }

  lemma MoreIsSynced(w: World, rs: seq<Record>, d: nat)
    requires d <= |rs| && HistoryOk(w, rs[..d])
    ensures HistoryOk(w, rs)
  {
    forall id ensures HasEnqueue(rs[..d], id) ==> HasEnqueue(rs, id)
              ensures HasDequeue(rs[..d], id) ==> HasDequeue(rs, id) {
      HasInPrefix(rs, d, id);
    }
  }

  lemma SyncKeeps(c: RecordCodec, w: World, rs: seq<Record>, d: nat)
    requires LedgerOk(w, rs, d, NoTail) && Enabled(c, w, Sync)
    ensures LedgerOk(Next(c, w, Sync), rs, |rs|, NoTail)
  {
    assert rs[..|rs|] == rs;
    MoreIsSynced(w, rs, d);
    assert HistoryOk(Next(c, w, Sync), rs);
  }

  lemma CrashKeeps(w: World, w': World, rs: seq<Record>, d: nat, tail: Tail, rs': seq<Record>, tail': Tail)
    requires LedgerOk(w, rs, d, tail) && d <= |rs'| <= |rs| && rs' == rs[..|rs'|] && WithTail(rs', tail') <= WithTail(rs, tail)
    requires w' == w.(file := w'.file, phase := Down)
    ensures LedgerOk(w', rs', d, tail')
  {
    assert rs'[..d] == rs[..d];
    RecordsOkPrefix(WithTail(rs', tail'), WithTail(rs, tail), w.submitted, w.attempted);
  }

  lemma ForeignKeeps(w: World, w': World, rs: seq<Record>, d: nat, r: Record)
    requires LedgerOk(w, rs, d, NoTail) && w.phase.Down? && IsForeign(r)
    requires w' == w.(file := w'.file, recordNo := w'.recordNo)
    ensures LedgerOk(w', rs + [r], d, NoTail)
  {
    assert (rs + [r])[..d] == rs[..d];
    RecordsOkAppend(rs, r, w.submitted, w.attempted);
  }

  lemma RestartKeeps(w: World, w': World, rs: seq<Record>, d: nat)
    requires LedgerOk(w, rs, d, NoTail) && Reopened(w', rs)
    requires w'.submitted == w.submitted && w'.attempted == w.attempted && w'.delivered == w.delivered && w'.accepted == w.accepted
    ensures LedgerOk(w', rs, d, NoTail)
  {
    forall e | e in w'.queue.Held() ensures Outstanding(e.msg, w.submitted, w.delivered, rs) {
      LiveIffNotDequeued(rs, w.submitted, w.attempted, e.msg.id);
      HasInPrefix(rs, d, e.msg.id);
    }
  }

  lemma StepKeepsLedger(c: RecordCodec, w: World, rs: seq<Record>, d: nat, tail: Tail, step: Step,
                        rs': seq<Record>, d': nat, tail': Tail)
    requires LedgerOk(w, rs, d, tail) && Enabled(c, w, step) && IsFresh(w, step)
    requires DiskMoves(c, w, step, rs, d, tail, rs', d', tail')
    ensures LedgerOk(Next(c, w, step), rs', d', tail')
  {
    var w' := Next(c, w, step);
    match step
    case Submit(_, _, _) => SubmitKeeps(c, w, rs, d, tail, step);
    case Write(ts) => WriteKeeps(c, w, rs, d, ts);
    case WriteFails(ts, kept) => WriteFailsKeeps(c, w, rs, d, ts, kept, rs', tail');
    case Sync => SyncKeeps(c, w, rs, d);
    case SyncFails => AbandonKeeps(w, w', rs, d, tail);
    case Insert => InsertKeeps(w, rs, d, tail);
    case Accept => AcceptKeeps(w, rs, d, tail);
    case Take(now) => TakeKeeps(w, rs, d, tail, now);
    case Deliver => DeliverKeeps(w, rs, d, tail);
    case Look(now) => LookKeeps(w, rs, d, tail, now);
    case Crash(_) => CrashKeeps(w, w', rs, d, tail, rs', tail');
    case Foreign(r) => ForeignKeeps(w, w', rs, d, r);
    case Restart => RestartKeeps(w, w', rs, d);
  }

  // ---------- Whole runs ----------

  /** No two Enqueues of the run are begun under one ID, nor any under one of `seen`. */
  ghost predicate FreshIds(steps: seq<Step>, seen: set<string>)
    decreases |steps|
  {
    steps == [] ||
    if steps[0].Submit? then steps[0].id !in seen && FreshIds(steps[1..], seen + {steps[0].id})
    else FreshIds(steps[1..], seen)
  }

  /** All that a run keeps; the ledger only if IDs are fresh. */
  ghost predicate Inv(c: RecordCodec, w: World, rs: seq<Record>, d: nat, tail: Tail, freshIds: bool) {
    && DiskOk(c, w, rs, d, tail)
    && AgreeOk(w, rs, tail)
    && SeqsOk(w, rs, d, tail)
    && (freshIds ==> LedgerOk(w, rs, d, tail))
  }

  lemma StepKeeps(c: RecordCodec, w: World, rs: seq<Record>, d: nat, tail: Tail, step: Step, freshIds: bool)
    returns (rs': seq<Record>, d': nat, tail': Tail)
    requires c.Sound() && Inv(c, w, rs, d, tail, freshIds) && Enabled(c, w, step) && (freshIds ==> IsFresh(w, step))
    ensures Inv(c, Next(c, w, step), rs', d', tail', freshIds)
  {
    rs', d', tail' := StepMoves(c, w, rs, d, tail, step);
    StepAgrees(c, w, rs, d, tail, step, rs', d', tail');
    StepKeepsSeqs(c, w, rs, d, tail, step, rs', d', tail');
    if freshIds {
      StepKeepsLedger(c, w, rs, d, tail, step, rs', d', tail');
    }
  }

  lemma SubmittedAfter(c: RecordCodec, w: World, step: Step)
    requires Enabled(c, w, step)
    ensures Next(c, w, step).submitted.Keys == w.submitted.Keys + if step.Submit? then {step.id} else {}
  {
  }

  lemma {:induction false} RunKeeps(c: RecordCodec, w: World, rs: seq<Record>, d: nat, tail: Tail, steps: seq<Step>, freshIds: bool)
    returns (rs': seq<Record>, d': nat, tail': Tail)
    requires c.Sound() && Inv(c, w, rs, d, tail, freshIds) && Runs(c, w, steps)
    requires freshIds ==> FreshIds(steps, w.submitted.Keys)
    ensures Inv(c, After(c, w, steps), rs', d', tail', freshIds)
    decreases |steps|
  {
    rs', d', tail' := rs, d, tail;
    if steps != [] {
      rs', d', tail' := StepKeeps(c, w, rs, d, tail, steps[0], freshIds);
      SubmittedAfter(c, w, steps[0]);
      assert w.submitted.Keys + {} == w.submitted.Keys;
      rs', d', tail' := RunKeeps(c, Next(c, w, steps[0]), rs', d', tail', steps[1..], freshIds);
    }
  }

  lemma StartIsOk(c: RecordCodec, mode: Mode)
    ensures Inv(c, Start(mode), [], 0, NoTail, true)
  {
    var none: seq<Record> := [];
    assert LogText(c, none) == "" && none[..0] == none;
    StartAgrees(mode);
    StartHasNoSeqs(mode);
    StartHasNoHistory(mode);
  }

  lemma StartAgrees(mode: Mode)
    ensures AgreeOk(Start(mode), [], NoTail)
  {
    var none: seq<Record> := [];
    assert LiveIn(none) == map[];
  }

  lemma StartHasNoSeqs(mode: Mode)
    ensures SeqsOk(Start(mode), [], 0, NoTail)
  {
    var none: seq<Record> := [];
    assert none[..0] == none && InLogOrder(none) == [];
  }

  lemma StartHasNoHistory(mode: Mode)
    ensures LedgerOk(Start(mode), [], 0, NoTail)
  {
  }

  /** The state after a run from a new queue. */
  lemma RunIsOk(c: RecordCodec, mode: Mode, steps: seq<Step>, freshIds: bool) returns (rs: seq<Record>, d: nat, tail: Tail)
    requires c.Sound() && Runs(c, Start(mode), steps) && (freshIds ==> FreshIds(steps, {}))
    ensures Inv(c, After(c, Start(mode), steps), rs, d, tail, freshIds)
  {
    StartIsOk(c, mode);
    assert Start(mode).submitted.Keys == {};
    rs, d, tail := RunKeeps(c, Start(mode), [], 0, NoTail, steps, freshIds);
  }

  /** A crash that leaves so much of the file. */
  function CutTo(w: World, cut: nat): World
    requires cut <= |w.file|
  {
    w.(file := w.file[..cut], phase := Down)
  }

  /** What recovery reads after a run and a last crash: records of the run in order, the synced ones among them. */
  lemma LastCrash(c: RecordCodec, w: World, rs: seq<Record>, d: nat, tail: Tail, cut: nat) returns (read: seq<Record>)
    requires c.Sound() && DiskOk(c, w, rs, d, tail) && w.synced <= cut <= |w.file|
    ensures ReadBack(c, w.file[..cut]) == Ok(read)
    ensures read <= WithTail(rs, tail) && d <= |read| && read[..d] == rs[..d]
  {
    var rs', tail' := CrashMoves(c, w, rs, d, tail, cut);
    read := DiskIsRead(c, CutTo(w, cut), rs', d, tail');
    assert rs'[..d] == rs[..d];
    assert read <= WithTail(rs', tail') && read[..d] == rs'[..d];
  }

  // ---------- The ledger ----------

  /** What recovery would read from a file cut anywhere after the synced part. */
  ghost predicate LedgerHolds(c: RecordCodec, w: World, cut: nat)
    requires cut <= |w.file|
  {
    match ReadBack(c, w.file[..cut])
    case Err(_) => false
    case Ok(rs) =>
      var live := LiveIn(rs);
      && (forall id :: id in w.delivered ==> id !in live)
      && (forall id :: id in w.accepted && !HasDequeue(rs, id) ==> id in live)
      && (forall id :: id in w.accepted && id !in w.attempted ==> id in live)
      && (forall id :: id in live ==> id in w.submitted && live[id] == w.submitted[id])
  }

  lemma ReadKeepsLedger(w: World, rs: seq<Record>, d: nat, read: seq<Record>, id: string)
    requires d <= |rs| && d <= |read| && read[..d] == rs[..d] && HistoryOk(w, rs[..d])
    requires RecordsOk(read, w.submitted, w.attempted)
    ensures id in w.delivered ==> id !in LiveIn(read)
    ensures id in w.accepted && !HasDequeue(read, id) ==> id in LiveIn(read)
    ensures id in w.accepted && id !in w.attempted ==> id in LiveIn(read)
    ensures id in LiveIn(read) ==> id in w.submitted && LiveIn(read)[id] == w.submitted[id]
  {
    LiveIffNotDequeued(read, w.submitted, w.attempted, id);
    HasInPrefix(read, d, id);
    if HasDequeue(read, id) {
      var i :| 0 <= i < |read| && Dequeues(read[i], id);
      assert RecordOk(read[i], w.submitted, w.attempted);
    }
  }

  /**
   * After any run of protocol steps, crashes and restarts under fresh IDs, whatever a last crash leaves
   * of the file: recovery succeeds; no message that Dequeue returned is recovered; every message whose
   * Enqueue returned success is, unless a tombstone for it survives, and in any case if none was begun;
   * and everything recovered was submitted and is unchanged. No message was returned twice.
   */
  lemma NothingLostNothingTwice(c: RecordCodec, mode: Mode, steps: seq<Step>, cut: nat)
    requires c.Sound() && Runs(c, Start(mode), steps) && FreshIds(steps, {})
    requires After(c, Start(mode), steps).synced <= cut <= |After(c, Start(mode), steps).file|
    ensures var w := After(c, Start(mode), steps);
            && LedgerHolds(c, w, cut)
            && forall i, j :: 0 <= i < j < |w.delivered| ==> w.delivered[i] != w.delivered[j]
  {
    var w := After(c, Start(mode), steps);
    var rs, d, tail := RunIsOk(c, mode, steps, true);
    LedgerAfter(c, w, rs, d, tail, cut);
  }

  lemma LedgerAfter(c: RecordCodec, w: World, rs: seq<Record>, d: nat, tail: Tail, cut: nat)
    requires c.Sound() && DiskOk(c, w, rs, d, tail) && LedgerOk(w, rs, d, tail) && w.synced <= cut <= |w.file|
    ensures LedgerHolds(c, w, cut)
  {
    var read := LastCrash(c, w, rs, d, tail, cut);
    RecordsOkPrefix(read, WithTail(rs, tail), w.submitted, w.attempted);
    forall id
      ensures id in w.delivered ==> id !in LiveIn(read)
      ensures id in w.accepted && !HasDequeue(read, id) ==> id in LiveIn(read)
      ensures id in w.accepted && id !in w.attempted ==> id in LiveIn(read)
      ensures id in LiveIn(read) ==> id in w.submitted && LiveIn(read)[id] == w.submitted[id]
    {
      ReadKeepsLedger(w, rs, d, read, id);
    }
  }

  // ---------- Memory and log, numbers and Seqs ----------

  /**
   * While the service is up, what recovery would read of the file agrees with memory on every ID none of
   * whose appends returned an error since the service was opened: the same message, or none in both.
   * Only the message of the operation in progress may be ahead in one of them.
   */
  lemma MemoryAgreesOutsideDoubt(c: RecordCodec, mode: Mode, steps: seq<Step>) returns (read: seq<Record>)
    requires c.Sound() && Runs(c, Start(mode), steps) && !After(c, Start(mode), steps).phase.Down?
    ensures var w := After(c, Start(mode), steps);
            && ReadBack(c, w.file) == Ok(read)
            && (forall id :: id !in w.doubtful ==> LogOf(read, id) == Logged(w.phase, id, MemoryOf(w.queue, id)))
            && (forall id :: id !in w.doubtful && !InFlight(w.phase, id) ==> LogOf(read, id) == MemoryOf(w.queue, id))
  {
    var w := After(c, Start(mode), steps);
    var rs, d, tail := RunIsOk(c, mode, steps, false);
    read := DiskIsRead(c, w, rs, d, tail);
    ReadAgrees(w, rs, tail, read);
  }

  /**
   * After any run, whatever a last crash leaves of the file, the numbers of the records that recovery
   * reads strictly ascend, and none is above the writer's counter; records of unknown operations that
   * others wrote are among them.
   */
  lemma RecordNumbersAscend(c: RecordCodec, mode: Mode, steps: seq<Step>, cut: nat) returns (read: seq<Record>)
    requires c.Sound() && Runs(c, Start(mode), steps)
    requires After(c, Start(mode), steps).synced <= cut <= |After(c, Start(mode), steps).file|
    ensures var w := After(c, Start(mode), steps);
            ReadBack(c, w.file[..cut]) == Ok(read) && Numbered(read, w.recordNo)
  {
    var w := After(c, Start(mode), steps);
    var rs, d, tail := RunIsOk(c, mode, steps, false);
    read := LastCrash(c, w, rs, d, tail, cut);
    PrefixIsNumbered(read, WithTail(rs, tail), w.recordNo);
  }

  lemma PrefixIsNumbered(a: seq<Record>, b: seq<Record>, last: nat)
    requires a <= b && Numbered(b, last)
    ensures Numbered(a, last)
  {
    assert a == b[..|a|];
  }

  /** A restarted service whose live Seqs are distinct, bounded by its counter and in log order. */
  ghost predicate SeqsRestored(c: RecordCodec, mode: Mode, file: string, synced: nat, read: seq<Record>) {
    var r := Service.Restart(c, mode, file, synced);
    && r.Ok?
    && DistinctSeqs(r.value.queue.Held())
    && (forall e :: e in r.value.queue.Held() ==> 1 <= e.msg.seqNo <= r.value.seqNo)
    && Listing(LiveIn(read)) == InLogOrder(read)
  }

  lemma AscendingIsRestored(c: RecordCodec, mode: Mode, file: string, synced: nat, read: seq<Record>)
    requires ReadBack(c, file) == Ok(read) && Ascends(read)
    ensures SeqsRestored(c, mode, file, synced, read)
  {
    RestartHoldsTheRead(c, mode, file, read, synced);
    ListingIsLogOrder(read, MaxSeq(InLogOrder(read)));
    SeqsOfLive(read, MaxSeq(InLogOrder(read)), Service.Restart(c, mode, file, synced).value.queue);
  }

  /**
   * After any run, with crashes anywhere and IDs that may repeat, and whatever a last crash leaves of the
   * file: if none of the ENQUEUE records left was one whose append returned an error, the service
   * restarted over it has distinct live Seqs, none above its counter, and recovers the messages in the
   * order in which they were enqueued.
   */
  lemma LiveSeqsStayDistinct(c: RecordCodec, mode: Mode, steps: seq<Step>, cut: nat) returns (read: seq<Record>)
    requires c.Sound() && Runs(c, Start(mode), steps)
    requires After(c, Start(mode), steps).synced <= cut <= |After(c, Start(mode), steps).file|
    ensures var w := After(c, Start(mode), steps);
            && ReadBack(c, w.file[..cut]) == Ok(read)
            && (NoneRefused(read, w.refused) ==> SeqsRestored(c, mode, w.file[..cut], w.synced, read))
  {
    var w := After(c, Start(mode), steps);
    var rs, d, tail := RunIsOk(c, mode, steps, false);
    read := LastCrash(c, w, rs, d, tail, cut);
    var all := WithTail(rs, tail);
    assert read == all[..|read|] && AscendsAt(w.refused, all, |read|);
    if NoneRefused(read, w.refused) {
      AscendingIsRestored(c, mode, w.file[..cut], w.synced, read);
    }
  }

  /**
   * The same of memory while the service is up: messages held, not in doubt and not in progress, have
   * distinct Seqs, none above the counter.
   */
  lemma HeldSeqsAreDistinct(c: RecordCodec, mode: Mode, steps: seq<Step>, a: Entry, b: Entry) returns (read: seq<Record>)
    requires c.Sound() && Runs(c, Start(mode), steps) && !After(c, Start(mode), steps).phase.Down?
    requires var w := After(c, Start(mode), steps);
             && a in w.queue.Held() && a.msg.id !in w.doubtful && !InFlight(w.phase, a.msg.id)
             && b in w.queue.Held() && b.msg.id !in w.doubtful && !InFlight(w.phase, b.msg.id)
    ensures var w := After(c, Start(mode), steps);
            && ReadBack(c, w.file) == Ok(read)
            && (NoneRefused(read, w.refused) ==>
                  && 1 <= a.msg.seqNo <= w.seqNo
                  && (a.msg.seqNo == b.msg.seqNo ==> a == b))
  {
    var w := After(c, Start(mode), steps);
    var rs, d, tail := RunIsOk(c, mode, steps, false);
    read := DiskIsRead(c, w, rs, d, tail);
    ReadAgrees(w, rs, tail, read);
    HeldIsLogged(w, read, a);
    HeldIsLogged(w, read, b);
    var all := WithTail(rs, tail);
    assert read == all[..|read|] && BoundedAt(w.refused, all, |read|, Top(w));
    if NoneRefused(read, w.refused) {
      TwoLiveSeqs(read, Top(w), a.msg, b.msg);
      assert SameId(a, b) ==> a == b;
    }
  }

  lemma HeldIsLogged(w: World, read: seq<Record>, e: Entry)
    requires w.queue.WellFormed() && AgreeOn(w.queue, w.phase, w.doubtful, read)
    requires e in w.queue.Held() && e.msg.id !in w.doubtful && !InFlight(w.phase, e.msg.id)
    ensures LogOf(read, e.msg.id) == Some(e.msg)
  {
    MemoryIs(w.queue, e);
  }

  lemma TwoLiveSeqs(rs: seq<Record>, top: nat, a: Message, b: Message)
    requires AscendingSeqs(InLogOrder(rs), top) && LogOf(rs, a.id) == Some(a) && LogOf(rs, b.id) == Some(b)
    ensures 1 <= a.seqNo <= top && (a.seqNo == b.seqNo ==> a.id == b.id)
  {
    var ms := InLogOrder(rs);
    LogOrderListsLive(rs);
    assert HasId(ms, a.id) && HasId(ms, b.id);
    var i :| 0 <= i < |ms| && ms[i].id == a.id;
    var j :| 0 <= j < |ms| && ms[j].id == b.id;
    assert ms[i] == a && ms[j] == b;
  }
}
