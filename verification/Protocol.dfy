/**
 * The WAL-first protocol one step at a time, with a crash possible before and after every step
 * (pkg/service/queue_service.go:95-150, pkg/storage/wal.go:414-435), and what the steps do to the file.
 * Appends may fail and leave any part of their bytes; a crash keeps what was synced and any prefix of
 * the rest; IDs may repeat; while the service is down another program may add records of operations
 * that it does not know. The one thing asked of a run is that no record is written, and no restart
 * made, over a log that does not end in a newline.
 */
module Protocol {
  import opened Model
  import opened Selection
  import opened Scheduling
  import opened Codec
  import opened Replay
  import opened Log
  import opened Wal
  import opened Service
  import opened Durability

  datatype Phase =
    | Idle
    | Submitting(m: Message)  // Seq assigned, nothing written
    | Submitted(m: Message)   // ENQUEUE written, not synced
    | Stored(m: Message)      // ENQUEUE synced, not in memory
    | Inserted(m: Message)    // in memory, not yet returned
    | Taken(m: Message)       // popped, nothing written
    | Marked(m: Message)      // tombstone written, not synced
    | Consumed(m: Message)    // tombstone synced, not yet returned
    | Down

  datatype World = World(
    queue: QueueState, seqNo: nat, recordNo: nat, phase: Phase,
    file: string, synced: nat,
    submitted: map<string, Message>,  // the message an Enqueue was last begun for, by ID
    accepted: set<string>,            // those whose Enqueue returned success
    attempted: set<string>,           // those a tombstone was begun for
    delivered: seq<string>,           // what Dequeue returned, in order
    doubtful: set<string>,            // those an append returned an error for since the service was opened
    refused: set<nat>)                // numbers of the ENQUEUE records whose append returned an error

  datatype Step =
    | Submit(req: EnqueueRequest, id: string, now: Time)
    | Write(ts: Time)
    | WriteFails(ts: Time, kept: nat)
    | Sync
    | SyncFails
    | Insert
    | Accept
    | Take(now: Time)
    | Deliver
    | Look(now: Time)
    | Crash(cut: nat)
    | Foreign(r: Record)
    | Restart

  /** The record the step in progress is about to write. */
  function Pending(w: World, ts: Time): Record
    requires w.phase.Submitting? || w.phase.Taken?
  {
    Stamp(if w.phase.Submitting? then EnqueueRecord(w.phase.m) else DequeueRecord(w.phase.m.id),
          w.recordNo + 1, ts)
  }

  predicate IsForeign(r: Record) {
    r.op != OP_ENQUEUE && r.op != OP_DEQUEUE
  }

  /** r is numbered above all that the file holds. */
  ghost predicate IsNewest(c: RecordCodec, file: string, r: Record) {
    match ReadBack(c, file)
    case Err(_) => false
    case Ok(rs) => Fold(NOTHING, rs).maxNo < r.recordNo
  }

  ghost predicate Enabled(c: RecordCodec, w: World, step: Step) {
    match step
    case Submit(req, id, now) => w.phase.Idle? && req.Validate() == None && id != ""
    case Write(_) | WriteFails(_, _) => (w.phase.Submitting? || w.phase.Taken?) && NewlineEnded(w.file)
    case Sync | SyncFails => w.phase.Submitted? || w.phase.Marked?
    case Insert => w.phase.Stored?
    case Accept => w.phase.Inserted?
    case Take(_) | Look(_) => w.phase.Idle?
    case Deliver => w.phase.Consumed?
    case Crash(cut) => !w.phase.Down? && w.synced <= cut <= |w.file|
    case Foreign(r) => w.phase.Down? && NewlineEnded(w.file) && IsForeign(r) && IsNewest(c, w.file, r)
    case Restart => w.phase.Down? && NewlineEnded(w.file)
  }

  /** An append returned an error: Enqueue gives its Seq back, Dequeue puts its message back. */
  ghost function Abandon(w: World): World
    requires w.phase.Submitting? || w.phase.Submitted? || w.phase.Taken? || w.phase.Marked?
  {
    var m := w.phase.m;
    var w' := w.(phase := Idle, doubtful := w.doubtful + {m.id});
    if w.phase.Submitting? || w.phase.Submitted? then
      w'.(seqNo := if w.seqNo > 0 then w.seqNo - 1 else 0, refused := w.refused + {w.recordNo})
    else w'.(queue := w.queue.Push(m))
  }

  /** Bytes reach the file, under a number that may have been given before to a record since lost. */
  ghost function Append(w: World, bytes: string): World
    requires w.phase.Submitting? || w.phase.Taken?
  {
    w.(file := w.file + bytes, recordNo := w.recordNo + 1, refused := w.refused - {w.recordNo + 1},
       attempted := if w.phase.Taken? then w.attempted + {w.phase.m.id} else w.attempted)
  }

  ghost function Next(c: RecordCodec, w: World, step: Step): World
    requires Enabled(c, w, step)
  {
    match step
    case Submit(req, id, now) =>
      var m := MakeMessage(req, id, now, w.seqNo + 1);
      w.(seqNo := w.seqNo + 1, submitted := w.submitted[id := m], phase := Submitting(m))
    case Write(ts) =>
      Append(w, Line(c, Pending(w, ts))).(
        phase := if w.phase.Submitting? then Submitted(w.phase.m) else Marked(w.phase.m))
    case WriteFails(ts, kept) => Abandon(Append(w, Kept(Line(c, Pending(w, ts)), kept)))
    case Sync =>
      w.(synced := |w.file|, phase := if w.phase.Submitted? then Stored(w.phase.m) else Consumed(w.phase.m))
    case SyncFails => Abandon(w)
    case Insert => w.(queue := w.queue.Push(w.phase.m), phase := Inserted(w.phase.m))
    case Accept => w.(accepted := w.accepted + {w.phase.m.id}, phase := Idle)
    case Take(now) =>
      var (q, r) := w.queue.Pop(now);
      w.(queue := q, phase := if r == None then Idle else Taken(r.value))
    case Deliver => w.(delivered := w.delivered + [w.phase.m.id], phase := Idle)
    case Look(now) => w.(queue := w.queue.Promote(now))
    case Crash(cut) => w.(file := w.file[..cut], phase := Down)
    case Foreign(r) => w.(file := w.file + Line(c, r), recordNo := r.recordNo)
    case Restart =>
      match Service.Restart(c, w.queue.mode, w.file, w.synced)
      case Err(_) => w
      case Ok(s) => w.(queue := s.queue, seqNo := s.seqNo, recordNo := s.wal.recordNo, phase := Idle, doubtful := {})
  }

  // ---------- Runs ----------

  /** A new queue over an empty file. */
  function Start(mode: Mode): World {
    World(Empty(mode), 0, 0, Idle, "", 0, map[], {}, {}, [], {}, {})
  }

  ghost predicate Runs(c: RecordCodec, w: World, steps: seq<Step>)
    decreases |steps|
  {
    steps == [] || (Enabled(c, w, steps[0]) && Runs(c, Next(c, w, steps[0]), steps[1..]))
  }

  ghost function After(c: RecordCodec, w: World, steps: seq<Step>): World
    requires Runs(c, w, steps)
    decreases |steps|
  {
    if steps == [] then w else After(c, Next(c, w, steps[0]), steps[1..])
  }

  // ---------- What the disk holds ----------

  /** What follows the last newline. */
  datatype Tail = NoTail | Torn(r: Record, k: nat)

  ghost predicate TailOk(c: RecordCodec, tail: Tail) {
    tail.Torn? ==> 0 < tail.k <= |c.encode(tail.r)|
  }

  ghost function TailText(c: RecordCodec, tail: Tail): string
    requires TailOk(c, tail)
  {
    if tail.NoTail? then "" else c.encode(tail.r)[..tail.k]
  }

  function WithTail(rs: seq<Record>, tail: Tail): seq<Record> {
    if tail.NoTail? then rs else rs + [tail.r]
  }

  function LiveIn(rs: seq<Record>): Live {
    Fold(NOTHING, rs).live
  }

  /** The file is the whole records rs, of which the first d are synced, and a tail. */
  ghost predicate DiskOk(c: RecordCodec, w: World, rs: seq<Record>, d: nat, tail: Tail) {
    && TailOk(c, tail)
    && w.file == LogText(c, rs) + TailText(c, tail)
    && d <= |rs| && w.synced == |LogText(c, rs[..d])|
    && (w.phase.Submitted? || w.phase.Marked? ==> tail.NoTail?)
  }

  /** What a step does to the records, the synced ones among them and the torn one. */
  ghost predicate DiskMoves(c: RecordCodec, w: World, step: Step, rs: seq<Record>, d: nat, tail: Tail,
                            rs': seq<Record>, d': nat, tail': Tail)
    requires Enabled(c, w, step)
  {
    match step
    case Write(ts) => tail.NoTail? && rs' == rs + [Pending(w, ts)] && d' == d && tail'.NoTail?
    case WriteFails(ts, _) =>
      && tail.NoTail? && d' == d
      && (|| (rs' == rs && (tail'.Torn? ==> tail'.r == Pending(w, ts)))
          || (rs' == rs + [Pending(w, ts)] && tail'.NoTail?))
    case Sync => rs' == rs && d' == |rs| && tail.NoTail? && tail'.NoTail?
    case Crash(_) => d' == d <= |rs'| <= |rs| && rs' == rs[..|rs'|] && WithTail(rs', tail') <= WithTail(rs, tail)
    case Foreign(r) =>
      tail.NoTail? && rs' == rs + [r] && d' == d && tail'.NoTail? && Fold(NOTHING, rs).maxNo < r.recordNo
    case Restart => rs' == rs && d' == d && tail.NoTail? && tail'.NoTail? && Reopened(Next(c, w, step), rs)
    case _ => rs' == rs && d' == d && tail' == tail
  }

  /** The service holds what the records say and counts on from them. */
  ghost predicate Reopened(w: World, rs: seq<Record>) {
    && w.queue.WellFormed() && Agrees(w.queue, LiveIn(rs))
    && w.seqNo == MaxSeq(Listing(LiveIn(rs))) && w.recordNo == Fold(NOTHING, rs).maxNo
    && w.phase.Idle? && w.doubtful == {}
  }

  lemma NewlineEndedHasNoTail(c: RecordCodec, rs: seq<Record>, tail: Tail)
    requires c.Sound() && TailOk(c, tail) && NewlineEnded(LogText(c, rs) + TailText(c, tail))
    ensures tail.NoTail?
  {
    if tail.Torn? {
      TornIsNotNewlineEnded(c, LogText(c, rs), tail.r, tail.k);
      assert false;
    }
  }

  /** A whole record at the end of a file without a tail. */
  lemma WholeLine(c: RecordCodec, rs: seq<Record>, d: nat, r: Record)
    requires d <= |rs|
    ensures LogText(c, rs) + "" + Line(c, r) == LogText(c, rs + [r]) + ""
    ensures (rs + [r])[..d] == rs[..d]
  {
    LogTextAppend(c, rs, r);
  }

  lemma WriteMoves(c: RecordCodec, w: World, rs: seq<Record>, d: nat, tail: Tail, ts: Time)
    requires c.Sound() && DiskOk(c, w, rs, d, tail) && Enabled(c, w, Write(ts))
    ensures var rs' := rs + [Pending(w, ts)];
            DiskOk(c, Next(c, w, Write(ts)), rs', d, NoTail) && DiskMoves(c, w, Write(ts), rs, d, tail, rs', d, NoTail)
  {
    NewlineEndedHasNoTail(c, rs, tail);
    WholeLine(c, rs, d, Pending(w, ts));
  }

  lemma WriteFailsMoves(c: RecordCodec, w: World, rs: seq<Record>, d: nat, tail: Tail, ts: Time, kept: nat)
    returns (rs': seq<Record>, tail': Tail)
    requires c.Sound() && DiskOk(c, w, rs, d, tail) && Enabled(c, w, WriteFails(ts, kept))
    ensures DiskOk(c, Next(c, w, WriteFails(ts, kept)), rs', d, tail')
    ensures DiskMoves(c, w, WriteFails(ts, kept), rs, d, tail, rs', d, tail')
  {
    NewlineEndedHasNoTail(c, rs, tail);
    var r := Pending(w, ts);
    if kept < |Line(c, r)| {
      rs', tail' := rs, if kept == 0 then NoTail else Torn(r, kept);
      assert Kept(Line(c, r), kept) == TailText(c, tail');
      assert LogText(c, rs) + "" + TailText(c, tail') == LogText(c, rs) + TailText(c, tail');
    } else {
      rs', tail' := rs + [r], NoTail;
      assert Kept(Line(c, r), kept) == Line(c, r);
      WholeLine(c, rs, d, r);
    }
  }

  /** A cut at or after the synced part leaves whole records, the synced ones among them, and a tail. */
  lemma CutSplits(c: RecordCodec, rs: seq<Record>, d: nat, tail: Tail, cut: nat)
    returns (m: nat, tail': Tail)
    requires TailOk(c, tail) && d <= |rs|
    requires |LogText(c, rs[..d])| <= cut <= |LogText(c, rs) + TailText(c, tail)|
    ensures d <= m <= |rs| && TailOk(c, tail')
    ensures (LogText(c, rs) + TailText(c, tail))[..cut] == LogText(c, rs[..m]) + TailText(c, tail')
    ensures WithTail(rs[..m], tail') <= WithTail(rs, tail)
  {
    var text := LogText(c, rs);
    assert rs[..|rs|] == rs;
    if cut < |text| {
      m, tail' := CutAmongRecords(c, rs, d, cut);
      assert (text + TailText(c, tail))[..cut] == text[..cut];
    } else if cut == |text| {
      m, tail' := |rs|, NoTail;
    } else {
      m, tail' := |rs|, Torn(tail.r, cut - |text|);
      assert TailText(c, tail)[..cut - |text|] == TailText(c, tail');
    }
  }

  lemma {:induction false} CutAmongRecords(c: RecordCodec, rs: seq<Record>, d: nat, cut: nat)
    returns (m: nat, tail: Tail)
    requires d <= |rs| && |LogText(c, rs[..d])| <= cut < |LogText(c, rs)|
    ensures d <= m <= |rs| && TailOk(c, tail)
    ensures LogText(c, rs)[..cut] == LogText(c, rs[..m]) + TailText(c, tail)
    ensures WithTail(rs[..m], tail) <= rs
    decreases |rs|
  {
    var n := |rs| - 1;
    var before, r := rs[..n], rs[n];
    CutWithinPrefix(c, rs, d, cut);
    if cut < |LogText(c, before)| {
      m, tail := CutAmongRecords(c, before, d, cut);
      assert before[..m] == rs[..m];
    } else if cut == |LogText(c, before)| {
      m, tail := n, NoTail;
    } else {
      m, tail := n, Torn(r, cut - |LogText(c, before)|);
      CutInsideRecord(c, LogText(c, before), r, "", cut);
      assert LogText(c, rs) == LogText(c, before) + Line(c, r) + "";
    }
  }

  lemma CutInsideRecord(c: RecordCodec, before: string, r: Record, after: string, cut: nat)
    requires |before| < cut <= |before| + |c.encode(r)|
    ensures (before + Line(c, r) + after)[..cut] == before + c.encode(r)[..cut - |before|]
  {
  }

  /** If the cut falls short of the end, some record is not synced. */
  lemma CutWithinPrefix(c: RecordCodec, rs: seq<Record>, d: nat, cut: nat)
    requires d <= |rs| && |LogText(c, rs[..d])| <= cut < |LogText(c, rs)|
    ensures d < |rs| && rs[..|rs| - 1][..d] == rs[..d]
  {
    assert rs[..|rs|] == rs;
  }

  lemma CrashMoves(c: RecordCodec, w: World, rs: seq<Record>, d: nat, tail: Tail, cut: nat)
    returns (rs': seq<Record>, tail': Tail)
    requires DiskOk(c, w, rs, d, tail) && w.synced <= cut <= |w.file|
    ensures DiskOk(c, w.(file := w.file[..cut], phase := Down), rs', d, tail')
    ensures d <= |rs'| <= |rs| && rs' == rs[..|rs'|] && WithTail(rs', tail') <= WithTail(rs, tail)
  {
    var m;
    m, tail' := CutSplits(c, rs, d, tail, cut);
    rs' := rs[..m];
    assert rs'[..d] == rs[..d];
  }

  lemma RestartMoves(c: RecordCodec, w: World, rs: seq<Record>, d: nat, tail: Tail)
    requires c.Sound() && DiskOk(c, w, rs, d, tail) && Enabled(c, w, Step.Restart)
    ensures DiskOk(c, Next(c, w, Step.Restart), rs, d, tail) && DiskMoves(c, w, Step.Restart, rs, d, tail, rs, d, tail)
  {
    NewlineEndedHasNoTail(c, rs, tail);
    assert w.file == LogText(c, rs);
    LogTextReadsBack(c, rs);
    WholeScan(c, ScanLines(LogText(c, rs)));
    RestartHoldsTheRead(c, w.queue.mode, w.file, rs, w.synced);
  }

  lemma ForeignMoves(c: RecordCodec, w: World, rs: seq<Record>, d: nat, tail: Tail, r: Record)
    requires c.Sound() && DiskOk(c, w, rs, d, tail) && Enabled(c, w, Foreign(r))
    ensures DiskOk(c, Next(c, w, Foreign(r)), rs + [r], d, NoTail)
    ensures DiskMoves(c, w, Foreign(r), rs, d, tail, rs + [r], d, NoTail)
  {
    NewlineEndedHasNoTail(c, rs, tail);
    assert w.file == LogText(c, rs);
    LogTextReadsBack(c, rs);
    WholeScan(c, ScanLines(LogText(c, rs)));
    WholeLine(c, rs, d, r);
  }

  lemma SyncMoves(c: RecordCodec, w: World, rs: seq<Record>, d: nat, tail: Tail)
    requires DiskOk(c, w, rs, d, tail) && Enabled(c, w, Sync)
    ensures DiskOk(c, Next(c, w, Sync), rs, |rs|, tail) && DiskMoves(c, w, Sync, rs, d, tail, rs, |rs|, tail)
  {
    assert rs[..|rs|] == rs;
  }

  lemma StepMoves(c: RecordCodec, w: World, rs: seq<Record>, d: nat, tail: Tail, step: Step)
    returns (rs': seq<Record>, d': nat, tail': Tail)
    requires c.Sound() && DiskOk(c, w, rs, d, tail) && Enabled(c, w, step)
    ensures DiskOk(c, Next(c, w, step), rs', d', tail') && DiskMoves(c, w, step, rs, d, tail, rs', d', tail')
  {
    rs', d', tail' := rs, d, tail;
    match step
    case Write(ts) =>
      WriteMoves(c, w, rs, d, tail, ts);
      rs', tail' := rs + [Pending(w, ts)], NoTail;
    case WriteFails(ts, kept) => rs', tail' := WriteFailsMoves(c, w, rs, d, tail, ts, kept);
    case Sync =>
      SyncMoves(c, w, rs, d, tail);
      d' := |rs|;
    case Crash(cut) => rs', tail' := CrashMoves(c, w, rs, d, tail, cut);
    case Foreign(r) =>
      ForeignMoves(c, w, rs, d, tail, r);
      rs', tail' := rs + [r], NoTail;
    case Restart => RestartMoves(c, w, rs, d, tail);
    case _ =>
  }

  /** What recovery reads of the file: its whole records, and the torn one if only its newline is missing. */
  lemma DiskIsRead(c: RecordCodec, w: World, rs: seq<Record>, d: nat, tail: Tail)
    returns (read: seq<Record>)
    requires c.Sound() && DiskOk(c, w, rs, d, tail)
    ensures ReadBack(c, w.file) == Ok(read)
    ensures read == rs || (tail.Torn? && read == rs + [tail.r])
  {
    if tail.NoTail? {
      TailReadsBack(c, rs, "");
      read := rs;
      assert rs + [] == rs;
    } else {
      CutInLast(c, rs, tail.r, tail.k);
      read := if tail.k == |c.encode(tail.r)| then rs + [tail.r] else rs;
    }
  }

  // ---------- The steps are the service's ----------

  ghost function ServiceOf(w: World): ServiceState {
    ServiceState(w.queue, WalState(w.file, w.synced, w.recordNo, true), w.seqNo, false)
  }

  lemma RunsOn(c: RecordCodec, w: World, step: Step, rest: seq<Step>)
    requires Enabled(c, w, step) && Runs(c, Next(c, w, step), rest)
    ensures Runs(c, w, [step] + rest)
    ensures After(c, w, [step] + rest) == After(c, Next(c, w, step), rest)
  {
    assert ([step] + rest)[1..] == rest;
  }

  /** The steps one Enqueue takes. */
  function EnqueueSteps(req: EnqueueRequest, id: string, now: Time, ts: Time, o: Outcome): seq<Step> {
    [Submit(req, id, now)] +
    (match o
     case Done => [Write(ts)] + ([Sync] + ([Insert] + ([Accept] + [])))
     case Failed(kept) => [WriteFails(ts, kept)] + [])
  }

  /** An Enqueue of the service is a run of its steps, with the same state at the end. */
  lemma EnqueueIsItsSteps(c: RecordCodec, w: World, req: EnqueueRequest, id: string, now: Time, ts: Time, o: Outcome)
    requires w.phase.Idle? && req.Validate() == None && id != "" && NewlineEnded(w.file)
    ensures var steps := EnqueueSteps(req, id, now, ts, o);
            && Runs(c, w, steps) && After(c, w, steps).phase.Idle?
            && ServiceOf(After(c, w, steps)) == ServiceOf(w).Enqueue(c, req, id, now, ts, o).0
            && (ServiceOf(w).Enqueue(c, req, id, now, ts, o).1.Ok? <==> o.Done?)
            && After(c, w, steps).accepted == w.accepted + if o.Done? then {id} else {}
  {
    var w1 := Next(c, w, Submit(req, id, now));
    match o {
      case Failed(kept) =>
        RunsOn(c, w1, WriteFails(ts, kept), []);
        RunsOn(c, w, Submit(req, id, now), [WriteFails(ts, kept)] + []);
      case Done =>
        var w2 := Next(c, w1, Write(ts));
        var w3 := Next(c, w2, Sync);
        var w4 := Next(c, w3, Insert);
        RunsOn(c, w4, Accept, []);
        RunsOn(c, w3, Insert, [Accept] + []);
        RunsOn(c, w2, Sync, [Insert] + ([Accept] + []));
        RunsOn(c, w1, Write(ts), [Sync] + ([Insert] + ([Accept] + [])));
        RunsOn(c, w, Submit(req, id, now), [Write(ts)] + ([Sync] + ([Insert] + ([Accept] + []))));
    }
  }

  /** The steps one Dequeue takes. */
  function DequeueSteps(found: bool, now: Time, ts: Time, o: Outcome): seq<Step> {
    [Take(now)] +
    (if !found then []
     else match o
       case Done => [Write(ts)] + ([Sync] + ([Deliver] + []))
       case Failed(kept) => [WriteFails(ts, kept)] + [])
  }

  /** So is a Dequeue. */
  lemma DequeueIsItsSteps(c: RecordCodec, w: World, now: Time, ts: Time, o: Outcome)
    requires w.phase.Idle? && NewlineEnded(w.file) && forall e :: e in w.queue.Held() ==> e.msg.id != ""
    ensures var found := w.queue.Pop(now).1.Some?;
            var steps := DequeueSteps(found, now, ts, o);
            && Runs(c, w, steps) && After(c, w, steps).phase.Idle?
            && ServiceOf(After(c, w, steps)) == ServiceOf(w).Dequeue(c, now, ts, o).0
            && After(c, w, steps).delivered ==
                 match ServiceOf(w).Dequeue(c, now, ts, o).1
                 case Ok(Some(m)) => w.delivered + [m.id]
                 case _ => w.delivered
  {
    var w1 := Next(c, w, Take(now));
    var r := w.queue.Pop(now).1;
    if r == None {
      RunsOn(c, w, Take(now), []);
    } else {
      assert First(BySelection(w.queue.mode), w.queue.Promote(now).ready).value in w.queue.Held();
      match o {
        case Failed(kept) =>
          RunsOn(c, w1, WriteFails(ts, kept), []);
          RunsOn(c, w, Take(now), [WriteFails(ts, kept)] + []);
        case Done =>
          var w2 := Next(c, w1, Write(ts));
          var w3 := Next(c, w2, Sync);
          RunsOn(c, w3, Deliver, []);
          RunsOn(c, w2, Sync, [Deliver] + []);
          RunsOn(c, w1, Write(ts), [Sync] + ([Deliver] + []));
          RunsOn(c, w, Take(now), [Write(ts)] + ([Sync] + ([Deliver] + [])));
      }
    }
  }
}
