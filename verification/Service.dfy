/**
 * QueueService: the WAL-first protocol over the engine and the log
 * (pkg/service/queue_service.go). Its operations are functions on a value, and the class is proved to
 * compute them.
 */
module Service {
  import opened Model
  import opened Scheduling
  import opened Codec
  import opened Replay
  import opened Log
  import opened Wal
  import opened Engine

  datatype ServiceError = Invalid(why: RequestError) | ServiceClosed | LogError(cause: WalError)

  function MakeMessage(req: EnqueueRequest, id: string, now: Time, seqNo: nat): Message {
    Message(id, seqNo, req.payload, req.priority, now, AvailableFrom(now, req.delaySeconds), STATUS_PENDING)
  }

  datatype ServiceState = ServiceState(queue: QueueState, wal: WalState, seqNo: nat, closed: bool) {

    ghost function Enqueue(c: RecordCodec, req: EnqueueRequest, id: string, now: Time, ts: Time, o: Outcome)
      : (ServiceState, Result<Message, ServiceError>)
    {
      match req.Validate()
      case Some(why) => (this, Err(Invalid(why)))
      case None =>
        if closed then (this, Err(ServiceClosed))
        else
          var m := MakeMessage(req, id, now, seqNo + 1);
          var (w, e) := wal.WriteEnqueue(c, m, ts, o);
          match e
          case Err(cause) => (this.(wal := w), Err(LogError(cause)))
          case Ok(_) => (this.(queue := queue.Push(m), wal := w, seqNo := seqNo + 1), Ok(m))
    }

    ghost function Dequeue(c: RecordCodec, now: Time, ts: Time, o: Outcome)
      : (ServiceState, Result<Option<Message>, ServiceError>)
    {
      if closed then (this, Err(ServiceClosed))
      else
        var (q, r) := queue.Pop(now);
        match r
        case None => (this.(queue := q), Ok(None))
        case Some(m) =>
          var (w, e) := wal.WriteDequeue(c, m.id, ts, o);
          match e
          case Err(cause) => (this.(queue := q.Push(m), wal := w), Err(LogError(cause)))
          case Ok(_) => (this.(queue := q, wal := w), Ok(Some(m)))
    }

    ghost function Stats(now: Time): (ServiceState, QueueStats) {
      var q := queue.Promote(now);
      (this.(queue := q), QueueStats(|queue.Held()|, |q.ready|, |queue.Held()| - |q.ready|))
    }

    ghost function Snapshot(now: Time, limit: int): (ServiceState, QueueSnapshot) {
      var (q, view) := queue.Snapshot(now, limit);
      (this.(queue := q),
       QueueSnapshot(queue.mode, now, QueueStats(view.readyLen + view.delayedLen, view.readyLen, view.delayedLen),
                     view.ready, view.delayed))
    }

    ghost function Close(): ServiceState {
      this.(closed := true, wal := if closed then wal else wal.(open := false))
    }
  }

  ghost function PushAll(q: QueueState, ms: seq<Message>): QueueState {
    if ms == [] then q else PushAll(q, ms[..|ms| - 1]).Push(ms[|ms| - 1])
  }

  function MaxSeq(ms: seq<Message>): nat {
    if ms == [] then 0
    else
      var m := MaxSeq(ms[..|ms| - 1]);
      if ms[|ms| - 1].seqNo > m then ms[|ms| - 1].seqNo else m
  }

  /** NewQueueService over what a disk holds. */
  ghost function Restart(c: RecordCodec, mode: Mode, file: string, synced: nat): Result<ServiceState, WalError> {
    match ReadBack(c, file)
    case Err(line) => Err(CorruptAt(line))
    case Ok(rs) =>
      var f := Fold(NOTHING, rs);
      var ms := Listing(f.live);
      Ok(ServiceState(PushAll(Empty(mode), ms), WalState(file, synced, f.maxNo, true), MaxSeq(ms), false))
  }

  lemma StatsCount(s: ServiceState, now: Time, total: int, available: int)
    requires total == |s.queue.Held()| && available == |s.queue.Promote(now).ready|
    ensures s.Stats(now) == (s.(queue := s.queue.Promote(now)), QueueStats(total, available, total - available))
  {
  }

  lemma RestartIs(c: RecordCodec, mode: Mode, file: string, synced: nat, ms: seq<Message>, no: nat)
    requires ReadBack(c, file).Ok?
    requires var f := Fold(NOTHING, ReadBack(c, file).value); ms == Listing(f.live) && no == f.maxNo
    ensures Restart(c, mode, file, synced)
         == Ok(ServiceState(PushAll(Empty(mode), ms), WalState(file, synced, no, true), MaxSeq(ms), false))
  {
  }

  lemma SnapshotOf(s: ServiceState, q: QueueState, now: Time, limit: int, view: View)
    requires s.queue.Snapshot(now, limit) == (q, view)
    ensures var stats := QueueStats(view.readyLen + view.delayedLen, view.readyLen, view.delayedLen);
            s.Snapshot(now, limit) == (s.(queue := q), QueueSnapshot(q.mode, now, stats, view.ready, view.delayed))
  {
  }

  class QueueService {
    const queue: FrankensteinQueue
    const wal: WAL
    var seqNo: nat
    var closed: bool

    constructor (queue: FrankensteinQueue, wal: WAL, seqNo: nat)
      ensures this.queue == queue && this.wal == wal && this.seqNo == seqNo && !closed
    {
      this.queue := queue;
      this.wal := wal;
      this.seqNo := seqNo;
      closed := false;
    }

    ghost predicate Valid()
      reads this, queue, queue.ready, queue.delayed, queue.ready.items, queue.delayed.items
    {
      queue.Valid()
    }

    ghost function State(): ServiceState
      requires queue.ready.rule.BySelection?
      reads this, wal, queue, queue.ready, queue.delayed
    {
      ServiceState(queue.State(), wal.State(), seqNo, closed)
    }

    /** NewQueueService: recover the log, push every survivor in enqueue order, resume above the highest Seq. */
    static method New(codec: RecordCodec, mode: Mode, file: string, synced: nat)
        returns (r: Result<QueueService, WalError>)
      ensures r.Err? ==> Restart(codec, mode, file, synced) == Err(r.error)
      ensures r.Ok? ==> r.value.Valid() && r.value.wal.codec == codec
      ensures r.Ok? ==> fresh(r.value) && fresh(r.value.wal) && fresh(r.value.queue.Footprint())
      ensures r.Ok? ==> Restart(codec, mode, file, synced) == Ok(r.value.State())
    {
      var wal := new WAL(codec, file, synced);
      var recovered := wal.Recover();
      if recovered.Err? {
        return Err(recovered.error);
      }
      RestartIs(codec, mode, file, synced, recovered.value, wal.recordNo);
      var s := Build(mode, wal, recovered.value);
      return Ok(s);
    }

    static method Build(mode: Mode, wal: WAL, recovered: seq<Message>) returns (s: QueueService)
      ensures s.Valid() && s.wal == wal && fresh(s) && fresh(s.queue.Footprint())
      ensures s.State() == ServiceState(PushAll(Empty(mode), recovered), wal.State(), MaxSeq(recovered), false)
    {
      var q := new FrankensteinQueue(mode);
      var maxSeq := Load(q, recovered);
      s := new QueueService(q, wal, maxSeq);
    }

    /** The recovery loop: pushes the messages in turn and finds their highest Seq. */
    static method Load(q: FrankensteinQueue, ms: seq<Message>) returns (maxSeq: nat)
      requires q.Valid()
      modifies q, q.ready, q.delayed, q.Items()
      ensures q.Valid() && fresh(q.Items() - old(q.Items()))
      ensures q.State() == PushAll(old(q.State()), ms)
      ensures maxSeq == MaxSeq(ms)
    {
      maxSeq := 0;
      for i := 0 to |ms|
        invariant q.Valid() && fresh(q.Items() - old(q.Items()))
        invariant q.State() == PushAll(old(q.State()), ms[..i])
        invariant maxSeq == MaxSeq(ms[..i])
      {
        assert ms[..i + 1][..i] == ms[..i];
        q.Push(ms[i]);
        if ms[i].seqNo > maxSeq {
          maxSeq := ms[i].seqNo;
        }
      }
      assert ms[..|ms|] == ms;
    }

    method Enqueue(req: EnqueueRequest, id: string, now: Time, ts: Time, o: Outcome)
        returns (r: Result<Message, ServiceError>)
      requires Valid()
      modifies this, wal, queue, queue.ready, queue.delayed, queue.Items()
      ensures Valid() && fresh(queue.Items() - old(queue.Items()))
      ensures (State(), r) == old(State()).Enqueue(wal.codec, req, id, now, ts, o)
    {
      var why := req.Validate();
      if why.Some? {
        return Err(Invalid(why.value));
      }
      if closed {
        return Err(ServiceClosed);
      }
      ghost var s := State();
      seqNo := seqNo + 1;
      var m := MakeMessage(req, id, now, seqNo);
      var e := wal.WriteEnqueue(m, ts, o);
      ghost var w := wal.State();
      assert State() == s.(wal := w, seqNo := s.seqNo + 1);
      if e.Err? {
        seqNo := seqNo - 1;
        return Err(LogError(e.error));
      }
      Hold(m);
      return Ok(m);
    }

    /** The engine takes m; nothing else of the service changes. */
    method Hold(m: Message)
      requires Valid()
      modifies queue, queue.ready, queue.delayed, queue.Items()
      ensures Valid() && fresh(queue.Items() - old(queue.Items()))
      ensures State() == old(State()).(queue := old(State()).queue.Push(m))
    {
      queue.Push(m);
    }

    method Dequeue(now: Time, ts: Time, o: Outcome) returns (r: Result<Option<Message>, ServiceError>)
      requires Valid()
      modifies this, wal, queue, queue.ready, queue.delayed, queue.Items()
      ensures Valid() && fresh(queue.Items() - old(queue.Items()))
      ensures (State(), r) == old(State()).Dequeue(wal.codec, now, ts, o)
    {
      if closed {
        return Err(ServiceClosed);
      }
      ghost var s := State();
      var m := queue.Pop(now);
      ghost var popped := queue.State();
      assert State() == s.(queue := popped) && s.queue.Pop(now) == (popped, m);
      if m == None {
        return Ok(None);
      }
      var e := wal.WriteDequeue(m.value.id, ts, o);
      ghost var w := wal.State();
      assert State() == s.(queue := popped, wal := w);
      if e.Err? {
        Hold(m.value);
        return Err(LogError(e.error));
      }
      return Ok(m);
    }

    method Snapshot(now: Time, limit: int) returns (snap: QueueSnapshot)
      requires Valid()
      modifies queue, queue.ready, queue.delayed, queue.Items()
      ensures Valid() && queue.Items() == old(queue.Items())
      ensures (State(), snap) == old(State()).Snapshot(now, limit)
    {
      ghost var s := State();
      var view := queue.Snapshot(now, limit);
      SnapshotOf(s, queue.State(), now, limit, view);
      snap := QueueSnapshot(queue.ready.rule.mode, now,
                            QueueStats(view.readyLen + view.delayedLen, view.readyLen, view.delayedLen),
                            view.ready, view.delayed);
    }

    method GetStats(now: Time) returns (stats: QueueStats)
      requires Valid()
      modifies queue, queue.ready, queue.delayed, queue.Items()
      ensures Valid() && queue.Items() == old(queue.Items())
      ensures (State(), stats) == old(State()).Stats(now)
    {
      ghost var q := queue.State();
      var total: int := queue.Len();
      var available: int := queue.AvailableLen(now);
      assert queue.State() == q.Promote(now) && total == |q.Held()|;
      stats := QueueStats(total, available, total - available);
      ghost var s := old(State());
      assert s.queue == q;
      StatsCount(s, now, total, available);
    }

    method Close()
      requires Valid()
      modifies this, wal
      ensures Valid() && State() == old(State()).Close()
    {
      if closed {
        return;
      }
      closed := true;
      wal.Close();
    }
  }
}
