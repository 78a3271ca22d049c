/**
 * Memory and log, ID by ID, through every protocol step (pkg/service/queue_service.go:110-149): they agree
 * on every ID for which no append has returned an error since the service was opened. IDs may repeat,
 * for the first one wins in both (pkg/storage/wal.go:220-222, pkg/engine/queue.go:193-195).
 */
module Agreement {
  import opened Model
  import opened Selection
  import opened Scheduling
  import opened Codec
  import opened Replay
  import opened Durability
  import opened Protocol

  /** The held message with this ID. */
  ghost function MemoryOf(q: QueueState, id: string): Option<Message> {
    if q.Holds(id) then Some(q.Lookup(id).msg) else None
  }

  function LogOf(rs: seq<Record>, id: string): Option<Message> {
    Get(LiveIn(rs), id)
  }

  /** What the log has for id while memory has mem: the same, but for the message of the operation in progress. */
  function Logged(phase: Phase, id: string, mem: Option<Message>): Option<Message> {
    match phase
    case Submitted(m) => if m.id == id && mem == None then Some(m) else mem
    case Stored(m) => if m.id == id && mem == None then Some(m) else mem
    case Taken(m) => if m.id == id then Some(m) else mem
    case _ => mem
  }

  ghost predicate InHand(w: World) {
    match w.phase
    case Submitting(m) => m.id != "" && m.seqNo >= 1 && m.status == STATUS_PENDING
    case Taken(m) => m.id != "" && MemoryOf(w.queue, m.id) == None
    case Marked(m) => m.id != ""
    case Submitted(m) => m.id != ""
    case _ => true
  }

  ghost predicate AgreeOk(w: World, rs: seq<Record>, tail: Tail) {
    !w.phase.Down? ==>
      && w.queue.WellFormed()
      && InHand(w)
      && "" !in w.doubtful
      && (tail.Torn? ==> tail.r.id in w.doubtful)
      && AgreeOn(w.queue, w.phase, w.doubtful, rs)
  }

  ghost predicate AgreeOn(q: QueueState, phase: Phase, doubtful: set<string>, rs: seq<Record>) {
    forall id :: id !in doubtful ==> LogOf(rs, id) == Logged(phase, id, MemoryOf(q, id))
  }

  // ---------- Memory ----------

  lemma MemoryIs(q: QueueState, e: Entry)
    requires q.WellFormed() && e in q.Held()
    ensures MemoryOf(q, e.msg.id) == Some(e.msg)
  {
    assert SameId(q.Lookup(e.msg.id), e);
  }

  /** Equal up to promotion. */
  lemma SameMemory(q: QueueState, q': QueueState)
    requires q.WellFormed() && q'.Held() == q.Held()
    ensures forall id :: MemoryOf(q', id) == MemoryOf(q, id)
  {
    forall id | q'.Holds(id) ensures q.Holds(id) && q'.Lookup(id) == q.Lookup(id) {
      assert SameId(q.Lookup(id), q'.Lookup(id));
    }
    forall id | q.Holds(id) ensures q'.Holds(id) {
      assert q.Lookup(id) in q'.Held();
    }
  }

  lemma MemoryAfterPush(q: QueueState, m: Message, id: string)
    requires q.WellFormed()
    ensures q.Push(m).WellFormed()
    ensures MemoryOf(q.Push(m), id) == if id == m.id && MemoryOf(q, id) == None then Some(m) else MemoryOf(q, id)
  {
    PushKeepsWellFormed(q, m);
    if !q.Holds(m.id) {
      var q', e := q.Push(m), Entry(m, q.nextOrder);
      assert q'.Held() == q.Held() + {e};
      MemoryIs(q', e);
      if q.Holds(id) {
        MemoryIs(q', q.Lookup(id));
      }
    }
  }

  lemma MemoryWithout(q: QueueState, q': QueueState, e: Entry, id: string)
    requires q.WellFormed() && e in q.Held() && q'.WellFormed() && q'.Held() == q.Held() - {e}
    ensures MemoryOf(q, e.msg.id) == Some(e.msg)
    ensures MemoryOf(q', id) == if id == e.msg.id then None else MemoryOf(q, id)
  {
    MemoryIs(q, e);
    if q'.Holds(id) {
      assert !SameId(q'.Lookup(id), e);
      MemoryIs(q, q'.Lookup(id));
    }
    if q.Holds(id) && id != e.msg.id {
      MemoryIs(q', q.Lookup(id));
    }
  }

  lemma MemoryAfterPop(q: QueueState, now: Time, id: string)
    requires q.WellFormed()
    ensures var (q', r) := q.Pop(now);
            && q'.WellFormed()
            && (r == None ==> MemoryOf(q', id) == MemoryOf(q, id))
            && (r.Some? ==> MemoryOf(q, r.value.id) == Some(r.value)
                            && MemoryOf(q', id) == if id == r.value.id then None else MemoryOf(q, id))
  {
    var (q', r) := q.Pop(now);
    PopKeepsWellFormed(q, now);
    PromoteKeepsWellFormed(q, now);
    if r == None {
      SameMemory(q, q');
    } else {
      var e := First(BySelection(q.mode), q.Promote(now).ready).value;
      assert q'.Held() == q.Held() - {e};
      MemoryWithout(q, q', e, id);
    }
  }

  lemma MemoryOfAgreed(q: QueueState, live: Live, id: string)
    requires q.WellFormed() && Agrees(q, live)
    ensures MemoryOf(q, id) == Get(live, id)
  {
    if q.Holds(id) {
      assert q.Lookup(id) in q.Held();
    }
  }

  // ---------- Steps ----------

  lemma LogAfter(rs: seq<Record>, r: Record, id: string)
    ensures LogOf(rs + [r], id) == ValueAfter(LogOf(rs, id), r, id)
  {
    FoldAppend(NOTHING, rs, r);
    ApplyActsOnEachId(LiveIn(rs), r, id);
  }

  lemma WriteAgrees(w: World, rs: seq<Record>, tail: Tail, ts: Time)
    requires AgreeOk(w, rs, tail) && (w.phase.Submitting? || w.phase.Taken?)
    ensures var phase := if w.phase.Submitting? then Submitted(w.phase.m) else Marked(w.phase.m);
            AgreeOn(w.queue, phase, w.doubtful, rs + [Pending(w, ts)])
  {
    var r := Pending(w, ts);
    if w.phase.Submitting? {
      EnqueueRecordKeepsMessage(w.phase.m, w.recordNo + 1, ts);
    }
    forall id | id !in w.doubtful
      ensures LogOf(rs + [r], id)
           == Logged(if w.phase.Submitting? then Submitted(w.phase.m) else Marked(w.phase.m), id, MemoryOf(w.queue, id))
    {
      LogAfter(rs, r, id);
    }
  }

  /** Whatever became of the record of a failed append, only its own ID is in doubt. */
  lemma AbandonAgrees(w: World, rs: seq<Record>, rs': seq<Record>)
    requires w.phase.Submitting? || w.phase.Submitted? || w.phase.Taken? || w.phase.Marked?
    requires w.queue.WellFormed() && AgreeOn(w.queue, w.phase, w.doubtful, rs)
    requires rs' == rs || exists r: Record :: r.id == w.phase.m.id && rs' == rs + [r]
    ensures Abandon(w).queue.WellFormed()
    ensures AgreeOn(Abandon(w).queue, Idle, w.doubtful + {w.phase.m.id}, rs')
  {
    var m := w.phase.m;
    PushKeepsWellFormed(w.queue, m);
    forall id | id !in w.doubtful + {m.id}
      ensures LogOf(rs', id) == MemoryOf(Abandon(w).queue, id)
    {
      MemoryAfterPush(w.queue, m, id);
      if rs' != rs {
        var r: Record :| r.id == m.id && rs' == rs + [r];
        LogAfter(rs, r, id);
      }
    }
  }

  lemma InsertAgrees(w: World, rs: seq<Record>)
    requires w.phase.Stored? && w.queue.WellFormed() && AgreeOn(w.queue, w.phase, w.doubtful, rs)
    ensures w.queue.Push(w.phase.m).WellFormed()
    ensures AgreeOn(w.queue.Push(w.phase.m), Inserted(w.phase.m), w.doubtful, rs)
  {
    PushKeepsWellFormed(w.queue, w.phase.m);
    forall id | id !in w.doubtful ensures LogOf(rs, id) == MemoryOf(w.queue.Push(w.phase.m), id) {
      MemoryAfterPush(w.queue, w.phase.m, id);
    }
  }

  lemma TakeAgrees(w: World, rs: seq<Record>, now: Time)
    requires w.phase.Idle? && w.queue.WellFormed() && "" !in w.doubtful && AgreeOn(w.queue, w.phase, w.doubtful, rs)
    ensures var (q, r) := w.queue.Pop(now);
            && q.WellFormed()
            && (r.Some? ==> r.value.id != "" && MemoryOf(q, r.value.id) == None)
            && AgreeOn(q, if r == None then Idle else Taken(r.value), w.doubtful, rs)
  {
    var (q, r) := w.queue.Pop(now);
    PopKeepsWellFormed(w.queue, now);
    NoEmptyId(rs);
    if r.Some? {
      MemoryAfterPop(w.queue, now, r.value.id);
      assert r.value.id == "" ==> LogOf(rs, "") == MemoryOf(w.queue, "");
    }
    forall id | id !in w.doubtful
      ensures LogOf(rs, id) == Logged(if r == None then Idle else Taken(r.value), id, MemoryOf(q, id))
    {
      MemoryAfterPop(w.queue, now, id);
    }
  }

  lemma LookAgrees(w: World, rs: seq<Record>, now: Time)
    requires w.queue.WellFormed() && AgreeOn(w.queue, w.phase, w.doubtful, rs)
    ensures w.queue.Promote(now).WellFormed() && AgreeOn(w.queue.Promote(now), w.phase, w.doubtful, rs)
  {
    PromoteKeepsWellFormed(w.queue, now);
    SameMemory(w.queue, w.queue.Promote(now));
  }

  lemma ReopenedAgrees(w: World, rs: seq<Record>)
    requires Reopened(w, rs)
    ensures AgreeOn(w.queue, w.phase, w.doubtful, rs)
  {
    forall id ensures LogOf(rs, id) == MemoryOf(w.queue, id) {
      MemoryOfAgreed(w.queue, LiveIn(rs), id);
    }
  }

  /** Every step keeps memory and log in agreement. */
  lemma StepAgrees(c: RecordCodec, w: World, rs: seq<Record>, d: nat, tail: Tail, step: Step,
                   rs': seq<Record>, d': nat, tail': Tail)
    requires AgreeOk(w, rs, tail) && Enabled(c, w, step) && DiskMoves(c, w, step, rs, d, tail, rs', d', tail')
    requires w.phase.Submitted? || w.phase.Marked? ==> tail.NoTail?
    ensures AgreeOk(Next(c, w, step), rs', tail')
  {
    match step
    case Write(ts) => WriteAgrees(w, rs, tail, ts);
    case WriteFails(ts, _) =>
      assert Pending(w, ts).id == w.phase.m.id;
      AbandonAgrees(w, rs, rs');
    case SyncFails => AbandonAgrees(w, rs, rs);
    case Insert => InsertAgrees(w, rs);
    case Take(now) => TakeAgrees(w, rs, now);
    case Look(now) => LookAgrees(w, rs, now);
    case Restart => ReopenedAgrees(Next(c, w, step), rs);
    case _ =>
  }

  /** What a torn record in the file is about is in doubt, so it makes no difference whether it is read. */
  lemma ReadAgrees(w: World, rs: seq<Record>, tail: Tail, read: seq<Record>)
    requires AgreeOk(w, rs, tail) && !w.phase.Down?
    requires read == rs || (tail.Torn? && read == rs + [tail.r])
    ensures AgreeOn(w.queue, w.phase, w.doubtful, read)
  {
    if read != rs {
      forall id | id !in w.doubtful ensures LogOf(read, id) == LogOf(rs, id) {
        LogAfter(rs, tail.r, id);
      }
    }
  }
}
