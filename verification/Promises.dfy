/**
 * What a caller of the service is promised, call by call, in terms of the request and of the answer
 * (pkg/service/queue_service.go:92-224).
 */
module Promises {
  import opened Model
  import opened Selection
  import opened Scheduling
  import opened Codec
  import opened Replay
  import opened Log
  import opened Wal
  import opened Service
  import opened Durability

  /** m is the message asked for, made at this instant under this ID with this Seq. */
  predicate AsRequested(m: Message, req: EnqueueRequest, id: string, now: Time, seqNo: nat) {
    && m.id == id && m.seqNo == seqNo
    && m.payload == req.payload && m.priority == req.priority
    && m.enqueuedAt == now && m.availableAt == now + req.delaySeconds * 1_000_000_000
    && m.status == "PENDING"
  }

  /** A request is taken exactly if it is valid and the log takes its record; then the answer is what was asked for. */
  lemma EnqueueAnswers(c: RecordCodec, s: ServiceState, req: EnqueueRequest, id: string, now: Time, ts: Time, o: Outcome)
    ensures var (s', r) := s.Enqueue(c, req, id, now, ts, o);
            && (r.Ok? <==> req.Validate() == None && !s.closed && s.wal.open && id != "" && o == Done)
            && (r.Ok? ==> AsRequested(r.value, req, id, now, s.seqNo + 1) && s'.seqNo == s.seqNo + 1)
            && (r.Err? ==> s'.queue == s.queue && s'.seqNo == s.seqNo)
            && (req.Validate().Some? ==> r == Err(Invalid(req.Validate().value)) && s' == s)
  {
    DelayIsExact(now, req.delaySeconds);
  }

  /** Under a fresh ID the message held, and the one a restart has, is what was asked for. */
  lemma HeldAsRequested(c: RecordCodec, s: ServiceState, rs: seq<Record>, req: EnqueueRequest, id: string, now: Time, ts: Time)
    requires c.Sound() && Consistent(c, s, rs) && !s.queue.Holds(id)
    requires s.Enqueue(c, req, id, now, ts, Done).1.Ok?
    ensures var s' := s.Enqueue(c, req, id, now, ts, Done).0;
            var reopened := Restart(c, s'.queue.mode, s'.wal.file, s'.wal.synced);
            && s'.queue.Holds(id) && AsRequested(s'.queue.Lookup(id).msg, req, id, now, s.seqNo + 1)
            && reopened.Ok? && reopened.value.queue.Holds(id)
            && AsRequested(reopened.value.queue.Lookup(id).msg, req, id, now, s.seqNo + 1)
  {
    EnqueueAnswers(c, s, req, id, now, ts, Done);
    EnqueuedIsHeldAndRecovered(c, s, rs, req, id, now, ts);
  }

  /** m goes no later than x under this mode: by priority, then by Seq in the direction of the mode. */
  predicate NotBehind(mode: Mode, m: Message, x: Message) {
    || m.priority > x.priority
    || (m.priority == x.priority && mode == FIFO && m.seqNo <= x.seqNo)
    || (m.priority == x.priority && mode == LIFO && m.seqNo >= x.seqNo)
  }

  /**
   * An open service answers that there is nothing exactly when nothing held is available. Otherwise it
   * hands out an available message that is behind no other available one, if the log takes the tombstone.
   */
  lemma DequeueAnswers(c: RecordCodec, s: ServiceState, clock: Time, now: Time, ts: Time, o: Outcome)
    requires !s.closed && s.queue.WellFormed() && s.queue.PromotedBy(clock) && clock <= now
    ensures var (s', r) := s.Dequeue(c, now, ts, o);
            && (r == Ok(None) <==> forall x :: x in s.queue.Held() ==> x.msg.availableAt > now)
            && (r == Ok(None) ==> s'.wal == s.wal)
            && s'.seqNo == s.seqNo
    ensures var (s', r) := s.Dequeue(c, now, ts, o);
            r.Ok? && r.value.Some? ==>
              var m := r.value.value;
              && m.id != "" && o == Done && m.availableAt <= now
              && (forall x :: x in s.queue.Held() && x.msg.availableAt <= now ==> NotBehind(s.queue.mode, m, x.msg))
              && exists e :: e in s.queue.Held() && e.msg == m && s'.queue.Held() == s.queue.Held() - {e}
  {
    PopTakesTheBest(s.queue, clock, now);
  }

  /** Stats counts what is held, what of it is available at the instant, and the rest. */
  lemma StatsAnswers(s: ServiceState, clock: Time, now: Time)
    requires s.queue.WellFormed() && s.queue.PromotedBy(clock) && clock <= now
    ensures var (s', stats) := s.Stats(now);
            && s'.queue.Held() == s.queue.Held() && s' == s.(queue := s'.queue)
            && stats.total == |s.queue.Held()|
            && stats.available == |set e | e in s.queue.Held() && e.msg.availableAt <= now|
            && stats.delayed == |set e | e in s.queue.Held() && e.msg.availableAt > now|
            && stats.available + stats.delayed == stats.total
  {
    PromoteSplitsByAvailability(s.queue, clock, now);
    var ready, rest := Due(s.queue.Held(), now), s.queue.Held() - Due(s.queue.Held(), now);
    assert ready == set e | e in s.queue.Held() && e.msg.availableAt <= now;
    assert rest == set e | e in s.queue.Held() && e.msg.availableAt > now;
    assert |rest| == |s.queue.Held()| - |ready|;
  }

  /**
   * Snapshot names the mode and the instant, counts as Stats does, lists as ready what repeated Dequeues at
   * the instant would be given, and as delayed what is held back; no limit means no cut.
   */
  lemma SnapshotAnswers(s: ServiceState, clock: Time, now: Time, limit: int)
    requires s.queue.WellFormed() && s.queue.PromotedBy(clock) && clock <= now
    ensures var (s', snap) := s.Snapshot(now, limit);
            && s' == s.(queue := s'.queue) && s'.queue.Held() == s.queue.Held()
            && snap.mode == s.queue.mode && snap.now == now && snap.stats == s.Stats(now).1
            && snap.ready == s.queue.Snapshot(now, limit).1.ready && snap.delayed == s.queue.Snapshot(now, limit).1.delayed
            && snap.ready.messages <= PopAll(s.queue, now)
            && (limit <= 0 ==> snap.ready == Page(PopAll(s.queue, now), false))
            && (limit > 0 ==> |snap.ready.messages| <= limit && |snap.delayed.messages| <= limit)
            && (snap.ready.truncated <==> |snap.ready.messages| < snap.stats.available)
            && (snap.delayed.truncated <==> |snap.delayed.messages| < snap.stats.delayed)
            && forall i :: 0 <= i < |snap.delayed.messages| ==> snap.delayed.messages[i].availableAt > now
  {
    PromoteSplitsByAvailability(s.queue, clock, now);
    SnapshotPredictsDrain(s.queue, now, limit);
    SnapshotListsDelayed(s.queue, now, limit);
    var q := s.queue.Promote(now);
    assert |q.Held()| == |q.ready| + |q.delayed|;
  }

  /**
   * After Close every Dequeue, and every Enqueue of a valid request, is told that the service is closed and
   * changes nothing; so is an append to the log. Memory stays, and Stats and Snapshot answer as before.
   */
  lemma ClosedAnswers(c: RecordCodec, s: ServiceState, req: EnqueueRequest, id: string, m: Message, now: Time, ts: Time, o: Outcome, limit: int)
    ensures var s' := s.Close();
            && s'.closed && s'.queue == s.queue && s'.seqNo == s.seqNo && s'.wal.file == s.wal.file && s'.wal.recordNo == s.wal.recordNo
            && s'.Dequeue(c, now, ts, o) == (s', Err(ServiceClosed))
            && (req.Validate() == None ==> s'.Enqueue(c, req, id, now, ts, o) == (s', Err(ServiceClosed)))
            && (req.Validate().Some? ==> s'.Enqueue(c, req, id, now, ts, o) == (s', Err(Invalid(req.Validate().value))))
            && s'.Stats(now).1 == s.Stats(now).1 && s'.Snapshot(now, limit).1 == s.Snapshot(now, limit).1
            && s'.Close() == s'
    ensures !s.closed && m.id != "" ==> s.Close().wal.WriteEnqueue(c, m, ts, o) == (s.Close().wal, Err(WalClosed))
    ensures !s.closed && id != "" ==> s.Close().wal.WriteDequeue(c, id, ts, o) == (s.Close().wal, Err(WalClosed))
  {
  }
}
