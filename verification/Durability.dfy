/**
 * What every operation and every restart keeps when a failed append leaves no bytes
 * (pkg/service/queue_service.go:66-150, pkg/storage/wal.go:204-310): memory equals the fold of the
 * log, live Seqs are distinct and bounded, recovery lists survivors in log order, and record numbers
 * ascend.
 */
module Durability {
  import opened Model
  import opened Selection
  import opened Scheduling
  import opened Codec
  import opened Replay
  import opened Log
  import opened Wal
  import opened Service

  /** The engine holds exactly the live messages. */
  ghost predicate Agrees(q: QueueState, live: Live) {
    && (forall e :: e in q.Held() ==> e.msg.id in live && live[e.msg.id] == e.msg)
    && (forall id :: id in live ==> q.Holds(id))
  }

  // ---------- Survivors in log order ----------

  function Without(ms: seq<Message>, id: string): seq<Message> {
    if ms == [] then []
    else
      var rest := Without(ms[..|ms| - 1], id);
      if ms[|ms| - 1].id == id then rest else rest + [ms[|ms| - 1]]
  }

  predicate HasId(ms: seq<Message>, id: string) {
    exists i :: 0 <= i < |ms| && ms[i].id == id
  }

  /** The messages of the surviving ENQUEUE records, in the order of those records. */
  function InLogOrder(rs: seq<Record>): seq<Message> {
    if rs == [] then []
    else
      var ms, r := InLogOrder(rs[..|rs| - 1]), rs[|rs| - 1];
      if Enqueues(r, r.id) then if HasId(ms, r.id) then ms else ms + [MessageOf(r)]
      else if Dequeues(r, r.id) then Without(ms, r.id)
      else ms
  }

  /** Seqs strictly ascend and lie between 1 and the counter. */
  ghost predicate AscendingSeqs(ms: seq<Message>, counter: nat) {
    && (forall i, j :: 0 <= i < j < |ms| ==> ms[i].seqNo < ms[j].seqNo)
    && (forall i :: 0 <= i < |ms| ==> 1 <= ms[i].seqNo <= counter)
  }

  /** ms lists the live messages, each once. */
  ghost predicate Lists(ms: seq<Message>, live: Live) {
    && (forall i :: 0 <= i < |ms| ==> ms[i].id in live && live[ms[i].id] == ms[i])
    && DistinctMessages(ms)
    && (forall id :: id in live ==> HasId(ms, id))
  }

  lemma {:induction false} WithoutMembers(ms: seq<Message>, id: string)
    ensures forall m :: m in Without(ms, id) <==> m in ms && m.id != id
  {
    if ms != [] {
      WithoutMembers(ms[..|ms| - 1], id);
      assert ms == ms[..|ms| - 1] + [ms[|ms| - 1]];
    }
  }

  lemma BeforeLast(ms: seq<Message>, m: Message, counter: nat)
    requires AscendingSeqs(ms, counter) && ms != [] && m in ms[..|ms| - 1]
    ensures 1 <= m.seqNo < ms[|ms| - 1].seqNo
  {
    var i :| 0 <= i < |ms| - 1 && ms[..|ms| - 1][i] == m;
    assert ms[i] == m;
  }

  lemma {:induction false} WithoutAscends(ms: seq<Message>, id: string, counter: nat)
    requires AscendingSeqs(ms, counter)
    ensures AscendingSeqs(Without(ms, id), counter)
  {
    if ms != [] {
      var init, last := ms[..|ms| - 1], ms[|ms| - 1];
      var rest := Without(init, id);
      assert forall i :: 0 <= i < |init| ==> init[i] == ms[i];
      WithoutAscends(init, id, counter);
      forall m | m in rest ensures m.seqNo < last.seqNo {
        WithoutMembers(init, id);
        BeforeLast(ms, m, counter);
      }
      OneMoreAscends(rest, last, counter);
    }
  }

  lemma OneMoreAscends(ms: seq<Message>, m: Message, counter: nat)
    requires AscendingSeqs(ms, counter) && 1 <= m.seqNo <= counter && forall x :: x in ms ==> x.seqNo < m.seqNo
    ensures AscendingSeqs(ms + [m], counter)
  {
  }

  ghost predicate DistinctMessages(ms: seq<Message>) {
    forall i, j :: 0 <= i < j < |ms| ==> ms[i].id != ms[j].id
  }

  lemma {:induction false} WithoutIsDistinct(ms: seq<Message>, id: string)
    requires DistinctMessages(ms)
    ensures DistinctMessages(Without(ms, id))
  {
    if ms != [] {
      var init := ms[..|ms| - 1];
      var rest := Without(init, id);
      assert forall i :: 0 <= i < |init| ==> init[i] == ms[i];
      WithoutIsDistinct(init, id);
      WithoutMembers(init, id);
      forall i | 0 <= i < |rest| ensures rest[i].id != ms[|ms| - 1].id {
        assert rest[i] in init;
      }
    }
  }

  lemma WithoutLists(ms: seq<Message>, live: Live, id: string)
    requires Lists(ms, live)
    ensures Lists(Without(ms, id), live - {id})
  {
    WithoutMembers(ms, id);
    WithoutIsDistinct(ms, id);
    var kept := Without(ms, id);
    forall i | 0 <= i < |kept| ensures kept[i].id != id && kept[i].id in live && live[kept[i].id] == kept[i] {
      assert kept[i] in ms;
    }
    forall x | x in live && x != id ensures HasId(kept, x) {
      var i :| 0 <= i < |ms| && ms[i].id == x;
      assert ms[i] in kept;
      var k :| 0 <= k < |kept| && kept[k] == ms[i];
    }
  }

  lemma {:induction false} LogOrderListsLive(rs: seq<Record>)
    ensures Lists(InLogOrder(rs), Fold(NOTHING, rs).live)
  {
    if rs != [] {
      var r := rs[|rs| - 1];
      var ms, live := InLogOrder(rs[..|rs| - 1]), Fold(NOTHING, rs[..|rs| - 1]).live;
      LogOrderListsLive(rs[..|rs| - 1]);
      if Enqueues(r, r.id) {
        assert HasId(ms, r.id) <==> r.id in live;
        if r.id !in live {
          ListsOneMore(ms, live, MessageOf(r));
        }
      } else if Dequeues(r, r.id) {
        WithoutLists(ms, live, r.id);
      }
    }
  }

  lemma ListsOneMore(ms: seq<Message>, live: Live, m: Message)
    requires Lists(ms, live) && m.id !in live
    ensures Lists(ms + [m], live[m.id := m])
  {
    var all := ms + [m];
    assert all[|ms|] == m;
    forall x | x in live ensures HasId(all, x) {
      var i :| 0 <= i < |ms| && ms[i].id == x;
      assert all[i] == ms[i];
    }
  }

  /** The messages of the surviving ENQUEUE records are the live ones. */
  lemma LogOrderIsOfLive(rs: seq<Record>)
    ensures forall m :: m in InLogOrder(rs) <==> m in Fold(NOTHING, rs).live.Values
  {
    var ms, live := InLogOrder(rs), Fold(NOTHING, rs).live;
    LogOrderListsLive(rs);
    forall m ensures m in ms <==> m in live.Values {
      if m in ms {
        var i :| 0 <= i < |ms| && ms[i] == m;
        assert m.id in live;
      }
      if m in live.Values {
        var id :| id in live && live[id] == m;
        assert HasId(ms, id);
        var i :| 0 <= i < |ms| && ms[i].id == id;
        assert ms[i] == m;
      }
    }
  }

  /**
   * Sorting the survivors by Seq gives the order in which they were enqueued exactly when their Seqs, and
   * the IDs of those that share one, ascend in the log.
   */
  lemma ListingIsLogOrderIff(rs: seq<Record>)
    ensures Listing(Fold(NOTHING, rs).live) == InLogOrder(rs) <==> SortedBySeq(InLogOrder(rs))
  {
    var live := Fold(NOTHING, rs).live;
    LogOrderIsOfLive(rs);
    FoldIsKeyed(NOTHING, rs);
    var ms := ListingExists(live);
    ListingIsUnique(live, ms);
    if SortedBySeq(InLogOrder(rs)) {
      ListingIsUnique(live, InLogOrder(rs));
    }
  }

  /** As they do when the Seqs are those of one counter. */
  lemma ListingIsLogOrder(rs: seq<Record>, counter: nat)
    requires AscendingSeqs(InLogOrder(rs), counter)
    ensures Listing(Fold(NOTHING, rs).live) == InLogOrder(rs)
  {
    ListingIsLogOrderIff(rs);
  }

  /**
   * The log of an older writer, whose ENQUEUE records carry no Seq: every message takes the number of its
   * record, and the messages are recovered in the order of their records.
   */
  lemma OlderLogKeepsOrder(rs: seq<Record>)
    requires forall i :: 0 <= i < |rs| && rs[i].op == "ENQUEUE" ==> rs[i].msgSeq == 0
    requires forall i, j :: 0 <= i < j < |rs| ==> rs[i].recordNo < rs[j].recordNo
    ensures var live := Fold(NOTHING, rs).live;
            && IsListing(live, Listing(live))
            && (forall id, i :: LivesBy(rs, id, i) ==> id in live && live[id].seqNo == rs[i].recordNo)
            && forall p, q, i, j :: 0 <= p < q < |Listing(live)| && LivesBy(rs, Listing(live)[p].id, i) && LivesBy(rs, Listing(live)[q].id, j) ==> i < j
  {
    var live := Fold(NOTHING, rs).live;
    FoldIsKeyed(NOTHING, rs);
    var ms := ListingExists(live);
    ListingIsUnique(live, ms);
    ListingLists(live, ms);
    forall id, i | LivesBy(rs, id, i) ensures id in live && live[id].seqNo == rs[i].recordNo {
      LivesByIsLive(rs, id, i);
    }
    forall p, q, i, j | 0 <= p < q < |ms| && LivesBy(rs, ms[p].id, i) && LivesBy(rs, ms[q].id, j) ensures i < j {
      LivesByIsLive(rs, ms[p].id, i);
      LivesByIsLive(rs, ms[q].id, j);
      assert MessageLess(ms[p], ms[q]) && ms[p].id != ms[q].id;
      assert live[ms[p].id] == ms[p] && live[ms[q].id] == ms[q];
    }
  }

  // ---------- The invariant ----------

  /** Record numbers ascend along the log up to the writer's counter. */
  ghost predicate Numbered(rs: seq<Record>, last: nat) {
    && (forall i, j :: 0 <= i < j < |rs| ==> rs[i].recordNo < rs[j].recordNo)
    && (forall i :: 0 <= i < |rs| ==> rs[i].recordNo <= last)
  }

  ghost predicate LogOk(rs: seq<Record>, seqNo: nat, recordNo: nat) {
    AscendingSeqs(InLogOrder(rs), seqNo) && Numbered(rs, recordNo)
  }

  ghost predicate Consistent(c: RecordCodec, s: ServiceState, rs: seq<Record>) {
    && !s.closed && s.wal.open
    && s.wal.file == LogText(c, rs)
    && s.queue.WellFormed()
    && Agrees(s.queue, Fold(NOTHING, rs).live)
    && LogOk(rs, s.seqNo, s.wal.recordNo)
  }

  /** A failed append leaves nothing. */
  predicate Clean(o: Outcome) {
    o == Done || o == Failed(0)
  }

  lemma {:induction false} NoEmptyId(rs: seq<Record>)
    ensures "" !in Fold(NOTHING, rs).live
  {
    if rs != [] {
      NoEmptyId(rs[..|rs| - 1]);
    }
  }

  lemma AgreesAfterPush(q: QueueState, live: Live, m: Message)
    requires Agrees(q, live)
    ensures Agrees(q.Push(m), if m.id in live then live else live[m.id := m])
  {
    var q' := q.Push(m);
    if m.id in live {
      assert q.Holds(m.id);
    } else {
      assert !q.Holds(m.id);
      var e := Entry(m, q.nextOrder);
      assert q'.Held() == q.Held() + {e};
      forall id | id in live ensures q'.Holds(id) {
        assert q.Lookup(id) in q'.Held();
      }
      assert e in q'.Held();
    }
  }

  lemma LogGrows(rs: seq<Record>, r: Record, seqNo: nat, recordNo: nat)
    requires LogOk(rs, seqNo, recordNo)
    requires r.recordNo == recordNo + 1
    requires r.op == OP_DEQUEUE || (r.op == OP_ENQUEUE && r.msgSeq == seqNo + 1)
    ensures LogOk(rs + [r], if r.op == OP_ENQUEUE then seqNo + 1 else seqNo, recordNo + 1)
  {
    LogOrderGrows(rs, r, seqNo);
    assert (rs + [r])[|rs|] == r;
  }

  lemma LogOrderGrows(rs: seq<Record>, r: Record, seqNo: nat)
    requires AscendingSeqs(InLogOrder(rs), seqNo)
    requires r.op == OP_ENQUEUE ==> r.msgSeq == seqNo + 1
    ensures AscendingSeqs(InLogOrder(rs + [r]), if r.op == OP_ENQUEUE then seqNo + 1 else seqNo)
  {
    assert (rs + [r])[..|rs|] == rs;
    if r.op == OP_DEQUEUE && r.id != "" {
      WithoutAscends(InLogOrder(rs), r.id, seqNo);
    }
  }

  lemma EnqueueKeepsConsistent(c: RecordCodec, s: ServiceState, rs: seq<Record>,
                               req: EnqueueRequest, id: string, now: Time, ts: Time, o: Outcome)
    returns (rs': seq<Record>)
    requires Consistent(c, s, rs) && Clean(o)
    ensures var (s', r) := s.Enqueue(c, req, id, now, ts, o);
            && Consistent(c, s', rs')
            && rs <= rs'
            && (r.Err? ==> rs' == rs && s'.queue == s.queue && s'.seqNo == s.seqNo)
  {
    var (s', r) := s.Enqueue(c, req, id, now, ts, o);
    rs' := rs;
    if r.Ok? {
      rs' := rs + [Stamp(EnqueueRecord(r.value), s.wal.recordNo + 1, ts)];
      AcceptedEnqueue(c, s, req, id, now, ts, o);
      AcceptedKeepsConsistent(c, s, rs, r.value, ts);
    } else {
      FailedAppendLeavesLog(c, s, rs, s');
    }
  }

  /** The service after an Enqueue of m succeeded. */
  ghost function Accepting(c: RecordCodec, s: ServiceState, m: Message, ts: Time): ServiceState {
    var file := s.wal.file + Line(c, Stamp(EnqueueRecord(m), s.wal.recordNo + 1, ts));
    s.(queue := s.queue.Push(m), wal := WalState(file, |file|, s.wal.recordNo + 1, true), seqNo := s.seqNo + 1)
  }

  lemma AcceptedEnqueue(c: RecordCodec, s: ServiceState, req: EnqueueRequest, id: string, now: Time, ts: Time, o: Outcome)
    requires s.Enqueue(c, req, id, now, ts, o).1.Ok?
    ensures var (s', r) := s.Enqueue(c, req, id, now, ts, o);
            && r.value == MakeMessage(req, id, now, s.seqNo + 1) && id != ""
            && s' == Accepting(c, s, r.value, ts)
  {
  }

  lemma AcceptedKeepsConsistent(c: RecordCodec, s: ServiceState, rs: seq<Record>, m: Message, ts: Time)
    requires Consistent(c, s, rs) && m.id != "" && m.seqNo == s.seqNo + 1 && m.status == STATUS_PENDING
    ensures Consistent(c, Accepting(c, s, m, ts), rs + [Stamp(EnqueueRecord(m), s.wal.recordNo + 1, ts)])
  {
    LogTextAppend(c, rs, Stamp(EnqueueRecord(m), s.wal.recordNo + 1, ts));
    PushedIsLogged(s.queue, rs, m, s.wal.recordNo + 1, ts);
    AcceptedParts(c, s, rs, m, ts);
  }

  lemma AcceptedIsInOrder(rs: seq<Record>, m: Message, seqNo: nat, recordNo: nat, ts: Time)
    requires LogOk(rs, seqNo, recordNo) && m.seqNo == seqNo + 1
    ensures LogOk(rs + [Stamp(EnqueueRecord(m), recordNo + 1, ts)], seqNo + 1, recordNo + 1)
  {
    LogGrows(rs, Stamp(EnqueueRecord(m), recordNo + 1, ts), seqNo, recordNo);
  }

  lemma AcceptedParts(c: RecordCodec, s: ServiceState, rs: seq<Record>, m: Message, ts: Time)
    requires !s.closed && s.wal.file == LogText(c, rs)
    requires var all := rs + [Stamp(EnqueueRecord(m), s.wal.recordNo + 1, ts)];
             && LogText(c, all) == LogText(c, rs) + Line(c, Stamp(EnqueueRecord(m), s.wal.recordNo + 1, ts))
             && s.queue.Push(m).WellFormed() && Agrees(s.queue.Push(m), Fold(NOTHING, all).live)
    requires LogOk(rs, s.seqNo, s.wal.recordNo) && m.seqNo == s.seqNo + 1
    ensures Consistent(c, Accepting(c, s, m, ts), rs + [Stamp(EnqueueRecord(m), s.wal.recordNo + 1, ts)])
  {
    AcceptedIsInOrder(rs, m, s.seqNo, s.wal.recordNo, ts);
  }

  lemma ConsistentIs(c: RecordCodec, s: ServiceState, rs: seq<Record>)
    requires !s.closed && s.wal.open && s.wal.file == LogText(c, rs) && s.queue.WellFormed()
    requires Agrees(s.queue, Fold(NOTHING, rs).live) && LogOk(rs, s.seqNo, s.wal.recordNo)
    ensures Consistent(c, s, rs)
  {
  }

  lemma PushedIsLogged(q: QueueState, rs: seq<Record>, m: Message, no: nat, ts: Time)
    requires q.WellFormed() && Agrees(q, Fold(NOTHING, rs).live) && m.id != "" && m.seqNo >= 1 && m.status == STATUS_PENDING
    ensures q.Push(m).WellFormed() && Agrees(q.Push(m), Fold(NOTHING, rs + [Stamp(EnqueueRecord(m), no, ts)]).live)
  {
    EnqueueRecordKeepsMessage(m, no, ts);
    PushAgrees(q, rs, Stamp(EnqueueRecord(m), no, ts), m);
  }

  lemma PushAgrees(q: QueueState, rs: seq<Record>, r: Record, m: Message)
    requires q.WellFormed() && Agrees(q, Fold(NOTHING, rs).live) && Enqueues(r, m.id) && MessageOf(r) == m
    ensures q.Push(m).WellFormed() && Agrees(q.Push(m), Fold(NOTHING, rs + [r]).live)
  {
    PushKeepsWellFormed(q, m);
    FoldAppend(NOTHING, rs, r);
    AgreesAfterPush(q, Fold(NOTHING, rs).live, m);
  }

  /** An append that fails without bytes only uses up a record number. */
  lemma FailedAppendLeavesLog(c: RecordCodec, s: ServiceState, rs: seq<Record>, s': ServiceState)
    requires Consistent(c, s, rs)
    requires s'.wal == s.wal || (exists line: string :: s'.wal == s.wal.(file := s.wal.file + line[..0], recordNo := s.wal.recordNo + 1))
    ensures s'.wal.open && s'.wal.file == LogText(c, rs) && LogOk(rs, s.seqNo, s'.wal.recordNo)
  {
    if s'.wal != s.wal {
      var line: string :| s'.wal == s.wal.(file := s.wal.file + line[..0], recordNo := s.wal.recordNo + 1);
      assert s.wal.file + line[..0] == s.wal.file;
    }
  }

  lemma AgreesAfterPop(q: QueueState, live: Live, now: Time)
    requires q.WellFormed() && Agrees(q, live)
    ensures var (q', r) := q.Pop(now);
            && (r == None ==> Agrees(q', live))
            && (r.Some? ==> r.value.id in live && live[r.value.id] == r.value
                            && Agrees(q', live - {r.value.id}))
  {
    var (q', r) := q.Pop(now);
    PopKeepsWellFormed(q, now);
    PromoteKeepsWellFormed(q, now);
    if r == None {
      assert q'.Held() == q.Held();
      forall id | id in live ensures q'.Holds(id) {
        assert q.Lookup(id) in q'.Held();
      }
    } else {
      var e := First(BySelection(q.mode), q.Promote(now).ready).value;
      assert e in q.Held() && q'.Held() == q.Held() - {e};
      forall x | x in q'.Held() ensures x.msg.id != e.msg.id {
        assert !SameId(x, e);
      }
      forall id | id in live && id != e.msg.id ensures q'.Holds(id) {
        assert q.Lookup(id) in q'.Held();
      }
    }
  }

  lemma DequeueKeepsConsistent(c: RecordCodec, s: ServiceState, rs: seq<Record>, now: Time, ts: Time, o: Outcome)
    returns (rs': seq<Record>)
    requires Consistent(c, s, rs) && Clean(o)
    ensures var (s', r) := s.Dequeue(c, now, ts, o);
            && Consistent(c, s', rs')
            && rs <= rs'
            && (r.Err? || r.value == None ==> rs' == rs)
            && s'.seqNo == s.seqNo
  {
    var (s', r) := s.Dequeue(c, now, ts, o);
    var (q, popped) := s.queue.Pop(now);
    rs' := rs;
    DequeueEnds(c, s, now, ts, o);
    AgreesAfterPop(s.queue, Fold(NOTHING, rs).live, now);
    PopKeepsWellFormed(s.queue, now);
    if popped.Some? {
      NoEmptyId(rs);
      if r.Ok? {
        rs' := rs + [Stamp(DequeueRecord(popped.value.id), s.wal.recordNo + 1, ts)];
        ConsumedKeepsConsistent(c, s, rs, q, popped.value, ts);
      } else {
        FailedAppendLeavesLog(c, s, rs, s');
        ReturnedKeepsConsistent(c, s, rs, q, popped.value, s'.wal);
      }
    } else {
      ConsistentIs(c, s.(queue := q), rs);
    }
  }

  /** The ways a Dequeue of an open service ends. */
  lemma DequeueEnds(c: RecordCodec, s: ServiceState, now: Time, ts: Time, o: Outcome)
    requires !s.closed && s.wal.open
    ensures var (s', r) := s.Dequeue(c, now, ts, o);
            var (q, popped) := s.queue.Pop(now);
            && (popped == None ==> r == Ok(None) && s' == s.(queue := q))
            && (popped.Some? && r.Ok? ==> r.value == popped && popped.value.id != "" && s' == Consuming(c, s, q, popped.value, ts))
            && (popped.Some? && r.Err? ==> s' == s.(queue := q.Push(popped.value), wal := s'.wal))
  {
  }

  /** The service after a Dequeue of m succeeded. */
  ghost function Consuming(c: RecordCodec, s: ServiceState, q: QueueState, m: Message, ts: Time): ServiceState {
    var file := s.wal.file + Line(c, Stamp(DequeueRecord(m.id), s.wal.recordNo + 1, ts));
    s.(queue := q, wal := WalState(file, |file|, s.wal.recordNo + 1, true))
  }

  lemma ConsumedKeepsConsistent(c: RecordCodec, s: ServiceState, rs: seq<Record>, q: QueueState, m: Message, ts: Time)
    requires Consistent(c, s, rs) && m.id != "" && q.WellFormed() && Agrees(q, Fold(NOTHING, rs).live - {m.id})
    ensures Consistent(c, Consuming(c, s, q, m, ts), rs + [Stamp(DequeueRecord(m.id), s.wal.recordNo + 1, ts)])
  {
    var rec := Stamp(DequeueRecord(m.id), s.wal.recordNo + 1, ts);
    var s' := Consuming(c, s, q, m, ts);
    assert s'.wal.file == LogText(c, rs + [rec]) by {
      LogTextAppend(c, rs, rec);
    }
    assert Fold(NOTHING, rs + [rec]).live == Fold(NOTHING, rs).live - {m.id} by {
      FoldAppend(NOTHING, rs, rec);
    }
    assert LogOk(rs + [rec], s'.seqNo, s'.wal.recordNo) by {
      LogGrows(rs, rec, s.seqNo, s.wal.recordNo);
    }
    ConsistentIs(c, s', rs + [rec]);
  }

  lemma ReturnedKeepsConsistent(c: RecordCodec, s: ServiceState, rs: seq<Record>, q: QueueState, m: Message, wal: WalState)
    requires !s.closed && wal.open && wal.file == LogText(c, rs) && LogOk(rs, s.seqNo, wal.recordNo)
    requires var live := Fold(NOTHING, rs).live;
             m.id in live && live[m.id] == m && q.WellFormed() && Agrees(q, live - {m.id})
    ensures Consistent(c, s.(queue := q.Push(m), wal := wal), rs)
  {
    var live := Fold(NOTHING, rs).live;
    PushKeepsWellFormed(q, m);
    AgreesAfterPush(q, live - {m.id}, m);
    assert (live - {m.id})[m.id := m] == live;
    ConsistentIs(c, s.(queue := q.Push(m), wal := wal), rs);
  }

  lemma StatsKeepsConsistent(c: RecordCodec, s: ServiceState, rs: seq<Record>, now: Time)
    requires Consistent(c, s, rs)
    ensures Consistent(c, s.Stats(now).0, rs)
  {
    PromoteKeepsWellFormed(s.queue, now);
    var q' := s.queue.Promote(now);
    forall id | id in Fold(NOTHING, rs).live ensures q'.Holds(id) {
      assert s.queue.Lookup(id) in q'.Held();
    }
  }

  // ---------- Restart ----------

  lemma {:induction false} PushAllHolds(mode: Mode, ms: seq<Message>, live: Live)
    requires Lists(ms, live)
    ensures PushAll(Empty(mode), ms).WellFormed() && Agrees(PushAll(Empty(mode), ms), live)
    ensures PushAll(Empty(mode), ms).mode == mode && PushAll(Empty(mode), ms).ready == {}
    decreases |ms|
  {
    if ms != [] {
      var n := |ms| - 1;
      var m := ms[n];
      ListsOneFewer(ms, live);
      PushAllHolds(mode, ms[..n], live - {m.id});
      var q := PushAll(Empty(mode), ms[..n]);
      PushKeepsWellFormed(q, m);
      AgreesAfterPush(q, live - {m.id}, m);
      assert (live - {m.id})[m.id := m] == live;
    } else {
      assert live == map[] by {
        forall id ensures id !in live {
          assert !HasId(ms, id);
        }
      }
    }
  }

  lemma ListsOneFewer(ms: seq<Message>, live: Live)
    requires ms != [] && Lists(ms, live)
    ensures Lists(ms[..|ms| - 1], live - {ms[|ms| - 1].id})
    ensures ms[|ms| - 1].id in live && live[ms[|ms| - 1].id] == ms[|ms| - 1]
  {
    var n := |ms| - 1;
    forall id | id in live && id != ms[n].id ensures HasId(ms[..n], id) {
      var i :| 0 <= i < |ms| && ms[i].id == id;
      assert ms[..n][i] == ms[i];
    }
  }

  lemma ListingLists(live: Live, ms: seq<Message>)
    requires Keyed(live) && IsListing(live, ms)
    ensures Lists(ms, live)
  {
    forall i | 0 <= i < |ms| ensures ms[i].id in live && live[ms[i].id] == ms[i] {
      assert ms[i] in live.Values;
    }
    forall i, j | 0 <= i < j < |ms| ensures ms[i].id != ms[j].id {
      assert MessageLess(ms[i], ms[j]);
      MessageLessIsOrder(ms[i], ms[i], ms[i]);
    }
    forall id | id in live ensures HasId(ms, id) {
      assert live[id] in live.Values;
      var i :| 0 <= i < |ms| && ms[i] == live[id];
    }
  }

  /** A restart over any log of whole records succeeds and holds exactly the live messages. */
  lemma RestartHoldsTheLive(c: RecordCodec, mode: Mode, rs: seq<Record>, synced: nat)
    requires c.Sound()
    ensures ReadBack(c, LogText(c, rs)) == Ok(rs)
    ensures var r := Restart(c, mode, LogText(c, rs), synced);
            && r.Ok? && r.value.queue.WellFormed()
            && Agrees(r.value.queue, Fold(NOTHING, rs).live)
            && r.value.queue.mode == mode && r.value.queue.ready == {}
  {
    LogTextReadsBack(c, rs);
    WholeScan(c, ScanLines(LogText(c, rs)));
    RestartHoldsTheRead(c, mode, LogText(c, rs), rs, synced);
  }

  /** So does one over any file that can be read, torn tail or not. */
  lemma RestartHoldsTheRead(c: RecordCodec, mode: Mode, file: string, rs: seq<Record>, synced: nat)
    requires ReadBack(c, file) == Ok(rs)
    ensures var r := Restart(c, mode, file, synced);
            && r.Ok? && r.value.queue.WellFormed()
            && Agrees(r.value.queue, Fold(NOTHING, rs).live)
            && r.value.queue.mode == mode && r.value.queue.ready == {}
            && r.value.seqNo == MaxSeq(Listing(Fold(NOTHING, rs).live))
            && r.value.wal.recordNo == Fold(NOTHING, rs).maxNo
  {
    var live := Fold(NOTHING, rs).live;
    FoldIsKeyed(NOTHING, rs);
    var ms := ListingExists(live);
    ListingIsUnique(live, ms);
    ListingLists(live, ms);
    PushAllHolds(mode, ms, live);
  }

  lemma {:induction false} MaxSeqBounds(ms: seq<Message>, counter: nat)
    requires AscendingSeqs(ms, counter)
    ensures AscendingSeqs(ms, MaxSeq(ms)) && MaxSeq(ms) <= counter
  {
    if ms != [] {
      var n := |ms| - 1;
      assert forall i :: 0 <= i < n ==> ms[..n][i] == ms[i];
      MaxSeqBounds(ms[..n], counter);
    }
  }

  /**
   * A restart over a log of whole records succeeds, holds exactly the live messages, and resumes the
   * Seq counter at the highest surviving Seq, which may be lower than where it stood.
   */
  lemma RestartIsConsistent(c: RecordCodec, mode: Mode, rs: seq<Record>, seqNo: nat, recordNo: nat, synced: nat)
    requires c.Sound() && LogOk(rs, seqNo, recordNo)
    ensures var r := Restart(c, mode, LogText(c, rs), synced);
            && r.Ok? && Consistent(c, r.value, rs)
            && r.value.seqNo <= seqNo && r.value.wal.recordNo <= recordNo
            && r.value.queue.mode == mode && r.value.queue.ready == {}
            && r.value.wal.synced == synced
  {
    RestartHoldsTheLive(c, mode, rs, synced);
    LogTextReadsBack(c, rs);
    WholeScan(c, ScanLines(LogText(c, rs)));
    ListingIsLogOrder(rs, seqNo);
    MaxSeqBounds(InLogOrder(rs), seqNo);
    MaxNoIsHighest(NOTHING, rs);
  }

  lemma MaxSeqIsLast(ms: seq<Message>, counter: nat)
    requires AscendingSeqs(ms, counter)
    ensures ms == [] ==> MaxSeq(ms) == 0
    ensures ms != [] ==> MaxSeq(ms) == ms[|ms| - 1].seqNo
  {
    if ms != [] {
      var n := |ms| - 1;
      assert forall i :: 0 <= i < n ==> ms[..n][i] == ms[i];
      MaxSeqBounds(ms[..n], ms[n].seqNo - 1);
    }
  }

  /**
   * A restart resumes the Seq counter where it stood exactly when the message numbered last is still
   * held. Otherwise the next Enqueue is given a Seq that was given before.
   */
  lemma RestartResumesIff(c: RecordCodec, s: ServiceState, rs: seq<Record>)
    requires c.Sound() && Consistent(c, s, rs)
    ensures var r := Restart(c, s.queue.mode, s.wal.file, s.wal.synced);
            && r.Ok? && Consistent(c, r.value, rs) && r.value.seqNo <= s.seqNo
            && (r.value.seqNo == s.seqNo <==> s.seqNo == 0 || exists e :: e in s.queue.Held() && e.msg.seqNo == s.seqNo)
  {
    RestartIsConsistent(c, s.queue.mode, rs, s.seqNo, s.wal.recordNo, s.wal.synced);
    var ms := InLogOrder(rs);
    var s' := Restart(c, s.queue.mode, s.wal.file, s.wal.synced).value;
    RestartCounter(c, s, rs);
    MaxSeqIsLast(ms, s.seqNo);
    LogOrderListsLive(rs);
    if ms != [] {
      var last := ms[|ms| - 1];
      var e := s.queue.Lookup(last.id);
      assert e in s.queue.Held() && e.msg == last;
    }
    if e :| e in s.queue.Held() && e.msg.seqNo == s.seqNo {
      assert HasId(ms, e.msg.id);
      var i :| 0 <= i < |ms| && ms[i].id == e.msg.id;
      assert ms[i] == e.msg;
    }
  }

  lemma RestartCounter(c: RecordCodec, s: ServiceState, rs: seq<Record>)
    requires c.Sound() && Consistent(c, s, rs)
    ensures var r := Restart(c, s.queue.mode, s.wal.file, s.wal.synced);
            r.Ok? && r.value.seqNo == MaxSeq(InLogOrder(rs))
  {
    LogTextReadsBack(c, rs);
    WholeScan(c, ScanLines(LogText(c, rs)));
    ListingIsLogOrder(rs, s.seqNo);
  }

  /** So Seqs do repeat: the only message is consumed, the service restarts, and the next one gets its Seq. */
  lemma SeqIsReused(c: RecordCodec, mode: Mode, a: string, b: string, ts: Time)
    requires c.Sound() && a != "" && b != ""
    ensures var req := EnqueueRequest("job", 0, 0);
            var (s1, first) := Opened(mode).Enqueue(c, req, a, 0, ts, Done);
            var (s2, taken) := s1.Dequeue(c, 0, ts, Done);
            var reopened := Restart(c, mode, s2.wal.file, s2.wal.synced);
            && first.Ok? && taken == Ok(Some(first.value)) && reopened.Ok?
            && var second := reopened.value.Enqueue(c, req, b, 0, ts, Done).1;
               second.Ok? && second.value.seqNo == first.value.seqNo
  {
    var req := EnqueueRequest("job", 0, 0);
    var s2, rs := OneComesAndGoes(c, mode, a, ts);
    RestartResumesIff(c, s2, rs);
    var s' := Restart(c, mode, s2.wal.file, s2.wal.synced).value;
    assert s'.seqNo == 0;
    SecondIsNumbered(c, s', req, b, ts);
  }

  lemma SecondIsNumbered(c: RecordCodec, s: ServiceState, req: EnqueueRequest, id: string, ts: Time)
    requires !s.closed && s.wal.open && req.Validate() == None && id != ""
    ensures s.Enqueue(c, req, id, 0, ts, Done).1 == Ok(MakeMessage(req, id, 0, s.seqNo + 1))
  {
  }

  lemma OneComesAndGoes(c: RecordCodec, mode: Mode, a: string, ts: Time) returns (s: ServiceState, rs: seq<Record>)
    requires c.Sound() && a != ""
    ensures var req := EnqueueRequest("job", 0, 0);
            var (s1, first) := Opened(mode).Enqueue(c, req, a, 0, ts, Done);
            && first == Ok(MakeMessage(req, a, 0, 1))
            && s1.Dequeue(c, 0, ts, Done) == (s, Ok(Some(first.value)))
    ensures Consistent(c, s, rs) && s.queue.Held() == {} && s.queue.mode == mode && s.seqNo == 1
  {
    var req := EnqueueRequest("job", 0, 0);
    var none: seq<Record> := [];
    var s1 := Opened(mode).Enqueue(c, req, a, 0, ts, Done).0;
    OpenedIsConsistent(c, mode);
    rs := EnqueueKeepsConsistent(c, Opened(mode), none, req, a, 0, ts, Done);
    OneIsTaken(mode, MakeMessage(req, a, 0, 1));
    s := s1.Dequeue(c, 0, ts, Done).0;
    rs := DequeueKeepsConsistent(c, s1, rs, 0, ts, Done);
  }

  /** A service over an empty log. */
  function Opened(mode: Mode): ServiceState {
    ServiceState(Empty(mode), WalState("", 0, 0, true), 0, false)
  }

  lemma OpenedIsConsistent(c: RecordCodec, mode: Mode)
    ensures Consistent(c, Opened(mode), [])
  {
    var none: seq<Record> := [];
    assert LogText(c, none) == "" && InLogOrder(none) == [] && Fold(NOTHING, none) == NOTHING;
  }

  lemma OneIsTaken(mode: Mode, m: Message)
    requires m.availableAt == 0
    ensures var q := Empty(mode).Push(m);
            q.Pop(0).1 == Some(m) && q.Pop(0).0.Held() == {} && q.Pop(0).0.mode == mode
  {
    var q := Empty(mode).Push(m);
    var e := Entry(m, 0);
    assert q == QueueState(mode, {}, {e}, 1);
    assert q.Promote(0).ready == {e};
    assert IsFirst(BySelection(mode), {e}, e);
    FirstIsUnique(BySelection(mode), {e}, e, First(BySelection(mode), {e}).value);
  }

  // ---------- Failed appends that leave bytes ----------

  /**
   * After an Enqueue that returned an error, memory and log agree exactly when the record did not
   * reach the file whole. When it did, the message is not held, but the next restart brings it.
   */
  lemma FailedEnqueueAgreesIff(c: RecordCodec, s: ServiceState, rs: seq<Record>,
                               req: EnqueueRequest, id: string, now: Time, ts: Time, kept: nat)
    requires c.Sound() && Consistent(c, s, rs)
    requires req.Validate() == None && id != "" && !s.queue.Holds(id)
    ensures var (s', r) := s.Enqueue(c, req, id, now, ts, Failed(kept));
            var rec := Stamp(EnqueueRecord(MakeMessage(req, id, now, s.seqNo + 1)), s.wal.recordNo + 1, ts);
            var read := ReadBack(c, s'.wal.file);
            && r == Err(LogError(AppendFailed)) && s'.queue == s.queue && s'.seqNo == s.seqNo
            && read == Ok(if kept < |c.encode(rec)| then rs else rs + [rec])
            && (Agrees(s'.queue, Fold(NOTHING, read.value).live) <==> kept < |c.encode(rec)|)
            && var reopened := Restart(c, s.queue.mode, s'.wal.file, s'.wal.synced);
               reopened.Ok? && (reopened.value.queue.Holds(id) <==> kept >= |c.encode(rec)|)
  {
    var rec := Stamp(EnqueueRecord(MakeMessage(req, id, now, s.seqNo + 1)), s.wal.recordNo + 1, ts);
    FailedEnqueueFile(c, s, req, id, now, ts, kept);
    PartOfLineReads(c, rs, rec, kept);
    AgreesWithPart(s.queue, rs, rec, kept < |c.encode(rec)|);
    var read := if kept < |c.encode(rec)| then rs else rs + [rec];
    ReadDecidesRestart(c, s.queue.mode, LogText(c, rs) + Kept(Line(c, rec), kept), read, s.wal.synced, id);
  }

  lemma ReadDecidesRestart(c: RecordCodec, mode: Mode, file: string, read: seq<Record>, synced: nat, id: string)
    requires ReadBack(c, file) == Ok(read)
    ensures var r := Restart(c, mode, file, synced);
            r.Ok? && (r.value.queue.Holds(id) <==> id in Fold(NOTHING, read).live)
  {
    RestartHoldsTheRead(c, mode, file, read, synced);
    var q := Restart(c, mode, file, synced).value.queue;
    if q.Holds(id) {
      assert q.Lookup(id).msg.id in Fold(NOTHING, read).live;
    }
  }

  lemma FailedEnqueueFile(c: RecordCodec, s: ServiceState, req: EnqueueRequest, id: string, now: Time, ts: Time, kept: nat)
    requires !s.closed && s.wal.open && req.Validate() == None && id != ""
    ensures var (s', r) := s.Enqueue(c, req, id, now, ts, Failed(kept));
            var rec := Stamp(EnqueueRecord(MakeMessage(req, id, now, s.seqNo + 1)), s.wal.recordNo + 1, ts);
            && r == Err(LogError(AppendFailed)) && s'.queue == s.queue && s'.seqNo == s.seqNo
            && s'.wal.file == s.wal.file + Kept(Line(c, rec), kept)
            && rec.op == OP_ENQUEUE && rec.id == id
  {
  }

  /** What is read back after some or all of one more line. */
  lemma PartOfLineReads(c: RecordCodec, rs: seq<Record>, r: Record, kept: nat)
    requires c.Sound()
    ensures ReadBack(c, LogText(c, rs) + Kept(Line(c, r), kept))
         == Ok(if kept < |c.encode(r)| then rs else rs + [r])
  {
    var line := Line(c, r);
    if kept < |line| {
      CutInLast(c, rs, r, kept);
      assert line[..kept] == c.encode(r)[..kept];
    } else {
      AppendReadsBack(c, rs, r);
      assert line[..|line|] == line;
    }
  }

  lemma AgreesWithPart(q: QueueState, rs: seq<Record>, r: Record, torn: bool)
    requires Agrees(q, Fold(NOTHING, rs).live) && Enqueues(r, r.id) && !q.Holds(r.id)
    ensures Agrees(q, Fold(NOTHING, if torn then rs else rs + [r]).live) <==> torn
    ensures r.id in Fold(NOTHING, if torn then rs else rs + [r]).live <==> !torn
  {
    FoldAppend(NOTHING, rs, r);
    ApplyActsOnEachId(Fold(NOTHING, rs).live, r, r.id);
    assert r.id !in Fold(NOTHING, rs).live;
    assert r.id in Fold(NOTHING, rs + [r]).live;
  }

  /**
   * After a Dequeue that returned an error the message is held as before. Memory and log agree exactly
   * when the tombstone did not reach the file whole. When it did, the next restart drops the message,
   * though nobody was ever given it.
   */
  lemma FailedDequeueAgreesIff(c: RecordCodec, s: ServiceState, rs: seq<Record>, now: Time, ts: Time, kept: nat)
    requires c.Sound() && Consistent(c, s, rs) && s.queue.Pop(now).1.Some?
    ensures var m := s.queue.Pop(now).1.value;
            var (s', r) := s.Dequeue(c, now, ts, Failed(kept));
            var rec := Stamp(DequeueRecord(m.id), s.wal.recordNo + 1, ts);
            var read := ReadBack(c, s'.wal.file);
            && r == Err(LogError(AppendFailed)) && s'.seqNo == s.seqNo
            && Agrees(s'.queue, Fold(NOTHING, rs).live) && s'.queue.Holds(m.id)
            && read == Ok(if kept < |c.encode(rec)| then rs else rs + [rec])
            && (Agrees(s'.queue, Fold(NOTHING, read.value).live) <==> kept < |c.encode(rec)|)
            && var reopened := Restart(c, s.queue.mode, s'.wal.file, s'.wal.synced);
               reopened.Ok? && (reopened.value.queue.Holds(m.id) <==> kept < |c.encode(rec)|)
  {
    var m := s.queue.Pop(now).1.value;
    var rec := Stamp(DequeueRecord(m.id), s.wal.recordNo + 1, ts);
    var live := Fold(NOTHING, rs).live;
    AgreesAfterPop(s.queue, live, now);
    NoEmptyId(rs);
    AgreesAfterPush(s.queue.Pop(now).0, live - {m.id}, m);
    assert (live - {m.id})[m.id := m] == live;
    FailedDequeueFile(c, s, now, ts, kept);
    PartOfLineReads(c, rs, rec, kept);
    GoneWithPart(s.Dequeue(c, now, ts, Failed(kept)).0.queue, rs, rec, kept < |c.encode(rec)|);
    var read := if kept < |c.encode(rec)| then rs else rs + [rec];
    ReadDecidesRestart(c, s.queue.mode, LogText(c, rs) + Kept(Line(c, rec), kept), read, s.wal.synced, m.id);
  }

  lemma FailedDequeueFile(c: RecordCodec, s: ServiceState, now: Time, ts: Time, kept: nat)
    requires !s.closed && s.wal.open && s.queue.Pop(now).1.Some? && s.queue.Pop(now).1.value.id != ""
    ensures var (q, m) := (s.queue.Pop(now).0, s.queue.Pop(now).1.value);
            var (s', r) := s.Dequeue(c, now, ts, Failed(kept));
            var rec := Stamp(DequeueRecord(m.id), s.wal.recordNo + 1, ts);
            && r == Err(LogError(AppendFailed)) && s'.queue == q.Push(m) && s'.seqNo == s.seqNo
            && s'.wal.file == s.wal.file + Kept(Line(c, rec), kept) && s'.wal.synced == s.wal.synced
  {
  }

  lemma GoneWithPart(q: QueueState, rs: seq<Record>, r: Record, torn: bool)
    requires Agrees(q, Fold(NOTHING, rs).live) && Dequeues(r, r.id) && r.id in Fold(NOTHING, rs).live
    ensures q.Holds(r.id)
    ensures Agrees(q, Fold(NOTHING, if torn then rs else rs + [r]).live) <==> torn
    ensures r.id in Fold(NOTHING, if torn then rs else rs + [r]).live <==> torn
  {
    FoldAppend(NOTHING, rs, r);
    ApplyActsOnEachId(Fold(NOTHING, rs).live, r, r.id);
    assert q.Lookup(r.id) in q.Held();
  }

  /**
   * A failed Enqueue gives its Seq back, and the next one is given it again. After a restart two live
   * messages share that Seq exactly when the refused record stayed in the file whole, with its newline.
   */
  lemma SeqsCollideIff(c: RecordCodec, s: ServiceState, rs: seq<Record>, kept: nat, req: EnqueueRequest, a: string,
                       now: Time, ts: Time, req': EnqueueRequest, b: string, now': Time, ts': Time)
    requires c.Sound() && Consistent(c, s, rs)
    requires req.Validate() == None && req'.Validate() == None
    requires a != "" && b != "" && a != b && !s.queue.Holds(a) && !s.queue.Holds(b)
    ensures var s1 := s.Enqueue(c, req, a, now, ts, Failed(kept)).0;
            var (s2, r2) := s1.Enqueue(c, req', b, now', ts', Done);
            var refused := Stamp(EnqueueRecord(MakeMessage(req, a, now, s.seqNo + 1)), s.wal.recordNo + 1, ts);
            var reopened := Restart(c, s.queue.mode, s2.wal.file, s2.wal.synced);
            && r2.Ok? && r2.value.seqNo == s.seqNo + 1 && reopened.Ok?
            && (DistinctSeqs(reopened.value.queue.Held()) <==> kept < |Line(c, refused)|)
  {
    var m, m' := MakeMessage(req, a, now, s.seqNo + 1), MakeMessage(req', b, now', s.seqNo + 1);
    var x := Stamp(EnqueueRecord(m), s.wal.recordNo + 1, ts);
    var y := Stamp(EnqueueRecord(m'), s.wal.recordNo + 2, ts');
    RefusedThenAccepted(c, s, kept, req, a, now, ts, req', b, now', ts');
    EnqueueRecordKeepsMessage(m, s.wal.recordNo + 1, ts);
    EnqueueRecordKeepsMessage(m', s.wal.recordNo + 2, ts');
    NotHeldNotLive(s.queue, rs, a);
    NotHeldNotLive(s.queue, rs, b);
    var s2 := s.Enqueue(c, req, a, now, ts, Failed(kept)).0.Enqueue(c, req', b, now', ts', Done).0;
    NextSharesIff(c, s.queue.mode, rs, s.seqNo, x, kept, y, s2.wal.synced);
  }

  /** A refused record and the next one have one Seq; after a restart two live messages do iff both lines are whole. */
  lemma NextSharesIff(c: RecordCodec, mode: Mode, rs: seq<Record>, seqNo: nat, x: Record, kept: nat, y: Record, synced: nat)
    requires c.Sound() && AscendingSeqs(InLogOrder(rs), seqNo)
    requires x.op == OP_ENQUEUE && y.op == OP_ENQUEUE && x.id != "" && y.id != "" && x.id != y.id
    requires x.id !in Fold(NOTHING, rs).live && y.id !in Fold(NOTHING, rs).live
    requires x.msgSeq == seqNo + 1 && y.msgSeq == seqNo + 1
    ensures var r := Restart(c, mode, LogText(c, rs) + Kept(Line(c, x), kept) + Line(c, y), synced);
            r.Ok? && (DistinctSeqs(r.value.queue.Held()) <==> kept < |Line(c, x)|)
  {
    var file := LogText(c, rs) + Kept(Line(c, x), kept) + Line(c, y);
    SeqRead(c, rs, x, kept, y);
    if kept == 0 {
      LogOrderGrows(rs, y, seqNo);
      ReadHasDistinctSeqs(c, mode, file, rs + [y], seqNo + 1, synced);
    } else if kept < |Line(c, x)| {
      ReadHasDistinctSeqs(c, mode, file, rs, seqNo, synced);
    } else {
      RestartHoldsTheRead(c, mode, file, rs + [x] + [y], synced);
      SharedSeq(rs, x, y, Restart(c, mode, file, synced).value.queue);
    }
  }

  lemma ReadHasDistinctSeqs(c: RecordCodec, mode: Mode, file: string, read: seq<Record>, counter: nat, synced: nat)
    requires ReadBack(c, file) == Ok(read) && AscendingSeqs(InLogOrder(read), counter)
    ensures var r := Restart(c, mode, file, synced);
            r.Ok? && DistinctSeqs(r.value.queue.Held())
  {
    RestartHoldsTheRead(c, mode, file, read, synced);
    SeqsOfLive(read, counter, Restart(c, mode, file, synced).value.queue);
  }

  lemma NotHeldNotLive(q: QueueState, rs: seq<Record>, id: string)
    requires Agrees(q, Fold(NOTHING, rs).live) && !q.Holds(id)
    ensures id !in Fold(NOTHING, rs).live
  {
  }

  lemma RefusedThenAccepted(c: RecordCodec, s: ServiceState, kept: nat, req: EnqueueRequest, a: string,
                            now: Time, ts: Time, req': EnqueueRequest, b: string, now': Time, ts': Time)
    requires !s.closed && s.wal.open && req.Validate() == None && req'.Validate() == None && a != "" && b != ""
    ensures var (s2, r2) := s.Enqueue(c, req, a, now, ts, Failed(kept)).0.Enqueue(c, req', b, now', ts', Done);
            var x := Stamp(EnqueueRecord(MakeMessage(req, a, now, s.seqNo + 1)), s.wal.recordNo + 1, ts);
            var y := Stamp(EnqueueRecord(MakeMessage(req', b, now', s.seqNo + 1)), s.wal.recordNo + 2, ts');
            && r2 == Ok(MakeMessage(req', b, now', s.seqNo + 1))
            && s2.wal.file == s.wal.file + Kept(Line(c, x), kept) + Line(c, y)
  {
    FailedEnqueueFile(c, s, req, a, now, ts, kept);
  }

  /** What is read back of a record that was refused and the next one that was not. */
  lemma SeqRead(c: RecordCodec, rs: seq<Record>, x: Record, kept: nat, y: Record)
    requires c.Sound()
    ensures ReadBack(c, LogText(c, rs) + Kept(Line(c, x), kept) + Line(c, y))
         == Ok(if kept == 0 then rs + [y] else if kept < |Line(c, x)| then rs else rs + [x] + [y])
  {
    var text := LogText(c, rs);
    if kept == 0 {
      assert text + Kept(Line(c, x), kept) == text;
      AppendReadsBack(c, rs, y);
    } else if kept < |Line(c, x)| {
      AppendAfterTail(c, rs, x, kept, y, y);
      assert Kept(Line(c, x), kept) == c.encode(x)[..kept];
    } else {
      assert Kept(Line(c, x), kept) == Line(c, x);
      LogTextAppend(c, rs, x);
      AppendReadsBack(c, rs + [x], y);
    }
  }

  /**
   * An Enqueue that is accepted right after a failed one can still be lost: the next restart has its
   * message exactly when the failed append left nothing or its whole line. Otherwise the accepted record
   * is part of a line that does not decode.
   */
  lemma AcceptedIsRecoveredIff(c: RecordCodec, s: ServiceState, rs: seq<Record>, kept: nat, req: EnqueueRequest, a: string,
                               now: Time, ts: Time, req': EnqueueRequest, b: string, now': Time, ts': Time)
    requires c.Sound() && Consistent(c, s, rs)
    requires req.Validate() == None && req'.Validate() == None
    requires a != "" && b != "" && a != b && !s.queue.Holds(b)
    ensures var s1 := s.Enqueue(c, req, a, now, ts, Failed(kept)).0;
            var (s2, r2) := s1.Enqueue(c, req', b, now', ts', Done);
            var refused := Stamp(EnqueueRecord(MakeMessage(req, a, now, s.seqNo + 1)), s.wal.recordNo + 1, ts);
            var reopened := Restart(c, s.queue.mode, s2.wal.file, s2.wal.synced);
            && r2.Ok? && s2.queue.Holds(b) && reopened.Ok?
            && (reopened.value.queue.Holds(b) <==> kept == 0 || kept >= |Line(c, refused)|)
  {
    var x := Stamp(EnqueueRecord(MakeMessage(req, a, now, s.seqNo + 1)), s.wal.recordNo + 1, ts);
    var y := Stamp(EnqueueRecord(MakeMessage(req', b, now', s.seqNo + 1)), s.wal.recordNo + 2, ts');
    RefusedThenAccepted(c, s, kept, req, a, now, ts, req', b, now', ts');
    NextIsRecoveredIff(c, s.queue, rs, x, kept, y, s.wal.synced);
    var s2 := s.Enqueue(c, req, a, now, ts, Failed(kept)).0.Enqueue(c, req', b, now', ts', Done).0;
    SyncedDoesNotMatter(c, s.queue.mode, s2.wal.file, s.wal.synced, s2.wal.synced);
    AcceptedIsHeld(c, s, kept, req, a, now, ts, req', b, now', ts');
  }

  /** The same after a Dequeue that failed. */
  lemma AcceptedAfterFailedDequeueIff(c: RecordCodec, s: ServiceState, rs: seq<Record>, kept: nat, now: Time, ts: Time,
                                      req: EnqueueRequest, b: string, now': Time, ts': Time)
    requires c.Sound() && Consistent(c, s, rs) && s.queue.Pop(now).1.Some?
    requires req.Validate() == None && b != "" && !s.queue.Holds(b)
    ensures var s1 := s.Dequeue(c, now, ts, Failed(kept)).0;
            var (s2, r2) := s1.Enqueue(c, req, b, now', ts', Done);
            var tombstone := Stamp(DequeueRecord(s.queue.Pop(now).1.value.id), s.wal.recordNo + 1, ts);
            var reopened := Restart(c, s.queue.mode, s2.wal.file, s2.wal.synced);
            && r2.Ok? && reopened.Ok?
            && (reopened.value.queue.Holds(b) <==> kept == 0 || kept >= |Line(c, tombstone)|)
  {
    var m := s.queue.Pop(now).1.value;
    var x := Stamp(DequeueRecord(m.id), s.wal.recordNo + 1, ts);
    var y := Stamp(EnqueueRecord(MakeMessage(req, b, now', s.seqNo + 1)), s.wal.recordNo + 2, ts');
    AgreesAfterPop(s.queue, Fold(NOTHING, rs).live, now);
    NoEmptyId(rs);
    FailedDequeueFile(c, s, now, ts, kept);
    var s1 := s.Dequeue(c, now, ts, Failed(kept)).0;
    var s2 := s1.Enqueue(c, req, b, now', ts', Done).0;
    assert s1.wal.recordNo == s.wal.recordNo + 1 && s1.wal.open && !s1.closed;
    assert s2.wal.file == LogText(c, rs) + Kept(Line(c, x), kept) + Line(c, y);
    NextIsRecoveredIff(c, s.queue, rs, x, kept, y, s.wal.synced);
    SyncedDoesNotMatter(c, s.queue.mode, s2.wal.file, s.wal.synced, s2.wal.synced);
  }

  lemma NextIsRecoveredIff(c: RecordCodec, q: QueueState, rs: seq<Record>, x: Record, kept: nat, y: Record, synced: nat)
    requires c.Sound() && Agrees(q, Fold(NOTHING, rs).live) && !q.Holds(y.id)
    requires Enqueues(y, y.id) && x.id != y.id
    ensures var r := Restart(c, q.mode, LogText(c, rs) + Kept(Line(c, x), kept) + Line(c, y), synced);
            r.Ok? && (r.value.queue.Holds(y.id) <==> kept == 0 || kept >= |Line(c, x)|)
  {
    SeqRead(c, rs, x, kept, y);
    var read := if kept == 0 then rs + [y] else if kept < |Line(c, x)| then rs else rs + [x] + [y];
    ReadDecidesRestart(c, q.mode, LogText(c, rs) + Kept(Line(c, x), kept) + Line(c, y), read, synced, y.id);
    NotHeldNotLive(q, rs, y.id);
    FoldAppend(NOTHING, rs, y);
    FoldAppend(NOTHING, rs, x);
    FoldAppend(NOTHING, rs + [x], y);
  }

  lemma SyncedDoesNotMatter(c: RecordCodec, mode: Mode, file: string, synced: nat, synced': nat)
    ensures var (r, r') := (Restart(c, mode, file, synced), Restart(c, mode, file, synced'));
            (r.Ok? <==> r'.Ok?) && (r.Ok? ==> r.value.queue == r'.value.queue)
  {
  }

  lemma AcceptedIsHeld(c: RecordCodec, s: ServiceState, kept: nat, req: EnqueueRequest, a: string,
                       now: Time, ts: Time, req': EnqueueRequest, b: string, now': Time, ts': Time)
    requires !s.closed && s.wal.open && req.Validate() == None && req'.Validate() == None && a != "" && b != ""
    ensures s.Enqueue(c, req, a, now, ts, Failed(kept)).0.Enqueue(c, req', b, now', ts', Done).0.queue.Holds(b)
  {
    FailedEnqueueFile(c, s, req, a, now, ts, kept);
    var m := MakeMessage(req', b, now', s.seqNo + 1);
    if !s.queue.Holds(b) {
      assert Entry(m, s.queue.nextOrder) in s.queue.Push(m).Held();
    }
  }

  /** Live messages have distinct Seqs, within bounds, when the survivors' Seqs ascend in the log. */
  lemma SeqsOfLive(rs: seq<Record>, counter: nat, q: QueueState)
    requires AscendingSeqs(InLogOrder(rs), counter) && Agrees(q, Fold(NOTHING, rs).live)
    ensures DistinctSeqs(q.Held()) && forall e :: e in q.Held() ==> 1 <= e.msg.seqNo <= counter
  {
    var ms := InLogOrder(rs);
    LogOrderListsLive(rs);
    forall e | e in q.Held() ensures e.msg in ms {
      assert HasId(ms, e.msg.id);
      var i :| 0 <= i < |ms| && ms[i].id == e.msg.id;
      assert ms[i] == e.msg;
    }
    forall a, b | a in q.Held() && b in q.Held() && a.msg.seqNo == b.msg.seqNo ensures SameId(a, b) {
      var i :| 0 <= i < |ms| && ms[i] == a.msg;
      var j :| 0 <= j < |ms| && ms[j] == b.msg;
      assert i == j;
    }
  }

  lemma SharedSeq(rs: seq<Record>, x: Record, y: Record, q: QueueState)
    requires x.op == OP_ENQUEUE && y.op == OP_ENQUEUE && x.id != "" && y.id != "" && x.id != y.id
    requires x.id !in Fold(NOTHING, rs).live && y.id !in Fold(NOTHING, rs).live
    requires MessageOf(x).seqNo == MessageOf(y).seqNo && Agrees(q, Fold(NOTHING, rs + [x] + [y]).live)
    ensures !DistinctSeqs(q.Held())
  {
    FoldAppend(NOTHING, rs, x);
    FoldAppend(NOTHING, rs + [x], y);
    var live := Fold(NOTHING, rs + [x] + [y]).live;
    assert live[x.id] == MessageOf(x) && live[y.id] == MessageOf(y);
    assert q.Holds(x.id) && q.Holds(y.id);
    assert !SameId(q.Lookup(x.id), q.Lookup(y.id));
  }

  /** So they do collide: the sync of the first append ever made fails, the second succeeds, the service restarts. */
  lemma SeqsCanCollide(c: RecordCodec, mode: Mode, ts: Time) returns (kept: nat)
    requires c.Sound()
    ensures var req := EnqueueRequest("job", 0, 0);
            var s1 := Opened(mode).Enqueue(c, req, "a", 0, ts, Failed(kept)).0;
            var s2 := s1.Enqueue(c, req, "b", 0, ts, Done).0;
            var reopened := Restart(c, mode, s2.wal.file, s2.wal.synced);
            reopened.Ok? && !DistinctSeqs(reopened.value.queue.Held())
  {
    var req := EnqueueRequest("job", 0, 0);
    kept := |Line(c, Stamp(EnqueueRecord(MakeMessage(req, "a", 0, 1)), 1, ts))|;
    OpenedIsConsistent(c, mode);
    SeqsCollideIff(c, Opened(mode), [], kept, req, "a", 0, ts, req, "b", 0, ts);
  }

  // ---------- Whole runs ----------

  datatype RunOp =
    | Enqueue(req: EnqueueRequest, id: string, now: Time, ts: Time, o: Outcome)
    | Dequeue(now: Time, ts: Time, o: Outcome)
    | Stats(now: Time)
    | Reopen

  ghost function RunStep(c: RecordCodec, s: ServiceState, op: RunOp): ServiceState {
    match op
    case Enqueue(req, id, now, ts, o) => s.Enqueue(c, req, id, now, ts, o).0
    case Dequeue(now, ts, o) => s.Dequeue(c, now, ts, o).0
    case Stats(now) => s.Stats(now).0
    case Reopen =>
      match Restart(c, s.queue.mode, s.wal.file, s.wal.synced)
      case Ok(s') => s'
      case Err(_) => s.Close()
  }

  /**
   * An operation that does not bring memory and log apart, as seen before it is made: it appends nothing,
   * or its append succeeds or leaves no bytes, or leaves whole a record that replay will skip because
   * its ID is held.
   */
  ghost predicate Harmless(c: RecordCodec, s: ServiceState, op: RunOp) {
    match op
    case Enqueue(req, id, now, ts, o) =>
      || Clean(o) || req.Validate().Some? || id == ""
      || (s.queue.Holds(id) && o.kept >= |Line(c, EnqueueRecordOf(s, req, id, now, ts))|)
    case Dequeue(now, _, o) => Clean(o) || s.queue.Pop(now).1 == None
    case _ => true
  }

  /** The record that an Enqueue made now would append. */
  function EnqueueRecordOf(s: ServiceState, req: EnqueueRequest, id: string, now: Time, ts: Time): Record {
    Stamp(EnqueueRecord(MakeMessage(req, id, now, s.seqNo + 1)), s.wal.recordNo + 1, ts)
  }

  lemma SkippedRecordKeepsConsistent(c: RecordCodec, s: ServiceState, rs: seq<Record>,
                                     req: EnqueueRequest, id: string, now: Time, ts: Time, kept: nat) returns (rs': seq<Record>)
    requires Consistent(c, s, rs) && req.Validate() == None && id != "" && s.queue.Holds(id)
    requires kept >= |Line(c, EnqueueRecordOf(s, req, id, now, ts))|
    ensures Consistent(c, s.Enqueue(c, req, id, now, ts, Failed(kept)).0, rs') && rs <= rs'
  {
    var r := EnqueueRecordOf(s, req, id, now, ts);
    FailedEnqueueFile(c, s, req, id, now, ts, kept);
    assert Kept(Line(c, r), kept) == Line(c, r);
    rs' := rs + [r];
    LogTextAppend(c, rs, r);
    assert id in Fold(NOTHING, rs).live;
    SkippedRecord(rs, r, s.seqNo, s.wal.recordNo);
  }

  lemma SkippedRecord(rs: seq<Record>, r: Record, seqNo: nat, recordNo: nat)
    requires Enqueues(r, r.id) && r.id in Fold(NOTHING, rs).live && LogOk(rs, seqNo, recordNo) && r.recordNo == recordNo + 1
    ensures Fold(NOTHING, rs + [r]).live == Fold(NOTHING, rs).live && LogOk(rs + [r], seqNo, recordNo + 1)
  {
    FoldAppend(NOTHING, rs, r);
    LogOrderListsLive(rs);
    assert (rs + [r])[..|rs|] == rs && (rs + [r])[|rs|] == r;
    assert HasId(InLogOrder(rs), r.id);
  }

  lemma OneText(c: RecordCodec, rs: seq<Record>, rs': seq<Record>)
    requires c.Sound() && LogText(c, rs) == LogText(c, rs')
    ensures rs == rs'
  {
    LogTextReadsBack(c, rs);
    LogTextReadsBack(c, rs');
  }

  /** Left-over bytes that are not a whole line fit no log of whole records. */
  lemma TornFitsNoLog(c: RecordCodec, rs: seq<Record>, r: Record, kept: nat, rs': seq<Record>)
    requires c.Sound() && 0 < kept < |Line(c, r)|
    ensures LogText(c, rs) + Kept(Line(c, r), kept) != LogText(c, rs')
  {
    assert Kept(Line(c, r), kept) == c.encode(r)[..kept];
    TornIsNotNewlineEnded(c, LogText(c, rs), r, kept);
    LogTextIsNewlineEnded(c, rs');
  }

  /** What was left of a failed append, if it is to fit a log that memory agrees with. */
  lemma OnlyWholeLinesFit(c: RecordCodec, rs: seq<Record>, r: Record, kept: nat, rs': seq<Record>)
    requires c.Sound() && kept > 0 && LogText(c, rs) + Kept(Line(c, r), kept) == LogText(c, rs')
    ensures kept >= |Line(c, r)| && rs' == rs + [r]
  {
    if kept < |Line(c, r)| {
      TornFitsNoLog(c, rs, r, kept, rs');
    }
    assert Kept(Line(c, r), kept) == Line(c, r);
    LogTextAppend(c, rs, r);
    OneText(c, rs + [r], rs');
  }

  lemma HarmfulEnqueue(c: RecordCodec, s: ServiceState, rs: seq<Record>,
                       req: EnqueueRequest, id: string, now: Time, ts: Time, kept: nat, rs': seq<Record>)
    requires c.Sound() && Consistent(c, s, rs) && !Harmless(c, s, Enqueue(req, id, now, ts, Failed(kept)))
    ensures !Consistent(c, s.Enqueue(c, req, id, now, ts, Failed(kept)).0, rs')
  {
    var r := EnqueueRecordOf(s, req, id, now, ts);
    var s' := s.Enqueue(c, req, id, now, ts, Failed(kept)).0;
    FailedEnqueueFile(c, s, req, id, now, ts, kept);
    if Consistent(c, s', rs') {
      OnlyWholeLinesFit(c, rs, r, kept, rs');
      AgreesWithPart(s.queue, rs, r, false);
    }
  }

  lemma HarmfulDequeue(c: RecordCodec, s: ServiceState, rs: seq<Record>, now: Time, ts: Time, kept: nat, rs': seq<Record>)
    requires c.Sound() && Consistent(c, s, rs) && kept > 0 && s.queue.Pop(now).1.Some?
    ensures !Consistent(c, s.Dequeue(c, now, ts, Failed(kept)).0, rs')
  {
    var m := s.queue.Pop(now).1.value;
    var r := Stamp(DequeueRecord(m.id), s.wal.recordNo + 1, ts);
    var s' := s.Dequeue(c, now, ts, Failed(kept)).0;
    FailedDequeueAgreesIff(c, s, rs, now, ts, kept);
    NoEmptyId(rs);
    AgreesAfterPop(s.queue, Fold(NOTHING, rs).live, now);
    FailedDequeueFile(c, s, now, ts, kept);
    if Consistent(c, s', rs') {
      OnlyWholeLinesFit(c, rs, r, kept, rs');
      GoneWithPart(s'.queue, rs, r, false);
    }
  }

  lemma HarmlessKeepsConsistent(c: RecordCodec, s: ServiceState, rs: seq<Record>, op: RunOp) returns (rs': seq<Record>)
    requires c.Sound() && Consistent(c, s, rs) && Harmless(c, s, op)
    ensures Consistent(c, RunStep(c, s, op), rs') && rs <= rs'
  {
    rs' := rs;
    match op
    case Enqueue(req, id, now, ts, o) =>
      if Clean(o) {
        rs' := EnqueueKeepsConsistent(c, s, rs, req, id, now, ts, o);
      } else if req.Validate() == None && id != "" {
        rs' := SkippedRecordKeepsConsistent(c, s, rs, req, id, now, ts, o.kept);
      }
    case Dequeue(now, ts, o) =>
      if Clean(o) {
        rs' := DequeueKeepsConsistent(c, s, rs, now, ts, o);
      } else {
        AgreesAfterPop(s.queue, Fold(NOTHING, rs).live, now);
        PopKeepsWellFormed(s.queue, now);
      }
    case Stats(now) => StatsKeepsConsistent(c, s, rs, now);
    case Reopen => RestartIsConsistent(c, s.queue.mode, rs, s.seqNo, s.wal.recordNo, s.wal.synced);
  }

  ghost predicate IsConsistent(c: RecordCodec, s: ServiceState) {
    exists rs :: Consistent(c, s, rs)
  }

  /** An operation leaves memory equal to the fold of the log exactly when it is harmless. */
  lemma StaysConsistentIff(c: RecordCodec, s: ServiceState, rs: seq<Record>, op: RunOp)
    requires c.Sound() && Consistent(c, s, rs)
    ensures IsConsistent(c, RunStep(c, s, op)) <==> Harmless(c, s, op)
  {
    if Harmless(c, s, op) {
      var rs' := HarmlessKeepsConsistent(c, s, rs, op);
    } else {
      forall rs' ensures !Consistent(c, RunStep(c, s, op), rs') {
        match op
        case Enqueue(req, id, now, ts, o) => HarmfulEnqueue(c, s, rs, req, id, now, ts, o.kept, rs');
        case Dequeue(now, ts, o) => HarmfulDequeue(c, s, rs, now, ts, o.kept, rs');
      }
    }
  }

  ghost predicate AllHarmless(c: RecordCodec, s: ServiceState, ops: seq<RunOp>)
    decreases |ops|
  {
    ops == [] || (Harmless(c, s, ops[0]) && AllHarmless(c, RunStep(c, s, ops[0]), ops[1..]))
  }

  ghost function Run(c: RecordCodec, s: ServiceState, ops: seq<RunOp>): ServiceState
    decreases |ops|
  {
    if ops == [] then s else Run(c, RunStep(c, s, ops[0]), ops[1..])
  }

  /** Over a run of harmless operations and restarts the log only grows, and memory equals its fold at the end. */
  lemma {:induction false} RunsStayConsistent(c: RecordCodec, s: ServiceState, rs: seq<Record>, ops: seq<RunOp>)
    returns (rs': seq<Record>)
    requires c.Sound() && Consistent(c, s, rs) && AllHarmless(c, s, ops)
    ensures Consistent(c, Run(c, s, ops), rs') && rs <= rs'
    decreases |ops|
  {
    rs' := rs;
    if ops != [] {
      rs' := HarmlessKeepsConsistent(c, s, rs, ops[0]);
      rs' := RunsStayConsistent(c, RunStep(c, s, ops[0]), rs', ops[1..]);
    }
  }

  ghost predicate ConsistentThroughout(c: RecordCodec, s: ServiceState, ops: seq<RunOp>)
    decreases |ops|
  {
    IsConsistent(c, s) && (ops == [] || ConsistentThroughout(c, RunStep(c, s, ops[0]), ops[1..]))
  }

  /**
   * Over any run of operations and restarts, with IDs free to collide, memory equals the fold of the log
   * after every one of them exactly when every one is harmless.
   */
  lemma {:induction false} RunsStayConsistentIff(c: RecordCodec, s: ServiceState, rs: seq<Record>, ops: seq<RunOp>)
    requires c.Sound() && Consistent(c, s, rs)
    ensures ConsistentThroughout(c, s, ops) <==> AllHarmless(c, s, ops)
    decreases |ops|
  {
    if ops != [] {
      var s' := RunStep(c, s, ops[0]);
      StaysConsistentIff(c, s, rs, ops[0]);
      if IsConsistent(c, s') {
        var rs' :| Consistent(c, s', rs');
        RunsStayConsistentIff(c, s', rs', ops[1..]);
      }
    }
  }

  /** What the invariant says of the messages in memory. */
  lemma LiveSeqsAreDistinct(c: RecordCodec, s: ServiceState, rs: seq<Record>)
    requires Consistent(c, s, rs)
    ensures DistinctSeqs(s.queue.Held()) && forall e :: e in s.queue.Held() ==> 1 <= e.msg.seqNo <= s.seqNo
  {
    SeqsOfLive(rs, s.seqNo, s.queue);
  }

  /** After a successful Enqueue under a fresh ID, the message held, and the one recovered, is the one returned. */
  lemma EnqueuedIsHeldAndRecovered(c: RecordCodec, s: ServiceState, rs: seq<Record>,
                                   req: EnqueueRequest, id: string, now: Time, ts: Time)
    requires c.Sound() && Consistent(c, s, rs) && !s.queue.Holds(id)
    requires s.Enqueue(c, req, id, now, ts, Done).1.Ok?
    ensures var (s', r) := s.Enqueue(c, req, id, now, ts, Done);
            var recovered := Restart(c, s'.queue.mode, s'.wal.file, s'.wal.synced);
            && s'.queue.Holds(id) && s'.queue.Lookup(id).msg == r.value
            && recovered.Ok? && recovered.value.queue.Holds(id)
            && recovered.value.queue.Lookup(id).msg == r.value
  {
    var rs' := EnqueueKeepsConsistent(c, s, rs, req, id, now, ts, Done);
    var s' := s.Enqueue(c, req, id, now, ts, Done).0;
    RestartIsConsistent(c, s'.queue.mode, rs', s'.seqNo, s'.wal.recordNo, s'.wal.synced);
    assert Entry(s.Enqueue(c, req, id, now, ts, Done).1.value, s.queue.nextOrder) in s'.queue.Held();
    assert SameId(s'.queue.Lookup(id), Entry(s.Enqueue(c, req, id, now, ts, Done).1.value, s.queue.nextOrder));
    assert id in Fold(NOTHING, rs').live;
  }

  /** Draining q hands m out at exactly the instants from `due` on, and no Pop returns it earlier. */
  ghost predicate DeliverableFrom(q: QueueState, m: Message, due: Time) {
    && (exists e :: e in q.Held() && e.msg == m)
    && (forall clock, t :: q.PromotedBy(clock) && clock <= t ==>
          && (m in PopAll(q, t) <==> due <= t)
          && (q.Pop(t).1 == Some(m) ==> due <= t)
          && (due <= t ==> q.Pop(t).1.Some?))
  }

  lemma HeldIsDeliverable(q: QueueState, e: Entry)
    requires q.WellFormed() && e in q.Held()
    ensures DeliverableFrom(q, e.msg, e.msg.availableAt)
  {
    forall clock, t | q.PromotedBy(clock) && clock <= t
      ensures e.msg in PopAll(q, t) <==> e.msg.availableAt <= t
      ensures q.Pop(t).1 == Some(e.msg) ==> e.msg.availableAt <= t
      ensures e.msg.availableAt <= t ==> q.Pop(t).1.Some?
    {
      DrainedWhenAvailable(q, clock, t, e);
      PoppedWhenAvailable(q, clock, t, e);
    }
  }

  /**
   * An accepted delay is kept exactly, before and after recovery: the message can be had from
   * EnqueuedAt plus the delay on, and not before.
   */
  lemma VisibleFromItsDelay(c: RecordCodec, s: ServiceState, rs: seq<Record>, req: EnqueueRequest, id: string, now: Time, ts: Time)
    requires c.Sound() && Consistent(c, s, rs) && !s.queue.Holds(id)
    requires s.Enqueue(c, req, id, now, ts, Done).1.Ok?
    ensures var (s', r) := s.Enqueue(c, req, id, now, ts, Done);
            var recovered := Restart(c, s'.queue.mode, s'.wal.file, s'.wal.synced);
            var due := now + req.delaySeconds * NANOS_PER_SECOND;
            && r.value.enqueuedAt == now <= due && recovered.Ok?
            && DeliverableFrom(s'.queue, r.value, due) && DeliverableFrom(recovered.value.queue, r.value, due)
  {
    DelayIsExact(now, req.delaySeconds);
    AcceptedIsDeliverable(c, s, rs, req, id, now, ts);
    AcceptedEnqueue(c, s, req, id, now, ts, Done);
  }

  lemma AcceptedIsDeliverable(c: RecordCodec, s: ServiceState, rs: seq<Record>, req: EnqueueRequest, id: string, now: Time, ts: Time)
    requires c.Sound() && Consistent(c, s, rs) && !s.queue.Holds(id)
    requires s.Enqueue(c, req, id, now, ts, Done).1.Ok?
    ensures var (s', r) := s.Enqueue(c, req, id, now, ts, Done);
            var recovered := Restart(c, s'.queue.mode, s'.wal.file, s'.wal.synced);
            && recovered.Ok? && DeliverableFrom(s'.queue, r.value, r.value.availableAt)
            && DeliverableFrom(recovered.value.queue, r.value, r.value.availableAt)
  {
    var rs' := EnqueueKeepsConsistent(c, s, rs, req, id, now, ts, Done);
    var s', m := s.Enqueue(c, req, id, now, ts, Done).0, s.Enqueue(c, req, id, now, ts, Done).1.value;
    EnqueuedIsHeldAndRecovered(c, s, rs, req, id, now, ts);
    RestartIsConsistent(c, s'.queue.mode, rs', s'.seqNo, s'.wal.recordNo, s'.wal.synced);
    BothDeliver(s'.queue, Restart(c, s'.queue.mode, s'.wal.file, s'.wal.synced).value.queue, id, m);
  }

  lemma BothDeliver(q: QueueState, q': QueueState, id: string, m: Message)
    requires q.WellFormed() && q.Holds(id) && q.Lookup(id).msg == m
    requires q'.WellFormed() && q'.Holds(id) && q'.Lookup(id).msg == m
    ensures DeliverableFrom(q, m, m.availableAt) && DeliverableFrom(q', m, m.availableAt)
  {
    LookedUpIsDeliverable(q, id, m);
    LookedUpIsDeliverable(q', id, m);
  }

  lemma LookedUpIsDeliverable(q: QueueState, id: string, m: Message)
    requires q.WellFormed() && q.Holds(id) && q.Lookup(id).msg == m
    ensures DeliverableFrom(q, m, m.availableAt)
  {
    HeldIsDeliverable(q, q.Lookup(id));
  }
}
