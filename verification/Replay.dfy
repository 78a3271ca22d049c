/**
 * Replay of log records as a fold (pkg/storage/wal.go:204-253), its closed form and its idempotence.
 */
module Replay {
  import opened Model
  import opened Codec

  const OP_ENQUEUE := "ENQUEUE"
  const OP_DEQUEUE := "DEQUEUE"

  const RECORD_VERSION := 1

  /** The zero time.Time, the first of January of year 1, relative to the Unix epoch. */
  const ZERO_TIME: Time := -62_135_596_800 * NANOS_PER_SECOND

  type Live = map<string, Message>

  /** The live messages and the highest record number seen. */
  datatype Folded = Folded(live: Live, maxNo: nat)

  const NOTHING := Folded(map[], 0)

  function Or<T>(o: Option<T>, default: T): T {
    match o
    case None => default
    case Some(x) => x
  }

  function MessageOf(r: Record): Message {
    Message(r.id, if r.msgSeq == 0 then r.recordNo else r.msgSeq, r.payload, Or(r.priority, 0),
            Or(r.enqueuedAt, ZERO_TIME), Or(r.availableAt, ZERO_TIME),
            if r.status == "" then STATUS_PENDING else r.status)
  }

  function EnqueueRecord(m: Message): Record {
    Record(0, OP_ENQUEUE, 0, 0, m.id, m.seqNo, m.payload, Some(m.priority), Some(m.enqueuedAt),
           Some(m.availableAt), if m.status == "" then STATUS_PENDING else m.status)
  }

  function DequeueRecord(id: string): Record {
    Record(0, OP_DEQUEUE, 0, 0, id, 0, "", None, None, None, "")
  }

  /** The envelope that appendLocked puts on a record. */
  function Stamp(r: Record, no: nat, ts: Time): Record {
    r.(v := RECORD_VERSION, recordNo := no, ts := ts)
  }

  /** A message the service makes comes back from its record unchanged. */
  lemma EnqueueRecordKeepsMessage(m: Message, no: nat, ts: Time)
    requires m.seqNo >= 1 && m.status != ""
    ensures MessageOf(Stamp(EnqueueRecord(m), no, ts)) == m
  {
  }

  /** What is written: the two operations by name, and an envelope of version 1. */
  lemma RecordsWritten(m: Message, id: string, r: Record, no: nat, ts: Time)
    ensures EnqueueRecord(m).op == "ENQUEUE" && EnqueueRecord(m).id == m.id && EnqueueRecord(m).msgSeq == m.seqNo
    ensures m.status == "" ==> EnqueueRecord(m).status == "PENDING"
    ensures DequeueRecord(id).op == "DEQUEUE" && DequeueRecord(id).id == id
    ensures Stamp(r, no, ts).v == 1 && Stamp(r, no, ts).recordNo == no && Stamp(r, no, ts).ts == ts
    ensures Stamp(r, no, ts).op == r.op && Stamp(r, no, ts).id == r.id
  {
  }

  function ApplyOp(live: Live, r: Record): Live {
    if r.op == OP_ENQUEUE then
      if r.id == "" || r.id in live then live else live[r.id := MessageOf(r)]
    else if r.op == OP_DEQUEUE then
      if r.id == "" then live else live - {r.id}
    else live
  }

  function Apply(f: Folded, r: Record): Folded {
    Folded(ApplyOp(f.live, r), if r.recordNo > f.maxNo then r.recordNo else f.maxNo)
  }

  function Fold(f: Folded, rs: seq<Record>): Folded {
    if rs == [] then f
    else Apply(Fold(f, rs[..|rs| - 1]), rs[|rs| - 1])
  }

  lemma FoldAppend(f: Folded, rs: seq<Record>, r: Record)
    ensures Fold(f, rs + [r]) == Apply(Fold(f, rs), r)
  {
    assert (rs + [r])[..|rs|] == rs;
  }

  /** Every live message is stored under its own ID. */
  ghost predicate Keyed(live: Live) {
    forall id :: id in live ==> live[id].id == id
  }

  lemma {:induction false} FoldIsKeyed(f: Folded, rs: seq<Record>)
    requires Keyed(f.live)
    ensures Keyed(Fold(f, rs).live)
  {
    if rs != [] {
      FoldIsKeyed(f, rs[..|rs| - 1]);
    }
  }

  // ---------- Closed form ----------

  predicate Enqueues(r: Record, id: string) {
    r.op == OP_ENQUEUE && r.id == id && id != ""
  }

  predicate Dequeues(r: Record, id: string) {
    r.op == OP_DEQUEUE && r.id == id && id != ""
  }

  /** rs[i] is the first ENQUEUE of id at or after `from`. */
  ghost predicate FirstEnqueue(rs: seq<Record>, id: string, from: nat, i: int) {
    && from <= i < |rs| && Enqueues(rs[i], id)
    && forall j :: from <= j < i ==> !Enqueues(rs[j], id)
  }

  /** rs[i] is the last DEQUEUE of id. */
  ghost predicate LastDequeue(rs: seq<Record>, id: string, i: int) {
    && 0 <= i < |rs| && Dequeues(rs[i], id)
    && forall j :: i < j < |rs| ==> !Dequeues(rs[j], id)
  }

  ghost predicate NeverEnqueued(rs: seq<Record>, id: string, from: nat) {
    forall j :: from <= j < |rs| ==> !Enqueues(rs[j], id)
  }

  ghost predicate NeverDequeued(rs: seq<Record>, id: string) {
    forall j :: 0 <= j < |rs| ==> !Dequeues(rs[j], id)
  }

  /** m is what id has after replay, read off the records without replaying them. */
  ghost predicate FinalValue(start: Live, rs: seq<Record>, id: string, m: Option<Message>) {
    if NeverDequeued(rs, id) then
      if id in start then m == Some(start[id])
      else FirstEnqueueOr(rs, id, 0, m)
    else
      exists d :: LastDequeue(rs, id, d) && FirstEnqueueOr(rs, id, d + 1, m)
  }

  ghost predicate FirstEnqueueOr(rs: seq<Record>, id: string, from: nat, m: Option<Message>) {
    if NeverEnqueued(rs, id, from) then m == None
    else exists i :: FirstEnqueue(rs, id, from, i) && m == Some(MessageOf(rs[i]))
  }

  function Get(live: Live, id: string): Option<Message> {
    if id in live then Some(live[id]) else None
  }

  lemma FirstEnqueueGrows(rs: seq<Record>, r: Record, id: string, from: nat, m: Option<Message>)
    requires from <= |rs| && FirstEnqueueOr(rs, id, from, m)
    ensures FirstEnqueueOr(rs + [r], id, from,
                           if m == None && Enqueues(r, id) then Some(MessageOf(r)) else m)
  {
    var rs' := rs + [r];
    if m.Some? {
      var i :| FirstEnqueue(rs, id, from, i) && m == Some(MessageOf(rs[i]));
      assert FirstEnqueue(rs', id, from, i);
      assert Enqueues(rs'[i], id);
    } else {
      assert NeverEnqueued(rs, id, from) by {
        if i :| FirstEnqueue(rs, id, from, i) && m == Some(MessageOf(rs[i])) {
        }
      }
      if Enqueues(r, id) {
        assert FirstEnqueue(rs', id, from, |rs|);
        assert Enqueues(rs'[|rs|], id);
      }
    }
  }

  /** One record's effect on one ID. */
  function ValueAfter(m: Option<Message>, r: Record, id: string): Option<Message> {
    if Dequeues(r, id) then None
    else if m == None && Enqueues(r, id) then Some(MessageOf(r))
    else m
  }

  lemma ApplyActsOnEachId(live: Live, r: Record, id: string)
    ensures Get(ApplyOp(live, r), id) == ValueAfter(Get(live, id), r, id)
  {
  }

  lemma FinalValueGrows(start: Live, rs: seq<Record>, r: Record, id: string, m: Option<Message>)
    requires FinalValue(start, rs, id, m)
    ensures FinalValue(start, rs + [r], id, ValueAfter(m, r, id))
  {
    var rs' := rs + [r];
    if Dequeues(r, id) {
      assert Dequeues(rs'[|rs|], id);
      assert LastDequeue(rs', id, |rs|) && NeverEnqueued(rs', id, |rs| + 1);
    } else if NeverDequeued(rs, id) {
      assert NeverDequeued(rs', id);
      if id !in start {
        FirstEnqueueGrows(rs, r, id, 0, m);
      }
    } else {
      var d :| LastDequeue(rs, id, d) && FirstEnqueueOr(rs, id, d + 1, m);
      assert Dequeues(rs'[d], id) && LastDequeue(rs', id, d);
      FirstEnqueueGrows(rs, r, id, d + 1, m);
    }
  }

  /**
   * After replay an ID has the first ENQUEUE after its last DEQUEUE; if it was never dequeued, the
   * value it started with, or else its first ENQUEUE.
   */
  lemma {:induction false} ReplayHasClosedForm(f: Folded, rs: seq<Record>, id: string)
    ensures FinalValue(f.live, rs, id, Get(Fold(f, rs).live, id))
  {
    if rs == [] {
      assert NeverDequeued(rs, id);
    } else {
      var n := |rs| - 1;
      assert rs == rs[..n] + [rs[n]];
      ReplayHasClosedForm(f, rs[..n], id);
      ApplyActsOnEachId(Fold(f, rs[..n]).live, rs[n], id);
      FinalValueGrows(f.live, rs[..n], rs[n], id, Get(Fold(f, rs[..n]).live, id));
    }
  }

  lemma FinalValueIsUnique(start: Live, rs: seq<Record>, id: string, a: Option<Message>, b: Option<Message>)
    requires FinalValue(start, rs, id, a) && FinalValue(start, rs, id, b)
    ensures a == b
  {
    if !NeverDequeued(rs, id) {
      var d :| LastDequeue(rs, id, d) && FirstEnqueueOr(rs, id, d + 1, a);
      var d' :| LastDequeue(rs, id, d') && FirstEnqueueOr(rs, id, d' + 1, b);
      assert d == d';
      FirstEnqueueIsUnique(rs, id, d + 1, a, b);
    } else if id !in start {
      FirstEnqueueIsUnique(rs, id, 0, a, b);
    }
  }

  lemma FirstEnqueueIsUnique(rs: seq<Record>, id: string, from: nat, a: Option<Message>, b: Option<Message>)
    requires FirstEnqueueOr(rs, id, from, a) && FirstEnqueueOr(rs, id, from, b)
    ensures a == b
  {
    if !NeverEnqueued(rs, id, from) {
      var i :| FirstEnqueue(rs, id, from, i) && a == Some(MessageOf(rs[i]));
      var j :| FirstEnqueue(rs, id, from, j) && b == Some(MessageOf(rs[j]));
      assert i == j;
    }
  }

  // ---------- What a live message is made of ----------

  /**
   * The ENQUEUE record at i is the one that id lives by: nothing dequeues the ID after it, and every
   * ENQUEUE of the ID before it was dequeued before it.
   */
  ghost predicate LivesBy(rs: seq<Record>, id: string, i: int) {
    && 0 <= i < |rs| && rs[i].op == "ENQUEUE" && rs[i].id == id && id != ""
    && (forall k :: i < k < |rs| ==> !(rs[k].op == "DEQUEUE" && rs[k].id == id))
    && (forall j :: 0 <= j < i && rs[j].op == "ENQUEUE" && rs[j].id == id ==> DequeuedWithin(rs, id, j, i))
  }

  ghost predicate DequeuedWithin(rs: seq<Record>, id: string, j: int, i: int)
    requires 0 <= j < i < |rs|
  {
    exists k :: j < k < i && rs[k].op == "DEQUEUE" && rs[k].id == id
  }

  /** m is what the record r says: an absent Seq is the record's number, the rest has its defaults. */
  predicate SaidBy(m: Message, r: Record) {
    && m.id == r.id && m.payload == r.payload
    && (r.msgSeq != 0 ==> m.seqNo == r.msgSeq)
    && (r.msgSeq == 0 ==> m.seqNo == r.recordNo)
    && (r.priority.Some? ==> m.priority == r.priority.value)
    && (r.priority.None? ==> m.priority == 0)
    && (r.enqueuedAt.Some? ==> m.enqueuedAt == r.enqueuedAt.value)
    && (r.enqueuedAt.None? ==> m.enqueuedAt == -62_135_596_800_000_000_000)
    && (r.availableAt.Some? ==> m.availableAt == r.availableAt.value)
    && (r.availableAt.None? ==> m.availableAt == -62_135_596_800_000_000_000)
    && (r.status != "" ==> m.status == r.status)
    && (r.status == "" ==> m.status == "PENDING")
  }

  lemma LivesByIsFirst(rs: seq<Record>, id: string, i: nat, from: nat)
    requires LivesBy(rs, id, i) && from <= |rs|
    requires forall k :: from <= k < |rs| ==> !Dequeues(rs[k], id)
    requires from == 0 || (from <= i && Dequeues(rs[from - 1], id))
    ensures FirstEnqueue(rs, id, from, i)
  {
    forall j | from <= j < i ensures !DequeuedWithin(rs, id, j, i) {
      assert forall k :: j < k < i ==> !Dequeues(rs[k], id);
    }
  }

  /** What an ID lives by decides that it is live, and as what. */
  lemma LivesByIsLive(rs: seq<Record>, id: string, i: int)
    requires LivesBy(rs, id, i)
    ensures id in Fold(NOTHING, rs).live && SaidBy(Fold(NOTHING, rs).live[id], rs[i])
  {
    var m := Get(Fold(NOTHING, rs).live, id);
    ReplayHasClosedForm(NOTHING, rs, id);
    LivesByIsTheValue(rs, id, i, m);
  }

  lemma LivesByIsTheValue(rs: seq<Record>, id: string, i: int, m: Option<Message>)
    requires LivesBy(rs, id, i) && FinalValue(map[], rs, id, m)
    ensures m == Some(MessageOf(rs[i]))
  {
    if NeverDequeued(rs, id) {
      LivesByIsFirst(rs, id, i, 0);
      FirstIsTheValue(rs, id, 0, i, m);
    } else {
      var d :| LastDequeue(rs, id, d) && FirstEnqueueOr(rs, id, d + 1, m);
      LivesByAfter(rs, id, i, d);
      FirstIsTheValue(rs, id, d + 1, i, m);
    }
  }

  lemma LivesByAfter(rs: seq<Record>, id: string, i: nat, d: nat)
    requires LivesBy(rs, id, i) && LastDequeue(rs, id, d)
    ensures FirstEnqueue(rs, id, d + 1, i)
  {
    assert d < i by {
      assert rs[d].op == "DEQUEUE" && rs[d].id == id;
    }
    LivesByIsFirst(rs, id, i, d + 1);
  }

  lemma FirstIsTheValue(rs: seq<Record>, id: string, from: nat, i: nat, m: Option<Message>)
    requires FirstEnqueue(rs, id, from, i) && FirstEnqueueOr(rs, id, from, m)
    ensures m == Some(MessageOf(rs[i]))
  {
    var i' :| FirstEnqueue(rs, id, from, i') && m == Some(MessageOf(rs[i']));
    assert i' == i;
  }

  lemma FirstIsLivedBy(rs: seq<Record>, id: string, from: nat, i: int)
    requires FirstEnqueue(rs, id, from, i)
    requires forall k :: from <= k < |rs| ==> !Dequeues(rs[k], id)
    requires from == 0 || Dequeues(rs[from - 1], id)
    ensures LivesBy(rs, id, i)
  {
    forall k | i < k < |rs| ensures !(rs[k].op == "DEQUEUE" && rs[k].id == id) {
      assert !Dequeues(rs[k], id);
    }
    forall j | 0 <= j < i && rs[j].op == "ENQUEUE" && rs[j].id == id ensures DequeuedWithin(rs, id, j, i) {
      assert Enqueues(rs[j], id);
      assert rs[from - 1].op == "DEQUEUE" && rs[from - 1].id == id;
    }
  }

  /** An ID is live exactly when it lives by some ENQUEUE record, and then it is what that record says. */
  lemma LiveIsSaid(rs: seq<Record>, id: string)
    ensures id in Fold(NOTHING, rs).live <==> exists i :: LivesBy(rs, id, i)
    ensures forall i :: LivesBy(rs, id, i) ==> id in Fold(NOTHING, rs).live && SaidBy(Fold(NOTHING, rs).live[id], rs[i])
  {
    forall i | LivesBy(rs, id, i) ensures id in Fold(NOTHING, rs).live && SaidBy(Fold(NOTHING, rs).live[id], rs[i]) {
      LivesByIsLive(rs, id, i);
    }
    if id in Fold(NOTHING, rs).live {
      var m := Get(Fold(NOTHING, rs).live, id);
      ReplayHasClosedForm(NOTHING, rs, id);
      if NeverDequeued(rs, id) {
        var i :| FirstEnqueue(rs, id, 0, i) && m == Some(MessageOf(rs[i]));
        FirstIsLivedBy(rs, id, 0, i);
      } else {
        var d :| LastDequeue(rs, id, d) && FirstEnqueueOr(rs, id, d + 1, m);
        var i :| FirstEnqueue(rs, id, d + 1, i) && m == Some(MessageOf(rs[i]));
        FirstIsLivedBy(rs, id, d + 1, i);
      }
    }
  }

  lemma {:induction false} MaxNoIsHighest(f: Folded, rs: seq<Record>)
    ensures f.maxNo <= Fold(f, rs).maxNo
    ensures forall i :: 0 <= i < |rs| ==> rs[i].recordNo <= Fold(f, rs).maxNo
    ensures Fold(f, rs).maxNo == f.maxNo || exists i :: 0 <= i < |rs| && rs[i].recordNo == Fold(f, rs).maxNo
  {
    if rs != [] {
      MaxNoIsHighest(f, rs[..|rs| - 1]);
      assert forall i :: 0 <= i < |rs| - 1 ==> rs[..|rs| - 1][i] == rs[i];
    }
  }

  /** Replaying the same records on the state they produced changes nothing. */
  lemma ReplayIsIdempotent(f: Folded, rs: seq<Record>)
    ensures Fold(Fold(f, rs), rs) == Fold(f, rs)
  {
    var once := Fold(f, rs);
    var twice := Fold(once, rs);
    forall id ensures Get(twice.live, id) == Get(once.live, id) {
      ReplayHasClosedForm(f, rs, id);
      ReplayHasClosedForm(once, rs, id);
      var a, b := Get(once.live, id), Get(twice.live, id);
      if !NeverDequeued(rs, id) {
        assert FinalValue(f.live, rs, id, b);
        FinalValueIsUnique(f.live, rs, id, a, b);
      } else if a == None {
        assert FirstEnqueueOr(rs, id, 0, a) && FirstEnqueueOr(rs, id, 0, b);
        FirstEnqueueIsUnique(rs, id, 0, a, b);
      }
    }
    forall id ensures id in twice.live <==> id in once.live {
      assert Get(twice.live, id) == Get(once.live, id);
    }
    forall id | id in once.live ensures twice.live[id] == once.live[id] {
      assert Get(twice.live, id) == Get(once.live, id);
    }
    assert twice.live == once.live;
    MaxNoIsHighest(f, rs);
    MaxNoIsHighest(once, rs);
  }
}
