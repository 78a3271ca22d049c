/**
 * Record numbers and Seqs through every protocol step (pkg/service/queue_service.go:110-126,
 * pkg/storage/wal.go:412-433): record numbers always ascend; the Seqs of the survivors ascend in the log,
 * up to the counter, whenever no ENQUEUE record whose append returned an error is whole in the file.
 */
module LiveSeqs {
  import opened Model
  import opened Codec
  import opened Replay
  import opened Service
  import opened Durability
  import opened Protocol

  /** None of the records is an ENQUEUE whose append returned an error. */
  ghost predicate NoneRefused(rs: seq<Record>, refused: set<nat>) {
    forall i :: 0 <= i < |rs| && rs[i].op == OP_ENQUEUE ==> rs[i].recordNo !in refused
  }

  ghost predicate Ascends(rs: seq<Record>) {
    AscendingSeqs(InLogOrder(rs), MaxSeq(InLogOrder(rs)))
  }

  /** The highest Seq that a record in the file may have. */
  function Top(w: World): nat {
    if w.phase.Submitting? && w.seqNo > 0 then w.seqNo - 1 else w.seqNo
  }

  /** Cut to m records, the log has ascending Seqs unless a refused record is left in it. */
  ghost predicate AscendsAt(refused: set<nat>, all: seq<Record>, m: int)
    requires 0 <= m <= |all|
  {
    NoneRefused(all[..m], refused) ==> Ascends(all[..m])
  }

  ghost predicate BoundedAt(refused: set<nat>, all: seq<Record>, m: int, top: nat)
    requires 0 <= m <= |all|
  {
    NoneRefused(all[..m], refused) ==> AscendingSeqs(InLogOrder(all[..m]), top)
  }

  ghost predicate SeqInHand(w: World, rs: seq<Record>) {
    match w.phase
    case Submitting(m) => m.seqNo == w.seqNo >= 1
    case Submitted(m) => rs != [] && rs[|rs| - 1].op == OP_ENQUEUE && rs[|rs| - 1].recordNo == w.recordNo
    case _ => true
  }

  /** For every cut that a crash could make, and for the file as it is while the service is up. */
  ghost predicate SeqsOk(w: World, rs: seq<Record>, d: nat, tail: Tail) {
    var all := WithTail(rs, tail);
    && d <= |rs|
    && Numbered(all, w.recordNo)
    && (forall m :: d <= m <= |all| ==> AscendsAt(w.refused, all, m))
    && (!w.phase.Down? ==> forall m :: |rs| <= m <= |all| ==> BoundedAt(w.refused, all, m, Top(w)))
    && SeqInHand(w, rs)
  }

  lemma BoundedAscends(rs: seq<Record>, top: nat)
    requires AscendingSeqs(InLogOrder(rs), top)
    ensures Ascends(rs)
  {
    MaxSeqBounds(InLogOrder(rs), top);
  }

  // ---------- Steps ----------

  /** Where the file stays as it is, and what is refused too, only a lower counter could do harm. */
  lemma SameFileKeeps(w: World, w': World, rs: seq<Record>, d: nat, tail: Tail, d': nat)
    requires SeqsOk(w, rs, d, tail) && d <= d' <= |rs|
    requires w'.recordNo == w.recordNo && w'.refused == w.refused
    requires !w'.phase.Down? ==> !w.phase.Down? && Top(w) <= Top(w')
    requires SeqInHand(w', rs)
    ensures SeqsOk(w', rs, d', tail)
  {
    var all := WithTail(rs, tail);
    if !w'.phase.Down? {
      forall m | |rs| <= m <= |all| ensures BoundedAt(w'.refused, all, m, Top(w')) {
        assert BoundedAt(w.refused, all, m, Top(w));
      }
    }
  }

  /** One more record, which is no ENQUEUE or has the Seq after those in the file, and the highest number. */
  lemma OneMoreKeeps(w: World, w': World, rs: seq<Record>, d: nat, r: Record, rs': seq<Record>, tail': Tail, top: nat)
    requires SeqsOk(w, rs, d, NoTail) && !w.phase.Down? && rs <= rs' && WithTail(rs', tail') == rs + [r]
    requires r.recordNo == w.recordNo + 1 == w'.recordNo
    requires w.refused - {r.recordNo} <= w'.refused
    requires r.op == OP_ENQUEUE ==> r.recordNo in w'.refused || (r.msgSeq == Top(w) + 1 && top == Top(w) + 1)
    requires top >= Top(w) && Top(w') == top && !w'.phase.Down? && SeqInHand(w', rs')
    ensures SeqsOk(w', rs', d, tail')
  {
    OneMoreAscends(w, rs, d, r, w'.refused, top);
    OneMoreIsBounded(w, rs, d, r, w'.refused, top);
    OneMoreIsNumbered(rs, w.recordNo, r);
  }

  lemma OneMoreIsNumbered(rs: seq<Record>, last: nat, r: Record)
    requires Numbered(rs, last) && r.recordNo == last + 1
    ensures Numbered(rs + [r], last + 1)
  {
  }

  lemma OneMoreAscends(w: World, rs: seq<Record>, d: nat, r: Record, refused': set<nat>, top: nat)
    requires SeqsOk(w, rs, d, NoTail) && !w.phase.Down? && top >= Top(w)
    requires r.recordNo == w.recordNo + 1 && w.refused - {r.recordNo} <= refused'
    requires r.op == OP_ENQUEUE ==> r.recordNo in refused' || (r.msgSeq == Top(w) + 1 && top == Top(w) + 1)
    ensures forall m :: d <= m <= |rs + [r]| ==> AscendsAt(refused', rs + [r], m)
  {
    var all := rs + [r];
    OneMoreCut(w, rs, d, r, refused');
    OneMoreWhole(w, rs, d, r, refused', top);
    assert all[..|all|] == all;
  }

  lemma OneMoreIsBounded(w: World, rs: seq<Record>, d: nat, r: Record, refused': set<nat>, top: nat)
    requires SeqsOk(w, rs, d, NoTail) && !w.phase.Down? && top >= Top(w)
    requires r.recordNo == w.recordNo + 1 && w.refused - {r.recordNo} <= refused'
    requires r.op == OP_ENQUEUE ==> r.recordNo in refused' || (r.msgSeq == Top(w) + 1 && top == Top(w) + 1)
    ensures forall m :: |rs| <= m <= |rs + [r]| ==> BoundedAt(refused', rs + [r], m, top)
  {
    var all := rs + [r];
    OneMoreWhole(w, rs, d, r, refused', top);
    BoundedGrows(w, rs, d, r, refused', top);
    assert all[..|rs|] == rs && all[..|all|] == all;
  }

  lemma OneMoreCut(w: World, rs: seq<Record>, d: nat, r: Record, refused': set<nat>)
    requires SeqsOk(w, rs, d, NoTail) && r.recordNo == w.recordNo + 1 && w.refused - {r.recordNo} <= refused'
    ensures forall m :: d <= m <= |rs| ==> AscendsAt(refused', rs + [r], m)
  {
    forall m | d <= m <= |rs| ensures AscendsAt(refused', rs + [r], m) {
      assert (rs + [r])[..m] == rs[..m];
      FewerRefused(rs[..m], w.refused, refused', r.recordNo);
      assert AscendsAt(w.refused, rs, m);
    }
  }

  lemma OneMoreWhole(w: World, rs: seq<Record>, d: nat, r: Record, refused': set<nat>, top: nat)
    requires SeqsOk(w, rs, d, NoTail) && !w.phase.Down? && top >= Top(w)
    requires r.recordNo == w.recordNo + 1 && w.refused - {r.recordNo} <= refused'
    requires r.op == OP_ENQUEUE ==> r.recordNo in refused' || (r.msgSeq == Top(w) + 1 && top == Top(w) + 1)
    ensures NoneRefused(rs + [r], refused') ==> AscendingSeqs(InLogOrder(rs + [r]), top) && Ascends(rs + [r])
  {
    var all := rs + [r];
    assert all[|rs|] == r && forall i :: 0 <= i < |rs| ==> all[i] == rs[i];
    assert rs[..|rs|] == rs && BoundedAt(w.refused, rs, |rs|, Top(w));
    FewerRefused(rs, w.refused, refused', r.recordNo);
    if NoneRefused(all, refused') {
      assert NoneRefused(rs, refused');
      LogOrderGrows(rs, r, Top(w));
      BoundedAscends(all, top);
    }
  }

  /** Without the new record nothing is higher than before. */
  lemma BoundedGrows(w: World, rs: seq<Record>, d: nat, r: Record, refused': set<nat>, top: nat)
    requires SeqsOk(w, rs, d, NoTail) && !w.phase.Down? && top >= Top(w)
    requires r.recordNo == w.recordNo + 1 && w.refused - {r.recordNo} <= refused'
    ensures NoneRefused(rs, refused') ==> AscendingSeqs(InLogOrder(rs), top)
  {
    assert rs[..|rs|] == rs && BoundedAt(w.refused, rs, |rs|, Top(w));
    FewerRefused(rs, w.refused, refused', r.recordNo);
  }

  /** A record with a number that none of these has decides nothing about them. */
  lemma FewerRefused(rs: seq<Record>, refused: set<nat>, refused': set<nat>, no: nat)
    requires forall i :: 0 <= i < |rs| ==> rs[i].recordNo < no
    requires refused - {no} <= refused'
    ensures NoneRefused(rs, refused') ==> NoneRefused(rs, refused)
  {
  }

  lemma WriteKeeps(w: World, w': World, rs: seq<Record>, d: nat, ts: Time)
    requires SeqsOk(w, rs, d, NoTail) && (w.phase.Submitting? || w.phase.Taken?)
    requires w'.recordNo == w.recordNo + 1 && w'.refused == w.refused - {w.recordNo + 1} && w'.seqNo == w.seqNo
    requires w'.phase == if w.phase.Submitting? then Submitted(w.phase.m) else Marked(w.phase.m)
    ensures SeqsOk(w', rs + [Pending(w, ts)], d, NoTail)
  {
    OneMoreKeeps(w, w', rs, d, Pending(w, ts), rs + [Pending(w, ts)], NoTail, Top(w'));
  }

  lemma WriteFailsKeeps(w: World, w': World, rs: seq<Record>, d: nat, r: Record, rs': seq<Record>, tail': Tail)
    requires SeqsOk(w, rs, d, NoTail) && (w.phase.Submitting? || w.phase.Taken?)
    requires r.recordNo == w.recordNo + 1 && r.op == if w.phase.Submitting? then OP_ENQUEUE else OP_DEQUEUE
    requires rs <= rs' && (WithTail(rs', tail') == rs || WithTail(rs', tail') == rs + [r])
    requires w'.phase.Idle? && w'.recordNo == w.recordNo + 1
    requires if w.phase.Submitting? then w'.seqNo == w.seqNo - 1 && w'.refused == w.refused - {w.recordNo + 1} + {w.recordNo + 1}
             else w'.seqNo == w.seqNo && w'.refused == w.refused - {w.recordNo + 1}
    ensures SeqsOk(w', rs', d, tail')
  {
    if WithTail(rs', tail') == rs {
      NothingWrittenKeeps(w, w', rs, d);
    } else {
      OneMoreKeeps(w, w', rs, d, r, rs', tail', Top(w));
    }
  }

  /** A number used up without a record. */
  lemma NothingWrittenKeeps(w: World, w': World, rs: seq<Record>, d: nat)
    requires SeqsOk(w, rs, d, NoTail) && !w.phase.Down? && w'.phase.Idle?
    requires w'.recordNo == w.recordNo + 1 && Top(w') == Top(w) && w.refused - {w.recordNo + 1} <= w'.refused
    ensures SeqsOk(w', rs, d, NoTail)
  {
    forall m | d <= m <= |rs| ensures AscendsAt(w'.refused, rs, m) {
      FewerRefused(rs[..m], w.refused, w'.refused, w.recordNo + 1);
      assert AscendsAt(w.refused, rs, m);
    }
    FewerRefused(rs, w.refused, w'.refused, w.recordNo + 1);
    assert rs[..|rs|] == rs && BoundedAt(w.refused, rs, |rs|, Top(w));
  }

  lemma MoreIsRefused(rs: seq<Record>, refused: set<nat>, refused': set<nat>)
    requires refused <= refused'
    ensures NoneRefused(rs, refused') ==> NoneRefused(rs, refused)
  {
  }

  lemma SyncFailsKeeps(w: World, w': World, rs: seq<Record>, d: nat)
    requires SeqsOk(w, rs, d, NoTail) && w.phase.Submitted?
    requires w'.phase.Idle? && w'.recordNo == w.recordNo && w'.refused == w.refused + {w.recordNo}
    ensures SeqsOk(w', rs, d, NoTail)
  {
    forall m | d <= m <= |rs| ensures AscendsAt(w'.refused, rs, m) {
      MoreIsRefused(rs[..m], w.refused, w'.refused);
      assert AscendsAt(w.refused, rs, m);
    }
    assert rs[..|rs|] == rs;
  }

  lemma CrashKeeps(w: World, w': World, rs: seq<Record>, d: nat, tail: Tail, rs': seq<Record>, tail': Tail)
    requires SeqsOk(w, rs, d, tail) && d <= |rs'| && WithTail(rs', tail') <= WithTail(rs, tail)
    requires w'.phase.Down? && w'.recordNo == w.recordNo && w'.refused == w.refused
    ensures SeqsOk(w', rs', d, tail')
  {
    var all, all' := WithTail(rs, tail), WithTail(rs', tail');
    assert forall i :: 0 <= i < |all'| ==> all'[i] == all[i];
    forall m | d <= m <= |all'| ensures AscendsAt(w'.refused, all', m) {
      assert all'[..m] == all[..m];
      assert AscendsAt(w.refused, all, m);
    }
  }

  lemma ReopenedKeeps(w: World, w': World, rs: seq<Record>, d: nat)
    requires SeqsOk(w, rs, d, NoTail) && Reopened(w', rs) && w'.refused == w.refused
    ensures SeqsOk(w', rs, d, NoTail)
  {
    MaxNoIsHighest(NOTHING, rs);
    assert rs[..|rs|] == rs && AscendsAt(w.refused, rs, |rs|);
    if Ascends(rs) {
      ListingIsLogOrder(rs, MaxSeq(InLogOrder(rs)));
    }
  }

  lemma ForeignKeeps(w: World, w': World, rs: seq<Record>, d: nat, r: Record)
    requires SeqsOk(w, rs, d, NoTail) && w.phase.Down? && IsForeign(r) && Fold(NOTHING, rs).maxNo < r.recordNo
    requires w'.phase.Down? && w'.recordNo == r.recordNo && w'.refused == w.refused
    ensures SeqsOk(w', rs + [r], d, NoTail)
  {
    var all := rs + [r];
    MaxNoIsHighest(NOTHING, rs);
    assert all[|rs|] == r && all[..|all|] == all && all[..|rs|] == rs && rs[..|rs|] == rs;
    forall m | d <= m <= |all| ensures AscendsAt(w'.refused, all, m) {
      if m <= |rs| {
        assert all[..m] == rs[..m];
        assert AscendsAt(w.refused, rs, m);
      } else {
        assert AscendsAt(w.refused, rs, |rs|);
        assert NoneRefused(all, w.refused) ==> NoneRefused(rs, w.refused) by {
          assert forall i :: 0 <= i < |rs| ==> all[i] == rs[i];
        }
        assert InLogOrder(all) == InLogOrder(rs);
      }
    }
  }

  lemma StepKeepsSeqs(c: RecordCodec, w: World, rs: seq<Record>, d: nat, tail: Tail, step: Step,
                      rs': seq<Record>, d': nat, tail': Tail)
    requires SeqsOk(w, rs, d, tail) && Enabled(c, w, step) && DiskMoves(c, w, step, rs, d, tail, rs', d', tail')
    requires w.phase.Submitted? || w.phase.Marked? ==> tail.NoTail?
    ensures SeqsOk(Next(c, w, step), rs', d', tail')
  {
    var w' := Next(c, w, step);
    match step
    case Write(ts) => WriteKeeps(w, w', rs, d, ts);
    case WriteFails(ts, _) => WriteFailsKeeps(w, w', rs, d, Pending(w, ts), rs', tail');
    case SyncFails =>
      if w.phase.Submitted? {
        SyncFailsKeeps(w, w', rs, d);
      } else {
        SameFileKeeps(w, w', rs, d, tail, d);
      }
    case Crash(_) => CrashKeeps(w, w', rs, d, tail, rs', tail');
    case Foreign(r) => ForeignKeeps(w, w', rs, d, r);
    case Restart => ReopenedKeeps(w, w', rs, d);
    case _ => SameFileKeeps(w, w', rs, d, tail, d');
  }
}
