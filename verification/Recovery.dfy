/**
 * Recovery after a run with crashes (pkg/service/queue_service.go:66-150): whatever steps, failures, crashes
 * and restarts led there, the service as it stands and the one rebuilt from its file answer alike.
 */
module Recovery {
  import opened Model
  import opened Scheduling
  import opened Codec
  import opened Log
  import opened Durability
  import opened Protocol
  import opened Agreement
  import opened LiveSeqs
  import opened Ledger
  import Service
  import Bisimulation

  /** Between two operations, with no append in doubt. */
  predicate AtRest(w: World) {
    w.phase.Idle? && w.doubtful == {}
  }

  lemma MemoryIsTheLive(q: QueueState, rs: seq<Record>)
    requires q.WellFormed() && AgreeOn(q, Idle, {}, rs)
    ensures Agrees(q, LiveIn(rs))
  {
    forall e | e in q.Held() ensures e.msg.id in LiveIn(rs) && LiveIn(rs)[e.msg.id] == e.msg {
      MemoryIs(q, e);
      assert LogOf(rs, e.msg.id) == MemoryOf(q, e.msg.id);
    }
    forall id | id in LiveIn(rs) ensures q.Holds(id) {
      assert LogOf(rs, id) == MemoryOf(q, id);
    }
  }

  /**
   * After any run of protocol steps, with crashes anywhere, that leaves the service at rest and no refused
   * ENQUEUE record in the file: memory holds exactly what the file says, and Seqs ascend in the log.
   */
  lemma RunEndsInStep(c: RecordCodec, mode: Mode, steps: seq<Step>) returns (read: seq<Record>)
    requires c.Sound() && Runs(c, Start(mode), steps) && AtRest(After(c, Start(mode), steps))
    ensures var w := After(c, Start(mode), steps);
            && ReadBack(c, w.file) == Ok(read)
            && (NoneRefused(read, w.refused) ==> Bisimulation.InStep(c, ServiceOf(w), read))
  {
    var w := After(c, Start(mode), steps);
    var rs, d, tail := RunIsOk(c, mode, steps, false);
    read := DiskIsRead(c, w, rs, d, tail);
    ReadAgrees(w, rs, tail, read);
    MemoryIsTheLive(w.queue, read);
    var all := WithTail(rs, tail);
    assert read == all[..|read|] && BoundedAt(w.refused, all, |read|, Top(w));
  }

  /**
   * So such a service and the one rebuilt from its file give the same answers to every later run under a
   * non-decreasing clock, up to one order-preserving renaming of Seqs that leaves the Seqs of the
   * survivors alone.
   */
  lemma RecoveredAnswersAlike(c: RecordCodec, mode: Mode, steps: seq<Step>, read: seq<Record>, clock: Time, ops: seq<Bisimulation.Op>)
    returns (g: Bisimulation.Renaming)
    requires c.Sound() && Runs(c, Start(mode), steps) && AtRest(After(c, Start(mode), steps))
    requires var w := After(c, Start(mode), steps);
             && ReadBack(c, w.file) == Ok(read) && NoneRefused(read, w.refused)
             && w.queue.PromotedBy(clock) && Bisimulation.ClockRuns(ops, clock)
    ensures Bisimulation.OrderPreserving(g)
    ensures forall e :: e in After(c, Start(mode), steps).queue.Held() ==> Bisimulation.Rename(g, e.msg) == e.msg
    ensures var w := After(c, Start(mode), steps);
            var recovered := Service.Restart(c, w.queue.mode, w.file, w.synced);
            && recovered.Ok?
            && var (ys, ys') := (Bisimulation.Answers(c, ServiceOf(w), ops), Bisimulation.Answers(c, recovered.value, ops));
               |ys| == |ys'| == |ops| && forall i :: 0 <= i < |ops| ==> ys'[i] == Bisimulation.RenameAnswer(g, ys[i])
  {
    var w := After(c, Start(mode), steps);
    var _ := RunEndsInStep(c, mode, steps);
    g := Bisimulation.RecoveredAnswersAlike(c, ServiceOf(w), read, clock, ops);
  }
}
