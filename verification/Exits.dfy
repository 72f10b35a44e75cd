/** What the daemon records about the end of a command is what was reported: by the process
    that ran, or by the start that failed. */
module Exits {
  import opened Model
  import opened Tables
  import opened Cells
  import opened Protocol
  import opened Invariant
  import opened Preservation
  import opened Safety
  import opened CapturedRuns

  /** In step `k` thread `tid`, which runs request `id`, learns how the command ended: the
      process reports it, or the start fails with code 127. */
  predicate Reports(
    c: Config, steps: seq<Step>, k: nat, tid: Tid, id: RequestId, code: Option<int>, signal: Option<string>) {
    && k < |steps| && Enabled(Run(c, steps[..k]), steps[k]) && steps[k].tid == tid
    && ReportsTo(Run(c, steps[..k]).threads[tid], steps[k].input, id, code, signal)
  }

  predicate ReportsTo(t: Thread, i: Input, id: RequestId, code: Option<int>, signal: Option<string>) {
    || (t.ExecRun? && t.item.request.id == id && i.ends && i.exitCode == code && i.signal == signal)
    || (t.ExecSpawn? && t.item.request.id == id && !i.pass && code == Some(127) && signal == None)
  }

  ghost predicate Reported(c: Config, steps: seq<Step>, id: RequestId, code: Option<int>, signal: Option<string>) {
    exists k: nat, tid: Tid :: Reports(c, steps, k, tid, id, code, signal)
  }

  lemma ReportedStays(
    c: Config, steps: seq<Step>, step: Step, id: RequestId, code: Option<int>, signal: Option<string>)
    requires Reported(c, steps, id, code, signal)
    ensures Reported(c, steps + [step], id, code, signal)
  {
    var k: nat, tid: Tid :| Reports(c, steps, k, tid, id, code, signal);
    assert (steps + [step])[..k] == steps[..k];
    assert Reports(c, steps + [step], k, tid, id, code, signal);
  }

  lemma ReportedNow(
    c: Config, steps: seq<Step>, step: Step, id: RequestId, code: Option<int>, signal: Option<string>)
    requires Enabled(Run(c, steps), step)
    requires ReportsTo(Run(c, steps).threads[step.tid], step.input, id, code, signal)
    ensures Reported(c, steps + [step], id, code, signal)
  {
    assert (steps + [step])[..|steps|] == steps;
    assert Reports(c, steps + [step], |steps|, step.tid, id, code, signal);
  }

  // ---------- threads ----------

  /** The item of a thread whose command was spawned. */
  function Running(t: Thread): Option<Item> {
    match t
    case ExecRun(item, _) => Some(item)
    case ExecInsert(item, _, _, _, _) => Some(item)
    case ExecCount(item, _, _, _) => Some(item)
    case _ => None
  }

  function SpawnOf(item: Item): Event {
    Spawned(item.request.id, item.request.executable, item.request.argv, item.request.cwd)
  }

  ghost predicate ThreadReported(c: Config, steps: seq<Step>, log: seq<Event>, t: Thread) {
    && (t.ExecFinish? ==> Reported(c, steps, t.id, t.exitCode, t.signal))
    && (Running(t).Some? ==> SpawnOf(Running(t).value) in log)
  }

  /** A thread comes to finish only by a report, and to run only by a spawn. */
  ghost predicate Comes(t: Thread, i: Input, o: Out) {
    && (o.next.Some? && o.next.value.ExecFinish? ==>
          ReportsTo(t, i, o.next.value.id, o.next.value.exitCode, o.next.value.signal))
    && (o.next.Some? && Running(o.next.value).Some? ==>
          Running(t) == Running(o.next.value) || SpawnOf(Running(o.next.value).value) in o.events)
  }

  lemma RunComes(c: Config, s: System, t: Thread, i: Input)
    requires Owned(t).Some?
    ensures Comes(t, i, ActRun(c, s, t, i))
  {}

  lemma OthersDoNotCome(c: Config, s: System, t: Thread, i: Input)
    requires Owned(t).None?
    ensures var n := Act(c, s, t, i).next; n.Some? ==> !n.value.ExecFinish? && Running(n.value).None?
  {}

  lemma ActComes(c: Config, s: System, t: Thread, i: Input)
    ensures Comes(t, i, Act(c, s, t, i))
  {
    if Owned(t).Some? {
      RunComes(c, s, t, i);
    } else {
      OthersDoNotCome(c, s, t, i);
    }
  }

  lemma ThreadReportedStays(
    c: Config, steps: seq<Step>, step: Step, log: seq<Event>, log': seq<Event>, t: Thread)
    requires ThreadReported(c, steps, log, t) && log <= log'
    ensures ThreadReported(c, steps + [step], log', t)
  {
    if t.ExecFinish? {
      ReportedStays(c, steps, step, t.id, t.exitCode, t.signal);
    }
  }

  lemma NextReported(c: Config, steps: seq<Step>, step: Step, o: Out)
    requires var s := Run(c, steps);
      && Enabled(s, step) && Comes(s.threads[step.tid], step.input, o)
      && ThreadReported(c, steps, s.log, s.threads[step.tid])
    ensures o.next.Some? ==> ThreadReported(c, steps + [step], Run(c, steps).log + o.events, o.next.value)
  {
    if o.next.Some? && o.next.value.ExecFinish? {
      ReportedNow(c, steps, step, o.next.value.id, o.next.value.exitCode, o.next.value.signal);
    }
  }

  // ---------- executions ----------

  ghost predicate CellReported(c: Config, steps: seq<Step>, id: RequestId, x: Cell) {
    Ended(x) ==> Reported(c, steps, id, x.execution.value.exitCode, x.execution.value.signal)
  }

  lemma FinishRecords(db: Db, op: Op, id: RequestId)
    requires op.Finish? && op.id == id && !Ended(At(db, id)) && Ended(At(Apply(db, op), id))
    ensures At(Apply(db, op), id).execution == Some(Execution(true, op.exitCode, op.signal))
  {
    ApplyAt(db, op, id);
  }

  lemma OnlyFinishFinishes(c: Config, s: System, t: Thread, i: Input)
    ensures var op := Act(c, s, t, i).op;
      op.Finish? ==> t == ExecFinish(op.id, op.exitCode, op.signal)
  {}

  lemma CellReportedStays(
    c: Config, steps: seq<Step>, step: Step, db: Db, op: Op, id: RequestId)
    requires OpPre(c.hash, db, op) && CellOk(c.hash, id, At(db, id)) && CellStep(At(db, id), At(Apply(db, op), id))
    requires CellReported(c, steps, id, At(db, id))
    requires op.Finish? && op.id == id ==> Reported(c, steps, id, op.exitCode, op.signal)
    ensures CellReported(c, steps + [step], id, At(Apply(db, op), id))
  {
    var x, x' := At(db, id), At(Apply(db, op), id);
    if Ended(x') {
      if !Ended(x) {
        EndingIsFinish(c.hash, db, op, id);
        FinishRecords(db, op, id);
      }
      ReportedStays(c, steps, step, id, x'.execution.value.exitCode, x'.execution.value.signal);
    }
  }

  // ---------- all runs ----------

  ghost predicate AllReported(c: Config, steps: seq<Step>) {
    var s := Run(c, steps);
    && (forall tid <- s.threads :: ThreadReported(c, steps, s.log, s.threads[tid]))
    && (forall id :: CellReported(c, steps, id, CellIn(s, id)))
  }

  lemma CellsReported(c: Config, steps: seq<Step>, step: Step, s': System, op: Op)
    requires AllReported(c, steps) && Inv(c, Run(c, steps)) && ByOp(c, Run(c, steps), s', op)
    requires DbStep(Run(c, steps).db, s'.db)
    requires op.Finish? ==> Reported(c, steps, op.id, op.exitCode, op.signal)
    ensures forall id :: CellReported(c, steps + [step], id, CellIn(s', id))
  {
    var s := Run(c, steps);
    forall id ensures CellReported(c, steps + [step], id, CellIn(s', id)) {
      assert CellOk(c.hash, id, At(s.db, id)) && CellStep(At(s.db, id), At(s'.db, id));
      assert CellReported(c, steps, id, CellIn(s, id));
      CellReportedStays(c, steps, step, s.db, op, id);
    }
  }

  lemma InstallReported(c: Config, steps: seq<Step>, step: Step, o: Out)
    requires var s := Run(c, steps);
      && Enabled(s, step) && (forall tid <- s.threads :: ThreadReported(c, steps, s.log, s.threads[tid]))
      && (o.next.Some? ==> ThreadReported(c, steps + [step], s.log + o.events, o.next.value))
    ensures var s' := Install(Run(c, steps), step.tid, step.child, o);
      forall tid <- s'.threads :: ThreadReported(c, steps + [step], s'.log, s'.threads[tid])
  {
    var s := Run(c, steps);
    var s' := Install(s, step.tid, step.child, o);
    forall u <- s'.threads ensures ThreadReported(c, steps + [step], s'.log, s'.threads[u]) {
      InstalledThread(s, step.tid, step.child, o, u);
      if u in s.threads && u != step.tid {
        ThreadReportedStays(c, steps, step, s.log, s'.log, s.threads[u]);
      }
    }
  }

  lemma MoveReported(c: Config, steps: seq<Step>, step: Step)
    requires AllReported(c, steps) && Inv(c, Run(c, steps)) && Enabled(Run(c, steps), step)
    ensures var s' := MoveThread(c, Run(c, steps), step.tid, step.child, step.input);
      && (forall tid <- s'.threads :: ThreadReported(c, steps + [step], s'.log, s'.threads[tid]))
      && (forall id :: CellReported(c, steps + [step], id, CellIn(s', id)))
  {
    var s := Run(c, steps);
    var t := s.threads[step.tid];
    var o := Act(c, s, t, step.input);
    ActComes(c, s, t, step.input);
    NextReported(c, steps, step, o);
    InstallReported(c, steps, step, o);
    MoveBase(c, s, step.tid, step.child, step.input);
    OnlyFinishFinishes(c, s, t, step.input);
    CellsReported(c, steps, step, MoveThread(c, s, step.tid, step.child, step.input), o.op);
  }

  lemma KeptThreadsReported(c: Config, steps: seq<Step>, step: Step, s': System)
    requires var s := Run(c, steps);
      && (forall tid <- s.threads :: ThreadReported(c, steps, s.log, s.threads[tid])) && s.log <= s'.log
      && forall u <- s'.threads :: Owned(s'.threads[u]).None? || (u in s.threads && s'.threads[u] == s.threads[u])
    ensures forall u <- s'.threads :: ThreadReported(c, steps + [step], s'.log, s'.threads[u])
  {
    var s := Run(c, steps);
    forall u <- s'.threads ensures ThreadReported(c, steps + [step], s'.log, s'.threads[u]) {
      if u in s.threads && s'.threads[u] == s.threads[u] {
        ThreadReportedStays(c, steps, step, s.log, s'.log, s.threads[u]);
      }
    }
  }

  lemma IdleReported(c: Config, steps: seq<Step>, step: Step)
    requires AllReported(c, steps) && Inv(c, Run(c, steps)) && !Enabled(Run(c, steps), step)
    requires DbStep(Run(c, steps).db, Next(c, Run(c, steps), step).db)
    ensures var s' := Next(c, Run(c, steps), step);
      && (forall tid <- s'.threads :: ThreadReported(c, steps + [step], s'.log, s'.threads[tid]))
      && (forall id :: CellReported(c, steps + [step], id, CellIn(s', id)))
  {
    var s := Run(c, steps);
    IdleThreads(c, s, step);
    IdleByOp(c, s, step);
    KeptThreadsReported(c, steps, step, Next(c, s, step));
    CellsReported(c, steps, step, Next(c, s, step), IdleOp(s, step));
  }

  lemma StepReported(c: Config, steps: seq<Step>, step: Step)
    requires AllReported(c, steps)
    ensures AllReported(c, steps + [step])
  {
    RunOk(c, steps);
    RunNext(c, steps, step);
    NextKeeps(c, Run(c, steps), step);
    if Enabled(Run(c, steps), step) {
      MoveIs(c, Run(c, steps), step);
      MoveReported(c, steps, step);
    } else {
      IdleReported(c, steps, step);
    }
  }

  lemma {:induction false} RunReported(c: Config, steps: seq<Step>)
    ensures AllReported(c, steps)
  {
    if steps == [] {
      assert forall id :: At(EMPTY_DB, id) == NO_CELL;
    } else {
      RunReported(c, steps[..|steps| - 1]);
      StepReported(c, steps[..|steps| - 1], steps[|steps| - 1]);
      assert steps[..|steps| - 1] + [steps[|steps| - 1]] == steps;
    }
  }

  /** The exit code and signal of every execution that ended by its own process are those
      that the process reported in some step to the thread that ran it, or code 127 of a
      start that failed. */
  lemma ExitIsReported(c: Config, steps: seq<Step>, id: RequestId)
    requires id in Run(c, steps).db.executions && Completed(Run(c, steps).db.executions[id])
    ensures var e := Run(c, steps).db.executions[id];
      exists k: nat, tid: Tid :: Reports(c, steps, k, tid, id, e.exitCode, e.signal)
  {
    RunReported(c, steps);
    assert CellReported(c, steps, id, CellIn(Run(c, steps), id));
  }

  /** A request is SUCCEEDED exactly when its execution ended by its own process and code 0
      was reported; and then its command was spawned. */
  lemma SuccessIsReported(c: Config, steps: seq<Step>, id: RequestId)
    requires id in Run(c, steps).db.requests
    ensures var s := Run(c, steps);
      s.db.requests[id].status == Succeeded <==>
        && id in s.db.executions && s.db.executions[id].exitCode == Some(0)
        && exists k: nat, tid: Tid :: Reports(c, steps, k, tid, id, Some(0), s.db.executions[id].signal)
    ensures Run(c, steps).db.requests[id].status == Succeeded ==>
      exists e <- Run(c, steps).log :: e.Spawned? && e.id == id
  {
    var s := Run(c, steps);
    TablesAgree(c, steps, id);
    if s.db.requests[id].status == Succeeded {
      ExitIsReported(c, steps, id);
      var k: nat, tid: Tid :| Reports(c, steps, k, tid, id, Some(0), s.db.executions[id].signal);
      SpawnedBefore(c, steps, k, tid, id);
    }
  }

  /** A process that reports was spawned. */
  lemma SpawnedBefore(c: Config, steps: seq<Step>, k: nat, tid: Tid, id: RequestId)
    requires k < |steps| && tid in Run(c, steps[..k]).threads
    requires Run(c, steps[..k]).threads[tid].ExecRun? && Run(c, steps[..k]).threads[tid].item.request.id == id
    ensures exists e <- Run(c, steps).log :: e.Spawned? && e.id == id
  {
    var s := Run(c, steps[..k]);
    RunReported(c, steps[..k]);
    assert ThreadReported(c, steps[..k], s.log, s.threads[tid]);
    assert steps[..k] + steps[k..] == steps;
    RunLater(c, steps[..k], steps[k..]);
    assert SpawnOf(s.threads[tid].item) in Run(c, steps).log;
  }
}
