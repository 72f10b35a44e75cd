/** What `execute` does from any reachable state, step by step and as a whole. */
module Executions {
  import opened Model
  import opened Tables
  import opened Cells
  import opened Protocol
  import opened Invariant
  import opened Safety
  import opened Effects

  function ItemOf(db: Db, id: RequestId): Item
    requires id in db.requests
  {
    Item(db.requests[id].request, db.requests[id].hash, db.requests[id].status)
  }

  /** The in-memory guard lets one goroutine per request pass. */
  lemma GuardDecides(c: Config, steps: seq<Step>, tid: Tid, child: Tid, i: Input)
    requires CanMove(Run(c, steps), tid, child) && Run(c, steps).threads[tid].ExecGuard?
    ensures var s := Run(c, steps); var id := s.threads[tid].id;
      Run(c, steps + [Move(tid, child, i)]) ==
        if id in s.executing then s.(threads := s.threads - {tid})
        else s.(threads := s.threads[tid := ExecGet(id)], executing := s.executing + {id})
  {
    MoveRuns(c, steps, tid, child, i);
    assert Run(c, steps).log + [] == Run(c, steps).log;
  }

  /** A request past its deadline is to be expired; one in time goes on. */
  lemma ReadDecides(c: Config, steps: seq<Step>, tid: Tid, child: Tid, i: Input)
    requires CanMove(Run(c, steps), tid, child) && Run(c, steps).threads[tid].ExecGet? && i.pass && !i.hashFails
    ensures var s := Run(c, steps); var id := s.threads[tid].id;
      && id in s.db.requests
      && Run(c, steps + [Move(tid, child, i)]) ==
           s.(threads := s.threads[tid := if s.db.requests[id].request.expiresAt <= i.now then ExecReject(id, Expired)
                                          else ExecApproval(ItemOf(s.db, id))])
  {
    var s := Run(c, steps);
    var id := s.threads[tid].id;
    RunOk(c, steps);
    assert ThreadOk(c, s, s.threads[tid]) && CellOk(c.hash, id, CellIn(s, id));
    var n := if s.db.requests[id].request.expiresAt <= i.now then ExecReject(id, Expired)
             else ExecApproval(ItemOf(s.db, id));
    Stepped(c, steps, tid, child, i, Nop, n, []);
    assert s.log + [] == s.log;
  }

  /** A request that cannot be read is left alone; one whose hash cannot be confirmed in time
      is to be rejected. */
  lemma ReadFails(c: Config, steps: seq<Step>, tid: Tid, child: Tid, i: Input)
    requires CanMove(Run(c, steps), tid, child) && Run(c, steps).threads[tid].ExecGet? && (!i.pass || i.hashFails)
    ensures var s := Run(c, steps); var id := s.threads[tid].id;
      && id in s.db.requests
      && Run(c, steps + [Move(tid, child, i)]) ==
           s.(threads := s.threads[
                tid := if !i.pass then ExecDone(id)
                       else if s.db.requests[id].request.expiresAt <= i.now then ExecReject(id, Expired)
                       else ExecReject(id, PolicyRejected)])
  {
    var s := Run(c, steps);
    var id := s.threads[tid].id;
    RunOk(c, steps);
    assert ThreadOk(c, s, s.threads[tid]);
    var n := if !i.pass then ExecDone(id)
             else if s.db.requests[id].request.expiresAt <= i.now then ExecReject(id, Expired)
             else ExecReject(id, PolicyRejected);
    Stepped(c, steps, tid, child, i, Nop, n, []);
    assert s.log + [] == s.log;
  }

  /** The stored approval passes; then the outside checks decide. */
  lemma ChecksDecide(c: Config, steps: seq<Step>, tid: Tid, child: Tid, i: Input)
    requires CanMove(Run(c, steps), tid, child) && i.pass
    requires Run(c, steps).threads[tid].ExecApproval? || Run(c, steps).threads[tid].ExecChecks?
    ensures var s := Run(c, steps); var t := s.threads[tid];
      Run(c, steps + [Move(tid, child, i)]) ==
        s.(threads := s.threads[tid := if t.ExecApproval? then ExecChecks(t.item) else ExecBegin(t.item)])
  {
    var s := Run(c, steps);
    var t := s.threads[tid];
    if t.ExecApproval? {
      IntegrityHolds(c, steps, tid, i.(hashFails := false));
      Stepped(c, steps, tid, child, i, Nop, ExecChecks(t.item), []);
    } else {
      Stepped(c, steps, tid, child, i, Nop, ExecBegin(t.item), []);
    }
    assert s.log + [] == s.log;
  }

  /** A failed check rejects the request. */
  lemma FailedCheckRejects(c: Config, steps: seq<Step>, tid: Tid, child: Tid, i: Input)
    requires CanMove(Run(c, steps), tid, child) && !i.pass
    requires Run(c, steps).threads[tid].ExecApproval? || Run(c, steps).threads[tid].ExecChecks?
    ensures var s := Run(c, steps);
      Run(c, steps + [Move(tid, child, i)]) ==
        s.(threads := s.threads[tid := ExecReject(s.threads[tid].item.request.id, PolicyRejected)])
  {
    var s := Run(c, steps);
    Stepped(c, steps, tid, child, i, Nop, ExecReject(s.threads[tid].item.request.id, PolicyRejected), []);
    assert s.log + [] == s.log;
  }

  /** The rejection closes an APPROVED request, as EXPIRED or POLICY_REJECTED. */
  lemma RejectionCloses(c: Config, steps: seq<Step>, tid: Tid, child: Tid, i: Input)
    requires CanMove(Run(c, steps), tid, child) && Run(c, steps).threads[tid].ExecReject? && i.commits
    requires var s := Run(c, steps); var id := s.threads[tid].id;
      id in s.db.requests && s.db.requests[id].status == Approved
    ensures var s := Run(c, steps); var t := s.threads[tid];
      && t.next in {Expired, PolicyRejected}
      && Run(c, steps + [Move(tid, child, i)]) ==
           s.(db := SetRow(s.db, t.id, t.next), threads := s.threads[tid := ExecDone(t.id)])
  {
    var s := Run(c, steps);
    var t := s.threads[tid];
    RunOk(c, steps);
    assert ThreadOk(c, s, t);
    Stepped(c, steps, tid, child, i, Transition(t.id, t.next, Some(Approved)), ExecDone(t.id), []);
    assert s.log + [] == s.log;
  }

  /** At the end the guard is free again. */
  lemma DoneFreesTheGuard(c: Config, steps: seq<Step>, tid: Tid, child: Tid, i: Input)
    requires CanMove(Run(c, steps), tid, child) && Run(c, steps).threads[tid].ExecDone?
    ensures var s := Run(c, steps);
      Run(c, steps + [Move(tid, child, i)]) ==
        s.(threads := s.threads - {tid}, executing := s.executing - {s.threads[tid].id})
  {
    MoveRuns(c, steps, tid, child, i);
    assert Run(c, steps).log + [] == Run(c, steps).log;
  }

  function Begun(db: Db, id: RequestId): Db
    requires id in db.requests && id in db.approvals
  {
    SetRow(db, id, Executing).(
      executions := db.executions[id := Execution(false, None, None)],
      approvals := db.approvals[id := db.approvals[id].(consumed := true)])
  }

  lemma BeginApplies(db: Db, id: RequestId)
    requires id in db.requests && db.requests[id].status == Approved && id !in db.executions
    requires id in db.approvals && !db.approvals[id].consumed
    ensures Commits(db, Begin(id, Approved)) && Apply(db, Begin(id, Approved)) == Begun(db, id)
  {}

  /** BeginExecution always commits on an APPROVED request, and consumes its approval. */
  lemma BeginTakesEffect(c: Config, steps: seq<Step>, tid: Tid, child: Tid, i: Input)
    requires CanMove(Run(c, steps), tid, child) && Run(c, steps).threads[tid].ExecBegin? && i.commits && i.reported
    requires var s := Run(c, steps); var id := s.threads[tid].item.request.id;
      id in s.db.requests && s.db.requests[id].status == Approved
    ensures var s := Run(c, steps); var item := s.threads[tid].item;
      && item.request.id in s.db.approvals
      && Run(c, steps + [Move(tid, child, i)]) ==
           s.(db := Begun(s.db, item.request.id), threads := s.threads[tid := ExecSpawn(item)])
  {
    var s := Run(c, steps);
    var item := s.threads[tid].item;
    var id := item.request.id;
    TablesAgree(c, steps, id);
    BeginApplies(s.db, id);
    Stepped(c, steps, tid, child, i, Begin(id, Approved), ExecSpawn(item), []);
    assert s.log + [] == s.log;
  }

  /** A begin that fails leaves the tables alone; one that only reports an error leaves the
      request EXECUTING, to be failed by the next start. Either way nothing is spawned. */
  lemma BeginFails(c: Config, steps: seq<Step>, tid: Tid, child: Tid, i: Input)
    requires CanMove(Run(c, steps), tid, child) && Run(c, steps).threads[tid].ExecBegin?
    requires var s := Run(c, steps); var id := s.threads[tid].item.request.id;
      !i.commits || !i.reported || (id in s.db.requests ==> s.db.requests[id].status != Approved)
    ensures var s := Run(c, steps); var id := s.threads[tid].item.request.id;
      var begins := i.commits && id in s.db.requests && s.db.requests[id].status == Approved;
      && (begins ==> id in s.db.approvals)
      && Run(c, steps + [Move(tid, child, i)]) ==
           s.(db := if begins then Begun(s.db, id) else s.db, threads := s.threads[tid := ExecDone(id)])
  {
    var s := Run(c, steps);
    var id := s.threads[tid].item.request.id;
    TablesAgree(c, steps, id);
    if i.commits && id in s.db.requests && s.db.requests[id].status == Approved {
      BeginApplies(s.db, id);
    }
    Stepped(c, steps, tid, child, i, Try(Begin(id, Approved), i), ExecDone(id), []);
    assert s.log + [] == s.log;
  }

  /** A start that works is the one spawn; one that fails ends with code 127. */
  lemma StartDecides(c: Config, steps: seq<Step>, tid: Tid, child: Tid, i: Input)
    requires CanMove(Run(c, steps), tid, child) && Run(c, steps).threads[tid].ExecSpawn?
    ensures var s := Run(c, steps); var item := s.threads[tid].item; var r := item.request;
      Run(c, steps + [Move(tid, child, i)]) ==
        if i.pass then
          s.(threads := s.threads[tid := ExecRun(item, 0)],
             log := s.log + [Spawned(r.id, r.executable, r.argv, r.cwd)])
        else s.(threads := s.threads[tid := ExecFinish(r.id, Some(127), None)])
  {
    var s := Run(c, steps);
    var item := s.threads[tid].item;
    if i.pass {
      Stepped(c, steps, tid, child, i, Nop, ExecRun(item, 0),
              [Spawned(item.request.id, item.request.executable, item.request.argv, item.request.cwd)]);
    } else {
      Stepped(c, steps, tid, child, i, Nop, ExecFinish(item.request.id, Some(127), None), []);
      assert s.log + [] == s.log;
    }
  }

  /** A goroutine of `execute` for an APPROVED request, in any reachable state, spawns it when
      the clock is before the deadline and every outside check passes. */
  lemma ExecuteTakesEffect(c: Config, steps: seq<Step>, tid: Tid, child: Tid, i: Input)
    requires CanMove(Run(c, steps), tid, child) && Run(c, steps).threads[tid].ExecGuard?
    requires var s := Run(c, steps); var id := s.threads[tid].id;
      && id !in s.executing && id in s.db.requests && s.db.requests[id].status == Approved
      && i.now < s.db.requests[id].request.expiresAt
    requires i.pass && !i.hashFails && i.commits && i.reported
    ensures var s := Run(c, steps); var id := s.threads[tid].id; var go := Move(tid, child, i);
      && id in s.db.approvals
      && var r := s.db.requests[id].request;
         Run(c, steps + [go, go, go, go, go, go]) ==
           s.(db := Begun(s.db, id), threads := s.threads[tid := ExecRun(ItemOf(s.db, id), 0)],
              executing := s.executing + {id}, log := s.log + [Spawned(id, r.executable, r.argv, r.cwd)])
  {
    var s := Run(c, steps);
    var id := s.threads[tid].id;
    var go := Move(tid, child, i);
    ExecuteChecks(c, steps, tid, child, i);
    KeyedById(c, steps, id);
    var checked := steps + [go, go, go, go];
    BeginTakesEffect(c, checked, tid, child, i);
    StartDecides(c, checked + [go], tid, child, i);
    assert checked + [go] + [go] == steps + [go, go, go, go, go, go];
    var item := ItemOf(s.db, id);
    assert s.threads[tid := ExecBegin(item)][tid := ExecSpawn(item)][tid := ExecRun(item, 0)] ==
      s.threads[tid := ExecRun(item, 0)];
  }

  lemma ExecuteChecks(c: Config, steps: seq<Step>, tid: Tid, child: Tid, i: Input)
    requires CanMove(Run(c, steps), tid, child) && Run(c, steps).threads[tid].ExecGuard?
    requires var s := Run(c, steps); var id := s.threads[tid].id;
      && id !in s.executing && id in s.db.requests && i.now < s.db.requests[id].request.expiresAt
    requires i.pass && !i.hashFails
    ensures var s := Run(c, steps); var id := s.threads[tid].id; var go := Move(tid, child, i);
      Run(c, steps + [go, go, go, go]) ==
        s.(threads := s.threads[tid := ExecBegin(ItemOf(s.db, id))], executing := s.executing + {id})
  {
    var s := Run(c, steps);
    var id := s.threads[tid].id;
    var go := Move(tid, child, i);
    var item := ItemOf(s.db, id);
    GuardDecides(c, steps, tid, child, i);
    ReadDecides(c, steps + [go], tid, child, i);
    ChecksDecide(c, steps + [go] + [go], tid, child, i);
    ChecksDecide(c, steps + [go] + [go] + [go], tid, child, i);
    assert steps + [go] + [go] + [go] + [go] == steps + [go, go, go, go];
    assert s.threads[tid := ExecGet(id)][tid := ExecApproval(item)][tid := ExecChecks(item)][tid := ExecBegin(item)] ==
      s.threads[tid := ExecBegin(item)];
  }

  // ---------- the end ----------

  function Closed(db: Db, id: RequestId, code: Option<int>, signal: Option<string>): Db
    requires id in db.requests
  {
    SetRow(db, id, match code case Some(n) => if n == 0 then Succeeded else Failed case None => Failed)
    .(executions := db.executions[id := Execution(true, code, signal)])
  }

  lemma FinishApplies(db: Db, id: RequestId, code: Option<int>, signal: Option<string>)
    requires id in db.requests && db.requests[id].status == Executing && id in db.executions
    ensures Commits(db, Finish(id, code, signal)) && Apply(db, Finish(id, code, signal)) == Closed(db, id, code, signal)
  {}

  lemma OwnerIsExecuting(c: Config, steps: seq<Step>, tid: Tid, id: RequestId)
    requires tid in Run(c, steps).threads && Owned(Run(c, steps).threads[tid]) == Some(id)
    ensures id in Run(c, steps).db.requests && Run(c, steps).db.requests[id].status == Executing
  {
    RunOk(c, steps);
    assert OwnerOk(Run(c, steps), Run(c, steps).threads[tid]);
  }

  /** The finish always commits for the thread that owns the execution, with its result. */
  lemma FinishTakesEffect(c: Config, steps: seq<Step>, tid: Tid, child: Tid, i: Input)
    requires CanMove(Run(c, steps), tid, child) && Run(c, steps).threads[tid].ExecFinish? && i.commits
    ensures var s := Run(c, steps); var t := s.threads[tid];
      && t.id in s.db.requests
      && Run(c, steps + [Move(tid, child, i)]) ==
           s.(db := Closed(s.db, t.id, t.exitCode, t.signal), threads := s.threads[tid := ExecDone(t.id)])
  {
    var s := Run(c, steps);
    var t := s.threads[tid];
    OwnerIsExecuting(c, steps, tid, t.id);
    TablesAgree(c, steps, t.id);
    var op := Finish(t.id, t.exitCode, t.signal);
    FinishApplies(s.db, t.id, t.exitCode, t.signal);
    Stepped(c, steps, tid, child, i, op, ExecDone(t.id), []);
    assert s.log + [] == s.log;
  }

  /** A finish that fails leaves the request EXECUTING, and the thread ends. */
  lemma FinishFails(c: Config, steps: seq<Step>, tid: Tid, child: Tid, i: Input)
    requires CanMove(Run(c, steps), tid, child) && Run(c, steps).threads[tid].ExecFinish? && !i.commits
    ensures var s := Run(c, steps);
      Run(c, steps + [Move(tid, child, i)]) == s.(threads := s.threads[tid := ExecDone(s.threads[tid].id)])
  {
    var s := Run(c, steps);
    Stepped(c, steps, tid, child, i, Nop, ExecDone(s.threads[tid].id), []);
    assert s.log + [] == s.log;
  }

  /** An append that fails is dropped, and the drain goes on with the next number. */
  lemma AppendFails(c: Config, steps: seq<Step>, tid: Tid, child: Tid, i: Input)
    requires CanMove(Run(c, steps), tid, child) && !i.commits
    requires var t := Run(c, steps).threads[tid]; (t.ExecInsert? && t.stored != []) || t.ExecCount?
    ensures var s := Run(c, steps); var t := s.threads[tid];
      Run(c, steps + [Move(tid, child, i)]) == s.(threads := s.threads[tid := ExecRun(t.item, t.sequence + 1)])
  {
    var s := Run(c, steps);
    Stepped(c, steps, tid, child, i, Nop, ExecRun(s.threads[tid].item, s.threads[tid].sequence + 1), []);
    assert s.log + [] == s.log;
  }

  /** When the process of a running command ends, its exit code and signal are stored, the
      request is SUCCEEDED exactly for code 0 and FAILED otherwise, and the guard is free. */
  lemma ExitTakesEffect(c: Config, steps: seq<Step>, tid: Tid, child: Tid, i: Input)
    requires CanMove(Run(c, steps), tid, child) && Run(c, steps).threads[tid].ExecRun? && i.ends && i.commits
    ensures var s := Run(c, steps); var id := s.threads[tid].item.request.id; var go := Move(tid, child, i);
      && id in s.db.requests
      && Run(c, steps + [go, go, go]) ==
           s.(db := Closed(s.db, id, i.exitCode, i.signal), threads := s.threads - {tid},
              executing := s.executing - {id})
  {
    var s := Run(c, steps);
    var id := s.threads[tid].item.request.id;
    var go := Move(tid, child, i);
    var n := ExecFinish(id, i.exitCode, i.signal);
    Stepped(c, steps, tid, child, i, Nop, n, []);
    assert s.log + [] == s.log;
    FinishTakesEffect(c, steps + [go], tid, child, i);
    DoneFreesTheGuard(c, steps + [go] + [go], tid, child, i);
    assert steps + [go] + [go] + [go] == steps + [go, go, go];
    assert s.threads[tid := n][tid := ExecDone(id)] - {tid} == s.threads - {tid};
  }
}
