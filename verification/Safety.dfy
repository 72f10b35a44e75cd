/** What holds in every run of the daemon: any interleaving of calls, retries, expiry,
    cancellation, pruning, process deaths and restarts, from the empty store. */
module Safety {
  import opened Model
  import opened Tables
  import opened Cells
  import opened Protocol
  import opened Invariant
  import opened Preservation

  // ---------- induction over runs ----------

  lemma InspectKeeps(c: Config, s: System, step: Step)
    requires Inv(c, s) && s.phase.Serving? && step.CallInspect?
    ensures var s' := Next(c, s, step); Inv(c, s') && Later(s, s') && s'.db == s.db
  {
    var s' := Next(c, s, step);
    if s' == s {
      Reflexive(s, s');
    } else {
      assert CellOk(c.hash, step.id, CellIn(s, step.id)) && Witnessed(s, step.id);
      RowIsItem(c, s, step.id);
      assert CellIn(s', step.id) == CellIn(s, step.id);
      AddThreadKeeps(c, s, s', step.tid, s'.threads[step.tid], []);
    }
  }

  lemma SelectKeeps(c: Config, s: System, step: Step)
    requires Inv(c, s) && s.phase.Serving? && step.SelectPrunable?
    ensures var s' := Next(c, s, step); Inv(c, s') && Later(s, s') && s'.db == s.db
  {
    var s' := Next(c, s, step);
    if s' == s {
      Reflexive(s, s');
    } else {
      forall id <- step.ids ensures Closed(s', id) {
        assert Witnessed(s, id) && CellIn(s', id) == CellIn(s, id);
      }
      AddThreadKeeps(c, s, s', step.tid, PruneDelete(step.ids), []);
    }
  }

  lemma SubmitKeeps(c: Config, s: System, step: Step)
    requires Inv(c, s) && s.phase.Serving? && step.CallSubmit?
    ensures var s' := Next(c, s, step); Inv(c, s') && Later(s, s') && s'.db == s.db
  {
    var s' := Next(c, s, step);
    if s' == s {
      Reflexive(s, s');
    } else {
      AddThreadKeeps(c, s, s', step.tid, SubmitCount(step.request), []);
    }
  }

  lemma CallKeeps(c: Config, s: System, step: Step)
    requires Inv(c, s) && s.phase.Serving?
    requires step.CallSubmit? || step.CallDecide? || step.CallCancel? || step.CallInspect? || step.SelectPrunable?
    ensures var s' := Next(c, s, step); Inv(c, s') && Later(s, s') && s'.db == s.db
  {
    match step
    case CallSubmit(_, _) => SubmitKeeps(c, s, step);
    case CallDecide(_, _, _, _, _) => DecideKeeps(c, s, step);
    case CallCancel(_, _, _) => CancelKeeps(c, s, step);
    case CallInspect(_, _, _) => InspectKeeps(c, s, step);
    case SelectPrunable(_, _) => SelectKeeps(c, s, step);
  }

  /** A call that only leaves its trace in the history. */
  lemma TraceKeeps(c: Config, s: System, s': System, e: Event)
    requires Inv(c, s) && s.phase.Serving? && (e.Called? || e.CancelCalled?)
    requires s' == s.(log := s.log + [e])
    ensures Inv(c, s') && Later(s, s')
  {
    BaseKeeps(c, s, s', Nop, [e]);
    ThreadsStay(c, s, s');
    AddThreadPhase(c, s, s');
    OwnersStay(c, s, s', Nop);
    QuotaStays(c, s, s', Nop);
  }

  lemma CancelKeeps(c: Config, s: System, step: Step)
    requires Inv(c, s) && step.CallCancel?
    ensures var s' := Next(c, s, step); Inv(c, s') && Later(s, s') && s'.db == s.db
  {
    var s' := Next(c, s, step);
    var e := CancelCalled(step.uid, step.id);
    if !s.phase.Serving? || step.tid in s.threads {
      Reflexive(s, s');
    } else if s'.threads == s.threads {
      TraceKeeps(c, s, s', e);
    } else {
      assert s'.log[|s.log|] == e;
      assert Witnessed(s, step.id) && CellIn(s', step.id) == CellIn(s, step.id);
      AddThreadKeeps(c, s, s', step.tid, s'.threads[step.tid], [e]);
    }
  }

  lemma DecideKeeps(c: Config, s: System, step: Step)
    requires Inv(c, s) && step.CallDecide?
    ensures var s' := Next(c, s, step); Inv(c, s') && Later(s, s') && s'.db == s.db
  {
    var s' := Next(c, s, step);
    var e := Called(step.uid, step.id, step.echo, step.decision);
    if !s.phase.Serving? || step.tid in s.threads {
      Reflexive(s, s');
    } else if step.uid == 0 {
      assert s'.log[|s.log|] == e;
      AddThreadKeeps(c, s, s', step.tid, s'.threads[step.tid], [e]);
    } else {
      TraceKeeps(c, s, s', e);
    }
  }

  lemma RestartKeeps(c: Config, s: System, step: Step)
    requires Inv(c, s) && (step.Die? || step.Restart? || step.Relaunch? || step.SkipRelaunch?)
    ensures var s' := Next(c, s, step); Inv(c, s') && Later(s, s') && DbStep(s.db, s'.db)
  {
    SameDbSteps(s.db);
    match step
    case Die => DeathKeeps(c, s);
    case Restart(now) => RestartStepKeeps(c, s, now);
    case Relaunch(_, _) => RelaunchKeeps(c, s, step);
    case SkipRelaunch => SkipKeeps(c, s);
  }

  lemma SameDbSteps(db: Db)
    ensures DbStep(db, db)
  {}

  lemma RestartStepKeeps(c: Config, s: System, now: int)
    requires Inv(c, s)
    ensures var s' := RestartStep(s, now); Inv(c, s') && Later(s, s') && DbStep(s.db, s'.db)
  {
    if s.phase.StartupExpired? || Running(s.phase) {
      RelaunchListKeeps(c, s, now);
    } else {
      RecoverKeeps(c, s, now);
    }
  }

  lemma SkipKeeps(c: Config, s: System)
    requires Inv(c, s)
    ensures var s' := Next(c, s, SkipRelaunch); Inv(c, s') && Later(s, s') && s'.db == s.db
  {
    var s' := Next(c, s, SkipRelaunch);
    BaseKeeps(c, s, s', Nop, []);
    if s' != s {
      forall id ensures Settled(CellIn(s', id)) {
        assert Settled(CellIn(s, id));
      }
      OwnersStay(c, s, s', Nop);
      QuotaStays(c, s, s', Nop);
    }
  }

  lemma RelaunchKeeps(c: Config, s: System, step: Step)
    requires Inv(c, s) && step.Relaunch?
    ensures var s' := Next(c, s, step); Inv(c, s') && Later(s, s') && s'.db == s.db
  {
    var s' := Next(c, s, step);
    if s' == s {
      Reflexive(s, s');
    } else {
      assert CellIn(s', step.id) == CellIn(s, step.id);
      AddThreadKeeps(c, s, s', step.tid, ExecGuard(step.id), []);
    }
  }

  /** One step of the system keeps the invariant and the rely relation. */
  lemma NextKeeps(c: Config, s: System, step: Step)
    requires Inv(c, s)
    ensures var s' := Next(c, s, step); Inv(c, s') && Later(s, s') && DbStep(s.db, s'.db)
  {
    SameDbSteps(s.db);
    if step.Die? || step.Restart? || step.Relaunch? || step.SkipRelaunch? {
      RestartKeeps(c, s, step);
    } else if Next(c, s, step) == s {
      Reflexive(s, s);
    } else if step.Move? {
      MoveKeeps(c, s, step.tid, step.child, step.input);
    } else if step.ExpireNow? {
      ExpireKeeps(c, s, step.now);
    } else {
      CallKeeps(c, s, step);
    }
  }

  lemma InitialOk(c: Config)
    ensures Inv(c, INITIAL)
  {
    assert forall id :: At(EMPTY_DB, id) == NO_CELL;
    assert Outstanding(EMPTY_DB) == {};
    forall uid: nat ensures OutstandingOf(EMPTY_DB, uid) == {} {}
  }

  lemma {:induction false} RunOk(c: Config, steps: seq<Step>)
    ensures Inv(c, Run(c, steps))
  {
    if steps == [] {
      InitialOk(c);
    } else {
      RunOk(c, steps[..|steps| - 1]);
      NextKeeps(c, Run(c, steps[..|steps| - 1]), steps[|steps| - 1]);
    }
  }

  lemma RunNext(c: Config, steps: seq<Step>, step: Step)
    ensures Run(c, steps + [step]) == Next(c, Run(c, steps), step)
  {
    assert (steps + [step])[..|steps|] == steps;
  }

  lemma LaterTrans(c: Config, s: System, s': System, s'': System)
    requires Inv(c, s) && Later(s, s') && Later(s', s'')
    ensures Later(s, s'')
  {
    forall id
      ensures CellLater(CellIn(s, id), CellIn(s'', id))
      ensures Closed(s, id) ==> Closed(s'', id)
      ensures id in s.used && CellIn(s, id).row.None? ==> CellIn(s'', id).row.None?
    {
      assert Witnessed(s, id) && CellOk(c.hash, id, CellIn(s, id));
      assert CellLater(CellIn(s, id), CellIn(s', id)) && CellLater(CellIn(s', id), CellIn(s'', id));
      CellLaterTrans(c.hash, id, CellIn(s, id), CellIn(s', id), CellIn(s'', id));
    }
  }

  lemma CellLaterTrans(h: Request -> string, id: RequestId, x: Cell, x': Cell, x'': Cell)
    requires CellOk(h, id, x) && CellLater(x, x') && CellLater(x', x'')
    requires x.row.Some? && x'.row.None? ==> x''.row.None?
    ensures CellLater(x, x'')
  {}

  lemma {:induction false} RunLater(c: Config, steps: seq<Step>, more: seq<Step>)
    ensures Later(Run(c, steps), Run(c, steps + more))
  {
    var n := |more|;
    if n == 0 {
      assert steps + more == steps;
      Reflexive(Run(c, steps), Run(c, steps));
    } else {
      RunLater(c, steps, more[..n - 1]);
      assert steps + more == (steps + more[..n - 1]) + [more[n - 1]];
      RunNext(c, steps + more[..n - 1], more[n - 1]);
      RunOk(c, steps);
      RunOk(c, steps + more[..n - 1]);
      NextKeeps(c, Run(c, steps + more[..n - 1]), more[n - 1]);
      LaterTrans(c, Run(c, steps), Run(c, steps + more[..n - 1]), Run(c, steps + more));
    }
  }

  // ---------- execution ----------

  /** Each request is spawned at most once in a run. */
  lemma SpawnedAtMostOnce(c: Config, steps: seq<Step>, i: nat, j: nat)
    requires i < j < |Run(c, steps).log|
    requires Run(c, steps).log[i].Spawned? && Run(c, steps).log[j].Spawned?
    ensures Run(c, steps).log[i].id != Run(c, steps).log[j].id
  {
    var s := Run(c, steps);
    RunOk(c, steps);
    assert EventOk(c, s, s.log[..j], s.log[j]);
    assert s.log[i] in s.log[..j];
  }

  /** Every spawn runs the command first stored under its id, after root called approve
      with the hash of that very request. */
  lemma SpawnsAreApproved(c: Config, steps: seq<Step>, k: nat)
    requires k < |Run(c, steps).log| && Run(c, steps).log[k].Spawned?
    ensures var log := Run(c, steps).log; var e := log[k];
      exists i, j :: 0 <= i < k && 0 <= j < k && log[i].Stored? && log[i].id == e.id
        && log[i].request.executable == e.executable && log[i].request.argv == e.argv && log[i].request.cwd == e.cwd
        && log[i].hash == c.hash(log[i].request)
        && log[j] == Called(0, e.id, log[i].hash, Approve)
        && forall m :: 0 <= m < |log| && log[m].Stored? && log[m].id == e.id ==> m == i
  {
    var s := Run(c, steps);
    var e := s.log[k];
    RunOk(c, steps);
    assert EventOk(c, s, s.log[..k], e);
    var row := CellIn(s, e.id).row.value;
    var i :| 0 <= i < k && s.log[i] == Stored(e.id, row.request, row.hash);
    var j :| 0 <= j < k && s.log[j] == Called(0, e.id, row.hash, Approve);
    forall m | 0 <= m < |s.log| && s.log[m].Stored? && s.log[m].id == e.id ensures m == i {
      StoredOnce(c, s, i, m);
    }
    assert CellOk(c.hash, e.id, CellIn(s, e.id));
  }

  lemma StoredOnce(c: Config, s: System, i: nat, m: nat)
    requires LogOk(c, s) && i < |s.log| && m < |s.log|
    requires s.log[i].Stored? && s.log[m].Stored? && s.log[i].id == s.log[m].id
    ensures i == m
  {
    assert EventOk(c, s, s.log[..i], s.log[i]) && EventOk(c, s, s.log[..m], s.log[m]);
  }

  /** The checks of `execute` were made in separate reads; they still hold when
      BeginExecution commits. */
  lemma ChecksHoldAtBegin(c: Config, steps: seq<Step>, tid: Tid)
    requires tid in Run(c, steps).threads && Run(c, steps).threads[tid].ExecBegin?
    requires var item := Run(c, steps).threads[tid].item;
      Commits(Run(c, steps).db, Begin(item.request.id, Approved))
    ensures var db := Run(c, steps).db; var item := Run(c, steps).threads[tid].item; var id := item.request.id;
      && db.requests[id].request == item.request
      && db.requests[id].hash == item.hash == c.hash(db.requests[id].request)
      && db.approvals[id].approval.decision == Approve
      && db.approvals[id].approval.requestId == id
      && db.approvals[id].approval.requestHash == item.hash
      && !db.approvals[id].consumed
  {
    var s := Run(c, steps);
    RunOk(c, steps);
    var id := s.threads[tid].item.request.id;
    assert ThreadOk(c, s, s.threads[tid]) && CellOk(c.hash, id, CellIn(s, id));
  }

  /** The request a thread of `execute` works for, before it has begun the execution. */
  function Target(t: Thread): RequestId
    requires IsPrepare(t)
  {
    if t.ExecGuard? || t.ExecGet? || t.ExecReject? then t.id else t.item.request.id
  }

  /** A late or duplicate `execute` changes nothing once its request has left APPROVED,
      and never gets to own the execution. */
  lemma LateExecuteIsInert(c: Config, s: System, tid: Tid, child: Tid, i: Input)
    requires tid in s.threads && IsPrepare(s.threads[tid])
    requires var id := Target(s.threads[tid]); id in s.db.requests ==> s.db.requests[id].status != Approved
    ensures var s' := MoveThread(c, s, tid, child, i);
      && s'.db == s.db && s'.log == s.log
      && (tid in s'.threads && child != tid ==> Owned(s'.threads[tid]).None?)
  {}

  /** Without a failing read or hash computation, no reachable execution is turned away for
      a broken hash or a mismatched approval. */
  lemma IntegrityHolds(c: Config, steps: seq<Step>, tid: Tid, i: Input)
    requires tid in Run(c, steps).threads
    requires var t := Run(c, steps).threads[tid]; t.ExecApproval? || t.ExecGet?
    requires i.pass && !i.hashFails
    ensures var t := Run(c, steps).threads[tid]; var n := ActPrepare(c, Run(c, steps), t, i).next;
      if t.ExecApproval? then n == Some(ExecChecks(t.item))
      else t.id in Run(c, steps).db.requests && n.Some? &&
           (if Run(c, steps).db.requests[t.id].request.expiresAt <= i.now then n.value == ExecReject(t.id, Expired)
            else n.value.ExecApproval?)
  {
    var s := Run(c, steps);
    RunOk(c, steps);
    var t := s.threads[tid];
    assert ThreadOk(c, s, t) && CellOk(c.hash, Target(t), CellIn(s, Target(t)));
    if t.ExecApproval? {
      ApprovalMatches(c, s, t, i);
    } else {
      HashMatches(c, s, t, i);
    }
  }

  lemma ApprovalMatches(c: Config, s: System, t: Thread, i: Input)
    requires t.ExecApproval? && ThreadOk(c, s, t) && CellOk(c.hash, Target(t), CellIn(s, Target(t))) && i.pass
    ensures ActPrepare(c, s, t, i).next == Some(ExecChecks(t.item))
  {}

  lemma HashMatches(c: Config, s: System, t: Thread, i: Input)
    requires t.ExecGet? && ThreadOk(c, s, t) && CellOk(c.hash, t.id, CellIn(s, t.id)) && i.pass && !i.hashFails
    ensures t.id in s.db.requests
    ensures var n := ActPrepare(c, s, t, i).next;
      && n.Some?
      && (if s.db.requests[t.id].request.expiresAt <= i.now then n.value == ExecReject(t.id, Expired)
          else n.value.ExecApproval?)
  {}

  // ---------- tables ----------

  /** In every reachable state the three tables agree about each request. */
  lemma TablesAgree(c: Config, steps: seq<Step>, id: RequestId)
    ensures var db := Run(c, steps).db;
      && (id in db.approvals || id in db.executions || ChunksOf(db, id) != [] ==> id in db.requests)
      && (id in db.requests ==>
            var st := db.requests[id].status;
            && st != Queued && st != Synced
            && (st in {Created, Waiting, Cancelled} ==> id !in db.approvals && id !in db.executions)
            && (st == Denied <==> id in db.approvals && db.approvals[id].approval.decision == Deny)
            && (st == Approved ==> id in db.approvals && id !in db.executions)
            && (st in {Executing, Succeeded, Failed} <==> id in db.executions)
            && (st == Executing ==> !db.executions[id].finished)
            && (st == Succeeded <==> id in db.executions && db.executions[id].exitCode == Some(0))
            && (st == Succeeded ==> db.executions[id].finished)
            && (id in db.approvals ==> (db.approvals[id].consumed <==> id in db.executions))
            && (id in db.executions ==> id in db.approvals && db.approvals[id].approval.decision == Approve)
            && (st in {Expired, PolicyRejected} && id in db.approvals ==> db.approvals[id].approval.decision == Approve)
            && (id in db.approvals ==>
                  db.approvals[id].approval.requestId == id
                  && db.approvals[id].approval.requestHash == db.requests[id].hash == c.hash(db.requests[id].request)))
  {
    RunOk(c, steps);
    assert CellOk(c.hash, id, CellIn(Run(c, steps), id));
  }

  // ---------- decisions ----------

  /** All successful answers about one request are the same answer. */
  lemma OneAnswer(c: Config, steps: seq<Step>, i: nat, j: nat)
    requires i < |Run(c, steps).log| && j < |Run(c, steps).log|
    requires Run(c, steps).log[i].Answered? && Run(c, steps).log[j].Answered?
    requires Run(c, steps).log[i].response.requestId == Run(c, steps).log[j].response.requestId
    ensures Run(c, steps).log[i] == Run(c, steps).log[j]
  {
    var s := Run(c, steps);
    RunOk(c, steps);
    assert EventOk(c, s, s.log[..i], s.log[i]) && EventOk(c, s, s.log[..j], s.log[j]);
  }

  /** An answer is kept: however the run goes on, the stored decision stays the one answered. */
  lemma AnswersStay(c: Config, steps: seq<Step>, more: seq<Step>, i: nat)
    requires i < |Run(c, steps).log| && Run(c, steps).log[i].Answered?
    ensures var db := Run(c, steps + more).db; var r := Run(c, steps).log[i].response;
      && r.requestId in db.requests && r.requestId in db.approvals
      && r == ResponseOf(db.approvals[r.requestId].approval)
      && forall d :: ExistingDecision(db, Get(db, r.requestId).value, d) ==
           if DecisionStatus(d) == r.status then Found(r) else Conflict
  {
    var s := Run(c, steps + more);
    RunLater(c, steps, more);
    RunOk(c, steps + more);
    var r := Run(c, steps).log[i].response;
    assert s.log[i] == Run(c, steps).log[i];
    assert EventOk(c, s, s.log[..i], s.log[i]) && CellOk(c.hash, r.requestId, CellIn(s, r.requestId));
  }

  /** A request that the policy denied never waits for a decision: it is rejected or
      cancelled, without an approval, an execution or any output, in every later state. */
  lemma DeniedIsNeverDecided(c: Config, steps: seq<Step>, more: seq<Step>, id: RequestId)
    requires id in Run(c, steps).db.requests && Run(c, steps).db.requests[id].request.denied
    ensures var db := Run(c, steps + more).db;
      && (id in db.requests ==>
            db.requests[id].request.denied && db.requests[id].status in {Created, PolicyRejected, Cancelled})
      && id !in db.approvals && id !in db.executions && ChunksOf(db, id) == []
    ensures forall e <- Run(c, steps + more).log ::
      (e.Spawned? ==> e.id != id) && (e.Answered? ==> e.response.requestId != id)
  {
    RunLater(c, steps, more);
    RunOk(c, steps + more);
    var s, s' := Run(c, steps), Run(c, steps + more);
    assert CellLater(CellIn(s, id), CellIn(s', id)) && CellOk(c.hash, id, CellIn(s', id));
    forall e <- s'.log ensures (e.Spawned? ==> e.id != id) && (e.Answered? ==> e.response.requestId != id) {
      var k :| 0 <= k < |s'.log| && s'.log[k] == e;
      assert EventOk(c, s', s'.log[..k], s'.log[k]);
    }
  }

  /** Only root or the submitter cancels: a CANCELLED request was cancelled by a call of
      one of them, and was never decided. */
  lemma CancelledByOwnerOrRoot(c: Config, steps: seq<Step>, id: RequestId)
    requires id in Run(c, steps).db.requests && Run(c, steps).db.requests[id].status == Cancelled
    ensures var s := Run(c, steps);
      exists e <- s.log :: e.CancelCalled? && e.id == id && (e.uid == 0 || e.uid == s.db.requests[id].request.uid)
    ensures id !in Run(c, steps).db.approvals
    ensures forall e <- Run(c, steps).log :: e.Answered? ==> e.response.requestId != id
  {
    var s := Run(c, steps);
    RunOk(c, steps);
    assert Witnessed(s, id) && CellOk(c.hash, id, CellIn(s, id));
    forall e <- s.log | e.Answered? ensures e.response.requestId != id {
      var k :| 0 <= k < |s.log| && s.log[k] == e;
      assert EventOk(c, s, s.log[..k], s.log[k]);
    }
  }

  // ---------- quota ----------

  /** Outstanding requests stay within the configured limits, per user and in total. */
  lemma QuotaHolds(c: Config, steps: seq<Step>, uid: nat)
    ensures Within(|Outstanding(Run(c, steps).db)|, c.maxPendingTotal)
    ensures Within(|OutstandingOf(Run(c, steps).db, uid)|, c.maxPendingPerUid)
  {
    RunOk(c, steps);
  }

  // ---------- retention ----------

  /** Whatever runs between a pruning pass's SELECT and its DELETE, only terminal requests
      without a decision disappear, and with them no execution and no output. */
  lemma OnlyClosedRequestsDisappear(c: Config, steps: seq<Step>, step: Step, id: RequestId)
    requires id in Run(c, steps).db.requests && id !in Run(c, steps + [step]).db.requests
    ensures var db := Run(c, steps).db;
      Terminal(db.requests[id].status) && id !in db.approvals && id !in db.executions && ChunksOf(db, id) == []
  {
    var s := Run(c, steps);
    RunOk(c, steps);
    RunNext(c, steps, step);
    NextKeeps(c, s, step);
    assert CellStep(At(s.db, id), At(Next(c, s, step).db, id)) && CellOk(c.hash, id, CellIn(s, id));
  }

  /** The DELETE transaction of a reachable pruning pass always commits, and removes its
      selection and nothing else. */
  lemma PruneDeletes(c: Config, steps: seq<Step>, tid: Tid)
    requires tid in Run(c, steps).threads && Run(c, steps).threads[tid].PruneDelete?
    ensures var db := Run(c, steps).db; var ids := Run(c, steps).threads[tid].ids;
      && Commits(db, Delete(ids))
      && var db' := Apply(db, Delete(ids));
         && db'.requests == db.requests - ids && db'.approvals == db.approvals && db'.executions == db.executions
         && forall id :: ChunksOf(db', id) == ChunksOf(db, id)
  {
    var s := Run(c, steps);
    var ids := s.threads[tid].ids;
    RunOk(c, steps);
    assert ThreadOk(c, s, s.threads[tid]);
    forall id <- ids ensures id !in s.db.approvals && id !in s.db.executions && ChunksOf(s.db, id) == [] {
      assert Closed(s, id);
      ClosedLeavesNothing(c, s, id);
    }
    DeleteIsExact(s.db, ids);
  }

  lemma ClosedLeavesNothing(c: Config, s: System, id: RequestId)
    requires DbOk(c.hash, s.db) && Closed(s, id)
    ensures id !in s.db.approvals && id !in s.db.executions && ChunksOf(s.db, id) == []
  {
    assert CellOk(c.hash, id, At(s.db, id));
  }

  lemma DeleteIsExact(db: Db, ids: set<RequestId>)
    requires forall id <- ids :: id !in db.approvals && id !in db.executions && ChunksOf(db, id) == []
    ensures Commits(db, Delete(ids))
    ensures var db' := Apply(db, Delete(ids));
      && db'.requests == db.requests - ids && db'.approvals == db.approvals && db'.executions == db.executions
      && forall id :: ChunksOf(db', id) == ChunksOf(db, id)
  {
    assert db.executions - ids == db.executions;
  }

  // ---------- recovery ----------

  /** However often startup itself died before, once Open returns nothing is EXECUTING and
      every execution is finished. */
  lemma OpenLeavesNothingRunning(c: Config, steps: seq<Step>)
    requires Run(c, steps).phase.Opened?
    ensures var db := Run(c, steps).db;
      && (forall id <- db.requests :: db.requests[id].status != Executing)
      && (forall id <- db.executions :: db.executions[id].finished)
      && db.localOnly
  {
    var s := Run(c, steps);
    RunOk(c, steps);
    forall id <- s.db.requests ensures s.db.requests[id].status != Executing {
      assert !IsExecuting(CellIn(s, id));
    }
    forall id <- s.db.executions ensures s.db.executions[id].finished {
      assert Settled(CellIn(s, id)) && !IsExecuting(CellIn(s, id));
    }
  }

  /** What is stored stays stored: requests keep their content, approvals are append-only,
      finished executions keep their result, and output only grows. */
  lemma HistoryIsKept(c: Config, steps: seq<Step>, more: seq<Step>, id: RequestId)
    ensures var db := Run(c, steps).db; var db' := Run(c, steps + more).db;
      && (id in db.requests && id in db'.requests ==>
            db'.requests[id].request == db.requests[id].request && db'.requests[id].hash == db.requests[id].hash)
      && (id in db.requests && id !in db'.requests ==> id !in db.approvals && id !in db'.approvals)
      && (id in db.approvals ==>
            && id in db'.requests && id in db'.approvals
            && db'.approvals[id].approval == db.approvals[id].approval
            && (db.approvals[id].consumed ==> db'.approvals[id].consumed))
      && (id in db.executions ==> id in db'.executions)
      && (id in db.executions && db.executions[id].finished ==> db'.executions[id] == db.executions[id])
      && ChunksOf(db, id) <= ChunksOf(db', id)
  {
    RunLater(c, steps, more);
    RunOk(c, steps);
    RunOk(c, steps + more);
    var s, s' := Run(c, steps), Run(c, steps + more);
    assert CellLater(CellIn(s, id), CellIn(s', id));
    assert CellOk(c.hash, id, CellIn(s, id)) && CellOk(c.hash, id, CellIn(s', id));
  }

  /** Startup relaunches exactly the APPROVED requests, and all of them are unexpired. */
  lemma RelaunchesUnexpiredApprovals(c: Config, steps: seq<Step>, now: int)
    requires Run(c, steps).phase.StartupExpired?
    ensures var s := Run(c, steps); var s' := Run(c, steps + [Restart(now)]);
      && s'.phase.Relaunching? && s'.db == s.db
      && (forall id :: id in s'.phase.ids <==> id in s.db.requests && s.db.requests[id].status == Approved)
      && (forall id <- s'.phase.ids :: s.db.requests[id].request.expiresAt > s.phase.now)
  {
    var s := Run(c, steps);
    RunOk(c, steps);
    RunNext(c, steps, Restart(now));
    forall id <- ApprovedIds(s.db) ensures s.db.requests[id].request.expiresAt > s.phase.now {
      assert CellIn(s, id).row.Some?;
    }
  }

  // ---------- statuses ----------

  /** Every change of a status, bulk updates included, is an edge of the transition table. */
  lemma EveryWriteIsAnEdge(c: Config, steps: seq<Step>, step: Step, id: RequestId)
    requires id in Run(c, steps + [step]).db.requests
    ensures var db := Run(c, steps).db; var db' := Run(c, steps + [step]).db;
      if id in db.requests then
        db'.requests[id].status == db.requests[id].status || Edge(db.requests[id].status, db'.requests[id].status)
      else db'.requests[id].status == Created && id !in Run(c, steps).used
  {
    var s := Run(c, steps);
    RunOk(c, steps);
    RunNext(c, steps, step);
    NextKeeps(c, s, step);
    assert CellStep(At(s.db, id), At(Next(c, s, step).db, id));
    assert id in s.used && CellIn(s, id).row.None? ==> CellIn(Next(c, s, step), id).row.None?;
  }

  /** How often a request's status changed in a run. */
  function Changes(c: Config, steps: seq<Step>, id: RequestId): nat {
    if steps == [] then 0 else
    var before, after := Run(c, steps[..|steps| - 1]).db, Run(c, steps).db;
    Changes(c, steps[..|steps| - 1], id) +
    if id in before.requests && id in after.requests && before.requests[id].status != after.requests[id].status
    then 1 else 0
  }

  /** A change of status goes up in the service's rank. */
  lemma ChangesRise(c: Config, steps: seq<Step>, step: Step, id: RequestId)
    requires id in Run(c, steps).db.requests && id in Run(c, steps + [step]).db.requests
    ensures var a, b := Run(c, steps).db.requests[id].status, Run(c, steps + [step]).db.requests[id].status;
      a == b || ServiceRank(a) < ServiceRank(b)
  {
    TableIsRanked();
    TablesAgree(c, steps, id);
    TablesAgree(c, steps + [step], id);
    EveryWriteIsAnEdge(c, steps, step, id);
  }

  /** A request changes status at most four times in a run. */
  lemma {:induction false} AtMostFourChanges(c: Config, steps: seq<Step>, id: RequestId)
    ensures var s := Run(c, steps);
      && (id in s.db.requests ==> Changes(c, steps, id) <= ServiceRank(s.db.requests[id].status))
      && (id !in s.used ==> Changes(c, steps, id) == 0)
      && Changes(c, steps, id) <= 4
  {
    if steps != [] {
      var front, step := steps[..|steps| - 1], steps[|steps| - 1];
      assert steps == front + [step];
      AtMostFourChanges(c, front, id);
      UsedStays(c, front, step, id);
      if id in Run(c, steps).db.requests {
        if id in Run(c, front).db.requests {
          ChangesRise(c, front, step, id);
        } else {
          EveryWriteIsAnEdge(c, front, step, id);
        }
      }
    }
  }

  lemma UsedStays(c: Config, steps: seq<Step>, step: Step, id: RequestId)
    ensures id in Run(c, steps).used ==> id in Run(c, steps + [step]).used
    ensures id in Run(c, steps).db.requests ==> id in Run(c, steps).used
  {
    RunOk(c, steps);
    RunLater(c, steps, [step]);
    assert Witnessed(Run(c, steps), id);
    assert id in Run(c, steps).db.requests ==> CellIn(Run(c, steps), id).row.Some?;
  }

  // ---------- output ----------

  /** Output is only ever appended, in increasing sequence order, and only while the request
      is EXECUTING. */
  lemma OutputGrowsWhileExecuting(c: Config, steps: seq<Step>, step: Step, id: RequestId)
    ensures var db := Run(c, steps).db; var db' := Run(c, steps + [step]).db;
      && ChunksOf(db, id) <= ChunksOf(db', id)
      && Increasing(ChunksOf(db', id))
      && (ChunksOf(db, id) != ChunksOf(db', id) ==>
            id in db.requests && db.requests[id].status == Executing
            && id in db'.requests && db'.requests[id] == db.requests[id])
  {
    var s := Run(c, steps);
    RunOk(c, steps);
    RunOk(c, steps + [step]);
    RunNext(c, steps, step);
    NextKeeps(c, s, step);
    var s' := Run(c, steps + [step]);
    assert CellStep(At(s.db, id), At(s'.db, id)) && CellOk(c.hash, id, At(s'.db, id));
    assert At(s.db, id).row.Some? <==> id in s.db.requests;
    assert At(s'.db, id).row.Some? <==> id in s'.db.requests;
  }
}
