/** The claims are not about an empty set of runs: from the empty store every well-formed
    request can be submitted, approved, spawned and finished. */
module Reachability {
  import opened Model
  import opened Tables
  import opened Protocol
  import opened Safety

  /** No transaction fails in the step, and no output is read. */
  predicate Calm(step: Step) {
    step.Move? ==> step.input.commits && step.input.reported && step.input.data == []
  }

  ghost predicate Reaches(c: Config, s: System) {
    exists steps :: Run(c, steps) == s && forall step <- steps :: Calm(step)
  }

  lemma ReachNext(c: Config, s: System, step: Step)
    requires Reaches(c, s) && Calm(step)
    ensures Reaches(c, Next(c, s, step))
  {
    var steps :| Run(c, steps) == s && forall step <- steps :: Calm(step);
    RunNext(c, steps, step);
    assert forall x <- steps + [step] :: x in steps || x == step;
  }

  /** Every outside check passes, every transaction commits, and the command exits with 0. */
  function Smooth(r: Request): Input {
    Input(r.expiresAt - 1, true, false, true, true, "approval", None, "", [], "", true, true, Some(0), None)
  }

  function Booted(): System {
    System(Db(map[], map[], map[], map[], true), {}, map[], {}, None, Serving, [])
  }

  function Submitted(c: Config, r: Request): System {
    System(Db(map[r.id := Row(r, c.hash(r), Waiting, 0, false)], map[], map[], map[], true),
           {r.id}, map[], {}, None, Serving, [Stored(r.id, r, c.hash(r))])
  }

  function RootApproval(c: Config, r: Request): Approval {
    Approval(1, "approval", r.id, c.hash(r), Approve, "uid:0", None, "")
  }

  function Decided(c: Config, r: Request): System {
    System(Db(map[r.id := Row(r, c.hash(r), Approved, 0, false)], map[r.id := ApprovalRow(RootApproval(c, r), false)],
              map[], map[], true),
           {r.id}, map[1 := ExecGuard(r.id)], {}, None, Serving,
           [Stored(r.id, r, c.hash(r)), Called(0, r.id, c.hash(r), Approve),
            Answered(Response(r.id, "approval", Approved, "uid:0"))])
  }

  lemma BootReaches(c: Config, s: System, s': System)
    requires Reaches(c, s) && RestartStep(s, 0) == s'
    ensures Reaches(c, s')
  {
    ReachNext(c, s, Restart(0));
  }

  function Starting(localOnly: bool, phase: Phase): System {
    System(Db(map[], map[], map[], map[], localOnly), {}, map[], {}, None, phase, [])
  }

  lemma Recovers(c: Config)
    ensures Reaches(c, Starting(true, Opened))
  {
    assert Run(c, []) == INITIAL == Starting(false, Down);
    BootReaches(c, Starting(false, Down), Starting(false, StatusesRecovered));
    BootReaches(c, Starting(false, StatusesRecovered), Starting(false, ExecutionsRecovered));
    BootReaches(c, Starting(false, ExecutionsRecovered), Starting(true, Opened));
  }

  lemma Boots(c: Config)
    ensures Reaches(c, Booted())
  {
    Recovers(c);
    BootReaches(c, Starting(true, Opened), Starting(true, StartupExpired(0)));
    assert ApprovedIds(Starting(true, Opened).db) == {};
    BootReaches(c, Starting(true, StartupExpired(0)), Starting(true, Relaunching({})));
    BootReaches(c, Starting(true, Relaunching({})), Booted());
  }

  /** The only thread takes a step. */
  lemma SubmitReaches(c: Config, s: System, t: Thread, i: Input, s': System)
    requires Reaches(c, s) && s.phase.Serving? && s.threads == map[0 := t] && IsSubmit(t)
    requires Calm(Move(0, 1, i)) && Install(s, 0, 1, ActSubmit(c, s, t, i)) == s'
    ensures Reaches(c, s')
  {
    ReachNext(c, s, Move(0, 1, i));
  }

  lemma PrepareReaches(c: Config, s: System, t: Thread, i: Input, s': System)
    requires Reaches(c, s) && s.phase.Serving? && s.threads == map[1 := t] && IsPrepare(t)
    requires Calm(Move(0, 1, i)) && Install(s, 1, 2, ActPrepare(c, s, t, i)) == s'
    ensures Reaches(c, s')
  {
    ReachNext(c, s, Move(1, 2, i));
  }

  lemma RunReaches(c: Config, s: System, t: Thread, i: Input, s': System)
    requires Reaches(c, s) && s.phase.Serving? && s.threads == map[1 := t]
    requires t.ExecSpawn? || t.ExecRun? || t.ExecFinish?
    requires Calm(Move(0, 1, i)) && Install(s, 1, 2, ActRun(c, s, t, i)) == s'
    ensures Reaches(c, s')
  {
    ReachNext(c, s, Move(1, 2, i));
  }

  function Submitting(c: Config, r: Request, t: Thread): System {
    Submitted(c, r).(threads := map[0 := t], submitLock := Some(0))
  }

  lemma Counts(c: Config, r: Request)
    requires c.maxPendingPerUid > 0 && c.maxPendingTotal > 0 && !r.denied
    ensures Reaches(c, Booted().(threads := map[0 := SubmitInsert(r)], submitLock := Some(0)))
  {
    Boots(c);
    ReachNext(c, Booted(), CallSubmit(0, r));
    var s := Booted().(threads := map[0 := SubmitCount(r)], submitLock := Some(0));
    assert Next(c, Booted(), CallSubmit(0, r)) == s;
    assert Outstanding(s.db) == {} && OutstandingOf(s.db, r.uid) == {};
    SubmitReaches(c, s, SubmitCount(r), Smooth(r), s.(threads := map[0 := SubmitInsert(r)]));
  }

  lemma Inserts(c: Config, r: Request)
    requires c.maxPendingPerUid > 0 && c.maxPendingTotal > 0 && !r.denied
    ensures Reaches(c, Submitting(c, r, SubmitMove(r.id, false)).(
                         db := Db(map[r.id := Row(r, c.hash(r), Created, 0, false)], map[], map[], map[], true)))
  {
    Counts(c, r);
    SubmitReaches(
      c, Booted().(threads := map[0 := SubmitInsert(r)], submitLock := Some(0)), SubmitInsert(r), Smooth(r),
      Submitting(c, r, SubmitMove(r.id, false)).(
        db := Db(map[r.id := Row(r, c.hash(r), Created, 0, false)], map[], map[], map[], true)));
  }

  lemma Submits(c: Config, r: Request)
    requires c.maxPendingPerUid > 0 && c.maxPendingTotal > 0 && !r.denied
    ensures Reaches(c, Submitted(c, r))
  {
    Inserts(c, r);
    var s := Submitting(c, r, SubmitMove(r.id, false)).(
      db := Db(map[r.id := Row(r, c.hash(r), Created, 0, false)], map[], map[], map[], true));
    SubmitReaches(c, s, SubmitMove(r.id, false), Smooth(r), Submitting(c, r, SubmitUnlock));
    assert map[0 := SubmitUnlock] - {0} == map[];
    SubmitReaches(c, Submitting(c, r, SubmitUnlock), SubmitUnlock, Smooth(r), Submitted(c, r));
  }

  lemma ReviewReaches(c: Config, s: System, t: Thread, i: Input, s': System)
    requires Reaches(c, s) && s.phase.Serving? && s.threads == map[0 := t] && (t.DecideGet? || t.DecideAccept?)
    requires Calm(Move(0, 1, i)) && Install(s, 0, 1, ActReview(c, s, t, i)) == s'
    ensures Reaches(c, s')
  {
    ReachNext(c, s, Move(0, 1, i));
  }

  function Deciding(c: Config, r: Request, t: Thread): System {
    Submitted(c, r).(threads := map[0 := t], log := [Stored(r.id, r, c.hash(r)), Called(0, r.id, c.hash(r), Approve)])
  }

  lemma Calls(c: Config, r: Request)
    requires c.maxPendingPerUid > 0 && c.maxPendingTotal > 0 && !r.denied
    ensures Reaches(c, Deciding(c, r, DecideAccept(Item(r, c.hash(r), Waiting), RootApproval(c, r))))
  {
    Submits(c, r);
    var get := DecideGet(r.id, c.hash(r), Approve);
    ReachNext(c, Submitted(c, r), CallDecide(0, 0, r.id, c.hash(r), Approve));
    assert Next(c, Submitted(c, r), CallDecide(0, 0, r.id, c.hash(r), Approve)) == Deciding(c, r, get);
    ReviewReaches(c, Deciding(c, r, get), get, Smooth(r),
                  Deciding(c, r, DecideAccept(Item(r, c.hash(r), Waiting), RootApproval(c, r))));
  }

  lemma Decides(c: Config, r: Request)
    requires c.maxPendingPerUid > 0 && c.maxPendingTotal > 0 && !r.denied && r.id != "" && c.hash(r) != ""
    ensures Reaches(c, Decided(c, r))
  {
    Calls(c, r);
    var accept := DecideAccept(Item(r, c.hash(r), Waiting), RootApproval(c, r));
    ReviewReaches(c, Deciding(c, r, accept), accept, Smooth(r), Decided(c, r));
  }

  function Preparing(c: Config, r: Request, t: Thread): System {
    Decided(c, r).(threads := map[1 := t], executing := {r.id})
  }

  lemma Checks(c: Config, r: Request)
    requires Reaches(c, Decided(c, r))
    ensures Reaches(c, Preparing(c, r, ExecApproval(Item(r, c.hash(r), Approved))))
  {
    PrepareReaches(c, Decided(c, r), ExecGuard(r.id), Smooth(r), Preparing(c, r, ExecGet(r.id)));
    PrepareReaches(c, Preparing(c, r, ExecGet(r.id)), ExecGet(r.id), Smooth(r),
                   Preparing(c, r, ExecApproval(Item(r, c.hash(r), Approved))));
  }

  lemma Passes(c: Config, r: Request)
    requires Reaches(c, Decided(c, r))
    ensures Reaches(c, Preparing(c, r, ExecBegin(Item(r, c.hash(r), Approved))))
  {
    Checks(c, r);
    var item := Item(r, c.hash(r), Approved);
    PrepareReaches(c, Preparing(c, r, ExecApproval(item)), ExecApproval(item), Smooth(r),
                   Preparing(c, r, ExecChecks(item)));
    PrepareReaches(c, Preparing(c, r, ExecChecks(item)), ExecChecks(item), Smooth(r), Preparing(c, r, ExecBegin(item)));
  }

  function UnderWay(c: Config, r: Request, t: Thread, spawned: bool): System {
    Preparing(c, r, t).(
      db := Db(map[r.id := Row(r, c.hash(r), Executing, 0, false)], map[r.id := ApprovalRow(RootApproval(c, r), true)],
               map[r.id := STARTED], map[], true),
      log := Decided(c, r).log + if spawned then [Spawned(r.id, r.executable, r.argv, r.cwd)] else [])
  }

  lemma Begins(c: Config, r: Request)
    requires Reaches(c, Decided(c, r))
    ensures Reaches(c, UnderWay(c, r, ExecSpawn(Item(r, c.hash(r), Approved)), false))
  {
    Passes(c, r);
    var item := Item(r, c.hash(r), Approved);
    PrepareReaches(c, Preparing(c, r, ExecBegin(item)), ExecBegin(item), Smooth(r),
                   UnderWay(c, r, ExecSpawn(item), false));
  }

  lemma Spawns(c: Config, r: Request)
    requires Reaches(c, Decided(c, r))
    ensures Reaches(c, UnderWay(c, r, ExecRun(Item(r, c.hash(r), Approved), 0), true))
  {
    Begins(c, r);
    var item := Item(r, c.hash(r), Approved);
    assert Decided(c, r).log + [] == Decided(c, r).log;
    RunReaches(c, UnderWay(c, r, ExecSpawn(item), false), ExecSpawn(item), Smooth(r),
               UnderWay(c, r, ExecRun(item, 0), true));
  }

  lemma Exits(c: Config, r: Request)
    requires Reaches(c, Decided(c, r))
    ensures Reaches(c, UnderWay(c, r, ExecFinish(r.id, Some(0), None), true))
  {
    Spawns(c, r);
    var item := Item(r, c.hash(r), Approved);
    RunReaches(c, UnderWay(c, r, ExecRun(item, 0), true), ExecRun(item, 0), Smooth(r),
               UnderWay(c, r, ExecFinish(r.id, Some(0), None), true));
  }

  function Finished(c: Config, r: Request): System {
    UnderWay(c, r, ExecDone(r.id), true).(
      db := Db(map[r.id := Row(r, c.hash(r), Succeeded, 0, false)], map[r.id := ApprovalRow(RootApproval(c, r), true)],
               map[r.id := Execution(true, Some(0), None)], map[], true))
  }

  lemma FinishApplies(c: Config, r: Request, t: Thread)
    ensures Apply(UnderWay(c, r, t, true).db, Finish(r.id, Some(0), None)) == Finished(c, r).db
  {}

  lemma Finishes(c: Config, r: Request)
    requires Reaches(c, Decided(c, r))
    ensures Reaches(c, Finished(c, r))
  {
    Exits(c, r);
    var t := ExecFinish(r.id, Some(0), None);
    FinishApplies(c, r, t);
    RunReaches(c, UnderWay(c, r, t, true), t, Smooth(r), Finished(c, r));
  }

  /** Some run from the empty store spawns the request and sees it succeed. */
  lemma EveryRequestCanSucceed(c: Config, r: Request)
    requires c.maxPendingPerUid > 0 && c.maxPendingTotal > 0 && !r.denied && r.id != "" && c.hash(r) != ""
    ensures exists steps ::
      && (forall step <- steps :: Calm(step))
      && r.id in Run(c, steps).db.requests && Run(c, steps).db.requests[r.id].status == Succeeded
      && Spawned(r.id, r.executable, r.argv, r.cwd) in Run(c, steps).log
  {
    Decides(c, r);
    Finishes(c, r);
    var steps :| Run(c, steps) == Finished(c, r) && forall step <- steps :: Calm(step);
    assert Finished(c, r).log[3] == Spawned(r.id, r.executable, r.argv, r.cwd);
  }
}
