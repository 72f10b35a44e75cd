/** What a death and the next start do, from any reachable state. */
module Startup {
  import opened Model
  import opened Tables
  import opened Cells
  import opened Protocol
  import opened Invariant
  import opened Safety

  /** A request after startup: an interrupted one has failed, a due one has expired. */
  function Restarted(row: Row, now: int): Row {
    match row.status
    case Executing => row.(status := Failed)
    case Waiting => if row.request.expiresAt <= now then row.(status := Expired) else row
    case Approved => if row.request.expiresAt <= now then row.(status := Expired) else row
    case _ => row
  }

  function Ended(e: Execution): Execution {
    if e.finished then e else Execution(true, e.exitCode, Some("DAEMON_RESTART"))
  }

  function RestartedDb(db: Db, now: int): Db {
    Db(map id <- db.requests :: Restarted(db.requests[id], now), db.approvals,
       map id <- db.executions :: Ended(db.executions[id]), db.chunks, true)
  }

  /** After the recovery of interrupted work. */
  function Recovered(db: Db): Db {
    db.(requests := map id <- db.requests :: if db.requests[id].status == Executing
                                             then db.requests[id].(status := Failed) else db.requests[id],
        executions := map id <- db.executions :: Ended(db.executions[id]))
  }

  lemma RecoveryApplies(db: Db)
    ensures Apply(Apply(db, RecoverStatuses), RecoverExecutions) == Recovered(db)
  {
    var a := Apply(db, RecoverStatuses);
    assert a.requests == Recovered(db).requests;
    assert Apply(a, RecoverExecutions).executions == Recovered(db).executions;
  }

  lemma ExpiryApplies(c: Config, db: Db, now: int)
    requires DbOk(c.hash, db)
    ensures Apply(Recovered(db).(localOnly := true), Expire(now)) == RestartedDb(db, now)
  {
    forall id <- db.requests ensures db.requests[id].status !in {Queued, Synced} {
      assert CellOk(c.hash, id, At(db, id));
    }
    assert Apply(Recovered(db).(localOnly := true), Expire(now)).requests == RestartedDb(db, now).requests;
  }

  /** On a store that is marked, or on an empty one, the migration only sets the marker. */
  lemma MigrationKeeps(c: Config, db: Db, b: Db)
    requires DbOk(c.hash, db) && b.localOnly == db.localOnly && b.requests.Keys == db.requests.Keys
    ensures Apply(b, Migrate) == b.(localOnly := true)
  {
    if !b.localOnly {
      assert b.requests.Keys == {};
      assert Apply(b, Migrate).requests == b.requests;
    }
  }

  /** One statement of startup. */
  lemma StatementRuns(c: Config, steps: seq<Step>, now: int, op: Op, phase: Phase)
    requires var p := Run(c, steps).phase;
      || (p.Down? && op.RecoverStatuses? && phase.StatusesRecovered?)
      || (p.StatusesRecovered? && op.RecoverExecutions? && phase.ExecutionsRecovered?)
      || (p.ExecutionsRecovered? && op.Migrate? && phase.Opened?)
      || (p.Opened? && op == Expire(now) && phase == StartupExpired(now))
    ensures var s := Run(c, steps); Run(c, steps + [Restart(now)]) == s.(db := Apply(s.db, op), phase := phase)
  {
    RunNext(c, steps, Restart(now));
  }

  lemma DeathRuns(c: Config, steps: seq<Step>)
    ensures var s := Run(c, steps);
      Run(c, steps + [Die]) == System(s.db, s.used, map[], {}, None, Down, s.log)
  {
    RunNext(c, steps, Die);
  }

  lemma RecoveryRuns(c: Config, steps: seq<Step>, now: int)
    requires Run(c, steps).phase.Down?
    ensures var s := Run(c, steps);
      Run(c, steps + [Restart(now), Restart(now)]) == s.(db := Recovered(s.db), phase := ExecutionsRecovered)
  {
    var r := Restart(now);
    StatementRuns(c, steps, now, RecoverStatuses, StatusesRecovered);
    StatementRuns(c, steps + [r], now, RecoverExecutions, ExecutionsRecovered);
    assert steps + [r] + [r] == steps + [r, r];
    RecoveryApplies(Run(c, steps).db);
  }

  lemma OpeningRuns(c: Config, steps: seq<Step>, db: Db, now: int)
    requires Run(c, steps).phase.ExecutionsRecovered? && DbOk(c.hash, db) && Run(c, steps).db == Recovered(db)
    ensures Run(c, steps + [Restart(now), Restart(now)]) ==
      Run(c, steps).(db := RestartedDb(db, now), phase := StartupExpired(now))
  {
    var r := Restart(now);
    StatementRuns(c, steps, now, Migrate, Opened);
    StatementRuns(c, steps + [r], now, Expire(now), StartupExpired(now));
    assert steps + [r] + [r] == steps + [r, r];
    MigrationKeeps(c, db, Recovered(db));
    ExpiryApplies(c, db, now);
  }

  lemma TablesAreOk(c: Config, steps: seq<Step>)
    ensures DbOk(c.hash, Run(c, steps).db)
  {
    RunOk(c, steps);
  }

  /** After a death and the statements of startup, no thread, guard or lock of the old process
      is left, and the tables are as recovered. */
  lemma RestartTakesEffect(c: Config, steps: seq<Step>, now: int)
    ensures var s := Run(c, steps); var r := Restart(now);
      Run(c, steps + [Die, r, r, r, r]) ==
        System(RestartedDb(s.db, now), s.used, map[], {}, None, StartupExpired(now), s.log)
  {
    var r := Restart(now);
    DeathRuns(c, steps);
    TablesAreOk(c, steps);
    RecoveryRuns(c, steps + [Die], now);
    OpeningRuns(c, steps + [Die] + [r, r], Run(c, steps).db, now);
    assert steps + [Die] + [r, r] + [r, r] == steps + [Die, r, r, r, r];
  }

  /** Then every APPROVED request gets an executor, one by one, and only then the daemon
      serves. */
  lemma RelaunchTakesEffect(c: Config, steps: seq<Step>, tid: Tid, id: RequestId, now: int)
    requires Run(c, steps).phase.Relaunching?
    ensures var s := Run(c, steps); var ids := s.phase.ids;
      && (id in ids && tid !in s.threads ==>
            Run(c, steps + [Relaunch(tid, id)]) ==
              s.(threads := s.threads[tid := ExecGuard(id)], phase := Relaunching(ids - {id})))
      && Run(c, steps + [Restart(now)]) == if ids == {} then s.(phase := Serving) else s
  {
    RunNext(c, steps, Relaunch(tid, id));
    RunNext(c, steps, Restart(now));
  }

  /** A startup whose expiry or query fails serves without relaunching. */
  lemma SkippedRelaunch(c: Config, steps: seq<Step>)
    requires Run(c, steps).phase.Opened? || Run(c, steps).phase.StartupExpired?
    ensures Run(c, steps + [SkipRelaunch]) == Run(c, steps).(phase := Serving)
  {
    RunNext(c, steps, SkipRelaunch);
  }
}
