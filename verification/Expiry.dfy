/** Deadlines over whole runs: which clock reading lets a request expire, and which lets it
    be spawned. Three kinds of steps read the clock for a request: the two bulk expiries, and
    the first read of `execute`. */
module Expiry {
  import opened Model
  import opened Tables
  import opened Cells
  import opened Protocol
  import opened Invariant
  import opened Safety
  import opened CapturedRuns

  // ---------- readings ----------

  /** Step `k` is the one in which thread `tid`, an `execute` of request `id`, reads the
      request and the clock. */
  predicate Reads(c: Config, steps: seq<Step>, k: nat, tid: Tid, id: RequestId) {
    && k < |steps| && Enabled(Run(c, steps[..k]), steps[k])
    && steps[k].tid == tid && Run(c, steps[..k]).threads[tid] == ExecGet(id)
  }

  ghost predicate ReadEarly(c: Config, steps: seq<Step>, tid: Tid, id: RequestId, deadline: int) {
    exists k: nat :: Reads(c, steps, k, tid, id) && steps[k].input.now < deadline
  }

  ghost predicate ReadLate(c: Config, steps: seq<Step>, tid: Tid, id: RequestId, deadline: int) {
    exists k: nat :: Reads(c, steps, k, tid, id) && steps[k].input.now >= deadline
  }

  lemma ReadsStays(c: Config, steps: seq<Step>, step: Step, k: nat, tid: Tid, id: RequestId)
    requires Reads(c, steps, k, tid, id)
    ensures Reads(c, steps + [step], k, tid, id)
    ensures (steps + [step])[k] == steps[k] && (steps + [step])[..k] == steps[..k]
  {
    assert (steps + [step])[..k] == steps[..k];
  }

  lemma EarlyStays(c: Config, steps: seq<Step>, step: Step, tid: Tid, id: RequestId, deadline: int)
    ensures ReadEarly(c, steps, tid, id, deadline) ==> ReadEarly(c, steps + [step], tid, id, deadline)
    ensures ReadLate(c, steps, tid, id, deadline) ==> ReadLate(c, steps + [step], tid, id, deadline)
  {
    if k: nat :| Reads(c, steps, k, tid, id) && steps[k].input.now < deadline {
      ReadsStays(c, steps, step, k, tid, id);
    }
    if k: nat :| Reads(c, steps, k, tid, id) && steps[k].input.now >= deadline {
      ReadsStays(c, steps, step, k, tid, id);
    }
  }

  lemma ReadsNow(c: Config, steps: seq<Step>, step: Step, id: RequestId)
    requires Enabled(Run(c, steps), step) && Run(c, steps).threads[step.tid] == ExecGet(id)
    ensures Reads(c, steps + [step], |steps|, step.tid, id) && (steps + [step])[|steps|] == step
  {
    assert (steps + [step])[..|steps|] == steps;
  }

  // ---------- threads ----------

  /** A thread that got past the deadline check of `execute`, for this request. */
  function Past(t: Thread): Option<Item> {
    match t
    case ExecApproval(item) => Some(item)
    case ExecChecks(item) => Some(item)
    case ExecBegin(item) => Some(item)
    case ExecSpawn(item) => Some(item)
    case _ => None
  }

  predicate Rejecting(t: Thread) {
    t.ExecReject? && t.next == Expired
  }

  /** What a thread goes by, it read itself. */
  ghost predicate ThreadTimed(c: Config, steps: seq<Step>, s: System, tid: Tid, t: Thread) {
    && (Past(t).Some? ==> ReadEarly(c, steps, tid, Past(t).value.request.id, Past(t).value.request.expiresAt))
    && (Rejecting(t) ==>
          && t.id in s.used
          && (CellIn(s, t.id).row.Some? ==>
                ReadLate(c, steps, tid, t.id, CellIn(s, t.id).row.value.request.expiresAt)))
  }

  lemma ThreadTimedStays(c: Config, steps: seq<Step>, step: Step, s: System, s': System, tid: Tid, t: Thread)
    requires ThreadTimed(c, steps, s, tid, t) && Later(s, s')
    ensures ThreadTimed(c, steps + [step], s', tid, t)
  {
    if Past(t).Some? {
      EarlyStays(c, steps, step, tid, Past(t).value.request.id, Past(t).value.request.expiresAt);
    } else if Rejecting(t) && CellIn(s', t.id).row.Some? {
      assert CellIn(s, t.id).row.Some?;
      assert CellLater(CellIn(s, t.id), CellIn(s', t.id));
      EarlyStays(c, steps, step, tid, t.id, CellIn(s, t.id).row.value.request.expiresAt);
    }
  }

  /** Past the check come only the thread that reads in time, and those that were past it. */
  ghost predicate Passes(s: System, t: Thread, i: Input, n: Option<Thread>) {
    && (n.Some? && Past(n.value).Some? ==>
          || Past(t) == Past(n.value)
          || (t == ExecGet(Past(n.value).value.request.id) && i.now < Past(n.value).value.request.expiresAt))
    && (n.Some? && Rejecting(n.value) ==>
          && t == ExecGet(n.value.id) && CellIn(s, n.value.id).row.Some?
          && CellIn(s, n.value.id).row.value.request.expiresAt <= i.now)
  }

  lemma PreparePasses(c: Config, s: System, t: Thread, i: Input)
    requires IsPrepare(t)
    requires t.ExecGet? && Get(s.db, t.id).Some? ==> Get(s.db, t.id).value.request.id == t.id
    ensures Passes(s, t, i, ActPrepare(c, s, t, i).next)
  {}

  lemma OnlyExecutePasses(c: Config, s: System, t: Thread, i: Input)
    requires !IsPrepare(t)
    ensures var n := Act(c, s, t, i).next; n.Some? ==> Past(n.value).None? && !Rejecting(n.value)
  {}

  lemma ActPasses(c: Config, s: System, t: Thread, i: Input)
    requires DbOk(c.hash, s.db)
    ensures Passes(s, t, i, Act(c, s, t, i).next)
  {
    if IsPrepare(t) {
      if t.ExecGet? {
        assert CellOk(c.hash, t.id, At(s.db, t.id));
      }
      PreparePasses(c, s, t, i);
    } else {
      OnlyExecutePasses(c, s, t, i);
    }
  }

  lemma NextTimed(c: Config, steps: seq<Step>, step: Step, s': System, n: Thread)
    requires var s := Run(c, steps);
      && Enabled(s, step) && Later(s, s') && ThreadTimed(c, steps, s, step.tid, s.threads[step.tid])
      && Passes(s, s.threads[step.tid], step.input, Some(n)) && (Rejecting(n) ==> n.id in s.used)
    ensures ThreadTimed(c, steps + [step], s', step.tid, n)
  {
    var s := Run(c, steps);
    if Past(n).Some? {
      var r := Past(n).value.request;
      if Past(s.threads[step.tid]) == Past(n) {
        EarlyStays(c, steps, step, step.tid, r.id, r.expiresAt);
      } else {
        ReadsNow(c, steps, step, r.id);
      }
    } else if Rejecting(n) {
      ReadsNow(c, steps, step, n.id);
      assert CellLater(CellIn(s, n.id), CellIn(s', n.id));
    }
  }

  // ---------- spawns ----------

  /** If event `m` is a spawn, an earlier step of an `execute` of that request read the clock
      before its deadline. */
  ghost predicate EventTimed(c: Config, steps: seq<Step>, s: System, m: nat)
    requires m < |s.log|
  {
    s.log[m].Spawned? ==>
      && CellIn(s, s.log[m].id).row.Some?
      && exists k: nat, tid: Tid :: ReadBefore(c, steps, s, m, k, tid)
  }

  predicate ReadBefore(c: Config, steps: seq<Step>, s: System, m: nat, k: nat, tid: Tid)
    requires m < |s.log| && s.log[m].Spawned? && CellIn(s, s.log[m].id).row.Some?
  {
    && Reads(c, steps, k, tid, s.log[m].id)
    && steps[k].input.now < CellIn(s, s.log[m].id).row.value.request.expiresAt
    && |Run(c, steps[..k]).log| <= m
  }

  lemma EventTimedStays(c: Config, steps: seq<Step>, step: Step, s: System, s': System, m: nat)
    requires m < |s.log| && EventTimed(c, steps, s, m) && LogOk(c, s) && Later(s, s')
    ensures EventTimed(c, steps + [step], s', m)
  {
    if s.log[m].Spawned? {
      var id := s.log[m].id;
      assert s'.log[m] == s.log[m] && EventOk(c, s, s.log[..m], s.log[m]);
      assert CellLater(CellIn(s, id), CellIn(s', id));
      var k: nat, tid: Tid :| ReadBefore(c, steps, s, m, k, tid);
      ReadsStays(c, steps, step, k, tid, id);
      assert ReadBefore(c, steps + [step], s', m, k, tid);
    }
  }

  lemma SpawnActs(c: Config, s: System, t: Thread, i: Input)
    ensures var e := Act(c, s, t, i).events;
      |e| <= 1 && (e != [] && e[0].Spawned? ==> t.ExecSpawn? && e[0].id == t.item.request.id)
  {}

  lemma PrefixLog(c: Config, steps: seq<Step>, k: nat)
    requires k <= |steps|
    ensures |Run(c, steps[..k]).log| <= |Run(c, steps).log|
  {
    assert steps[..k] + steps[k..] == steps;
    RunLater(c, steps[..k], steps[k..]);
  }

  /** The spawn itself: its thread holds the reading. */
  lemma SpawnTimed(c: Config, steps: seq<Step>, step: Step, s': System)
    requires var s := Run(c, steps);
      && Enabled(s, step) && s.threads[step.tid].ExecSpawn? && Later(s, s')
      && ThreadTimed(c, steps, s, step.tid, s.threads[step.tid])
      && ThreadOk(c, s, s.threads[step.tid]) && OwnerOk(s, s.threads[step.tid])
    requires var m := |Run(c, steps).log|; var id := Run(c, steps).threads[step.tid].item.request.id;
      |s'.log| == m + 1 && s'.log[m].Spawned? && s'.log[m].id == id && CellIn(s', id).row.Some?
    ensures EventTimed(c, steps + [step], s', |Run(c, steps).log|)
  {
    var s := Run(c, steps);
    var r := s.threads[step.tid].item.request;
    assert CellLater(CellIn(s, r.id), CellIn(s', r.id));
    var k: nat :| Reads(c, steps, k, step.tid, r.id) && steps[k].input.now < r.expiresAt;
    ReadsStays(c, steps, step, k, step.tid, r.id);
    PrefixLog(c, steps, k);
    assert ReadBefore(c, steps + [step], s', |s.log|, k, step.tid);
  }

  // ---------- all runs ----------

  ghost predicate Timed(c: Config, steps: seq<Step>) {
    var s := Run(c, steps);
    && (forall tid <- s.threads :: ThreadTimed(c, steps, s, tid, s.threads[tid]))
    && (forall m :: 0 <= m < |s.log| ==> EventTimed(c, steps, s, m))
  }

  lemma InstallTimed(c: Config, steps: seq<Step>, step: Step, o: Out)
    requires var s := Run(c, steps);
      && Enabled(s, step) && Later(s, Install(s, step.tid, step.child, o))
      && (forall tid <- s.threads :: ThreadTimed(c, steps, s, tid, s.threads[tid]))
      && (o.next.Some? ==>
            ThreadTimed(c, steps + [step], Install(s, step.tid, step.child, o), step.tid, o.next.value))
    ensures var s' := Install(Run(c, steps), step.tid, step.child, o);
      forall tid <- s'.threads :: ThreadTimed(c, steps + [step], s', tid, s'.threads[tid])
  {
    var s := Run(c, steps);
    var s' := Install(s, step.tid, step.child, o);
    forall u <- s'.threads ensures ThreadTimed(c, steps + [step], s', u, s'.threads[u]) {
      InstalledThread(s, step.tid, step.child, o, u);
      if u in s.threads && u != step.tid {
        ThreadTimedStays(c, steps, step, s, s', u, s.threads[u]);
      }
    }
  }

  lemma MoveThreadsTimed(c: Config, steps: seq<Step>, step: Step)
    requires Timed(c, steps) && Inv(c, Run(c, steps)) && Enabled(Run(c, steps), step)
    requires Later(Run(c, steps), MoveThread(c, Run(c, steps), step.tid, step.child, step.input))
    ensures var s' := MoveThread(c, Run(c, steps), step.tid, step.child, step.input);
      forall tid <- s'.threads :: ThreadTimed(c, steps + [step], s', tid, s'.threads[tid])
  {
    var s := Run(c, steps);
    var t := s.threads[step.tid];
    var o := Act(c, s, t, step.input);
    ActPasses(c, s, t, step.input);
    if o.next.Some? {
      if Rejecting(o.next.value) {
        assert Witnessed(s, o.next.value.id);
      }
      NextTimed(c, steps, step, Install(s, step.tid, step.child, o), o.next.value);
    }
    InstallTimed(c, steps, step, o);
  }

  lemma MoveEventsTimed(c: Config, steps: seq<Step>, step: Step)
    requires Timed(c, steps) && Inv(c, Run(c, steps)) && Enabled(Run(c, steps), step)
    requires var s' := MoveThread(c, Run(c, steps), step.tid, step.child, step.input);
      Inv(c, s') && Later(Run(c, steps), s')
    ensures var s' := MoveThread(c, Run(c, steps), step.tid, step.child, step.input);
      forall m :: 0 <= m < |s'.log| ==> EventTimed(c, steps + [step], s', m)
  {
    var s := Run(c, steps);
    var s' := MoveThread(c, s, step.tid, step.child, step.input);
    var t := s.threads[step.tid];
    SpawnActs(c, s, t, step.input);
    assert s'.log == s.log + Act(c, s, t, step.input).events;
    forall m | 0 <= m < |s'.log| ensures EventTimed(c, steps + [step], s', m) {
      if m < |s.log| {
        EventTimedStays(c, steps, step, s, s', m);
      } else if s'.log[m].Spawned? {
        assert EventOk(c, s', s'.log[..m], s'.log[m]);
        assert ThreadOk(c, s, t) && OwnerOk(s, t) && ThreadTimed(c, steps, s, step.tid, t);
        SpawnTimed(c, steps, step, s');
      }
    }
  }

  /** Threads that appear or stay in a step in which no thread moves. */
  lemma IdleRejects(c: Config, s: System, step: Step)
    requires !Enabled(s, step)
    ensures var s' := Next(c, s, step);
      forall u <- s'.threads ::
        || s'.threads[u].ExecGuard?
        || (!IsPrepare(s'.threads[u]) && Owned(s'.threads[u]).None?)
        || (u in s.threads && s'.threads[u] == s.threads[u])
  {}

  /** What a step in which no thread moves adds to the history. */
  lemma IdleIsSilent(c: Config, s: System, step: Step)
    requires !Enabled(s, step)
    ensures var log := Next(c, s, step).log;
      s.log <= log && forall e <- log[|s.log|..] :: !e.Spawned?
  {}

  lemma IdleThreadsTimed(c: Config, steps: seq<Step>, step: Step)
    requires Timed(c, steps) && !Enabled(Run(c, steps), step) && Later(Run(c, steps), Next(c, Run(c, steps), step))
    ensures var s' := Next(c, Run(c, steps), step);
      forall tid <- s'.threads :: ThreadTimed(c, steps + [step], s', tid, s'.threads[tid])
  {
    var s := Run(c, steps);
    var s' := Next(c, s, step);
    IdleRejects(c, s, step);
    forall u <- s'.threads ensures ThreadTimed(c, steps + [step], s', u, s'.threads[u]) {
      if u in s.threads && s'.threads[u] == s.threads[u] {
        ThreadTimedStays(c, steps, step, s, s', u, s.threads[u]);
      }
    }
  }

  lemma IdleEventsTimed(c: Config, steps: seq<Step>, step: Step)
    requires Timed(c, steps) && LogOk(c, Run(c, steps))
    requires !Enabled(Run(c, steps), step) && Later(Run(c, steps), Next(c, Run(c, steps), step))
    ensures var s' := Next(c, Run(c, steps), step);
      forall m :: 0 <= m < |s'.log| ==> EventTimed(c, steps + [step], s', m)
  {
    var s := Run(c, steps);
    var s' := Next(c, s, step);
    IdleIsSilent(c, s, step);
    forall m | 0 <= m < |s'.log| ensures EventTimed(c, steps + [step], s', m) {
      if m < |s.log| {
        EventTimedStays(c, steps, step, s, s', m);
      } else {
        assert s'.log[m] in s'.log[|s.log|..];
      }
    }
  }

  lemma StepTimed(c: Config, steps: seq<Step>, step: Step)
    requires Timed(c, steps)
    ensures Timed(c, steps + [step])
  {
    RunOk(c, steps);
    RunNext(c, steps, step);
    NextKeeps(c, Run(c, steps), step);
    if Enabled(Run(c, steps), step) {
      MoveIs(c, Run(c, steps), step);
      MoveThreadsTimed(c, steps, step);
      MoveEventsTimed(c, steps, step);
    } else {
      IdleThreadsTimed(c, steps, step);
      IdleEventsTimed(c, steps, step);
    }
  }

  lemma {:induction false} RunTimed(c: Config, steps: seq<Step>)
    ensures Timed(c, steps)
  {
    if steps != [] {
      RunTimed(c, steps[..|steps| - 1]);
      StepTimed(c, steps[..|steps| - 1], steps[|steps| - 1]);
      assert steps[..|steps| - 1] + [steps[|steps| - 1]] == steps;
    }
  }

  /** Nothing is spawned without a look at the clock: before every spawn, an `execute` of that
      very request read a time before its stored deadline. */
  lemma SpawnedHadTimeLeft(c: Config, steps: seq<Step>, m: nat)
    requires m < |Run(c, steps).log| && Run(c, steps).log[m].Spawned?
    ensures var id := Run(c, steps).log[m].id; var db := Run(c, steps).db;
      && id in db.requests
      && exists k: nat, tid: Tid ::
           && Reads(c, steps, k, tid, id) && steps[k].input.now < db.requests[id].request.expiresAt
           && |Run(c, steps[..k]).log| <= m
  {
    RunTimed(c, steps);
    var s := Run(c, steps);
    assert EventTimed(c, steps, s, m);
    var k: nat, tid: Tid :| ReadBefore(c, steps, s, m, k, tid);
    assert Reads(c, steps, k, tid, s.log[m].id);
  }

  // ---------- expiring ----------

  lemma ExpiringOp(db: Db, op: Op, id: RequestId)
    requires At(db, id).row.Some? && At(db, id).row.value.status != Expired
    requires var x := At(Apply(db, op), id); x.row.Some? && x.row.value.status == Expired
    ensures || (op.Expire? && At(db, id).row.value.request.expiresAt <= op.now)
            || (op.Transition? && op.id == id && op.next == Expired)
  {
    ApplyAt(db, op, id);
  }

  lemma OnlyRejectingExpires(c: Config, s: System, t: Thread, i: Input)
    ensures var op := Act(c, s, t, i).op;
      !op.Expire? && (op.Transition? && op.next == Expired ==> Rejecting(t) && op.id == t.id)
  {}

  predicate Turns(s: System, s': System, id: RequestId) {
    && id in s.db.requests && s.db.requests[id].status != Expired
    && id in s'.db.requests && s'.db.requests[id].status == Expired
  }

  /** A step that expires a request reads a time at or past its deadline itself, or is a
      thread of `execute` that did so in its first read of that request. */
  ghost predicate Expires(c: Config, steps: seq<Step>, step: Step, id: RequestId, deadline: int) {
    || (step.ExpireNow? && step.now >= deadline)
    || (step.Restart? && step.now >= deadline)
    || (&& Enabled(Run(c, steps), step) && Run(c, steps).threads[step.tid] == ExecReject(id, Expired)
        && ReadLate(c, steps, step.tid, id, deadline))
  }

  lemma ExpiringStep(c: Config, steps: seq<Step>, step: Step, id: RequestId)
    requires Turns(Run(c, steps), Run(c, steps + [step]), id)
    ensures Expires(c, steps, step, id, Run(c, steps).db.requests[id].request.expiresAt)
  {
    var s := Run(c, steps);
    RunNext(c, steps, step);
    RunOk(c, steps);
    assert CellIn(s, id).row.Some?;
    if Enabled(s, step) {
      var t := s.threads[step.tid];
      ExpiringOp(s.db, Act(c, s, t, step.input).op, id);
      OnlyRejectingExpires(c, s, t, step.input);
      RunTimed(c, steps);
      assert ThreadTimed(c, steps, s, step.tid, t);
    } else {
      IdleByOp(c, s, step);
      ExpiringOp(s.db, IdleOp(s, step), id);
    }
  }

  /** Step `j` of a run turns the request, by a reading at or past the deadline. */
  ghost predicate ExpiresAt(c: Config, steps: seq<Step>, j: nat, id: RequestId, deadline: int) {
    && j < |steps| && Turns(Run(c, steps[..j]), Run(c, steps[..j + 1]), id)
    && Expires(c, steps[..j], steps[j], id, deadline)
  }

  lemma ExpiresAtStays(c: Config, steps: seq<Step>, step: Step, j: nat, id: RequestId, deadline: int)
    requires ExpiresAt(c, steps, j, id, deadline)
    ensures ExpiresAt(c, steps + [step], j, id, deadline)
  {
    assert (steps + [step])[..j] == steps[..j] && (steps + [step])[..j + 1] == steps[..j + 1];
  }

  lemma ExpiresLast(c: Config, steps: seq<Step>, step: Step, id: RequestId)
    requires Turns(Run(c, steps), Run(c, steps + [step]), id)
    ensures ExpiresAt(c, steps + [step], |steps|, id, Run(c, steps).db.requests[id].request.expiresAt)
  {
    ExpiringStep(c, steps, step, id);
    assert (steps + [step])[..|steps|] == steps && (steps + [step])[..|steps| + 1] == steps + [step];
  }

  /** An expired row was there before, with the same deadline. */
  lemma ExpiredHadARow(c: Config, steps: seq<Step>, step: Step, id: RequestId)
    requires var db := Run(c, steps + [step]).db; id in db.requests && db.requests[id].status == Expired
    ensures id in Run(c, steps).db.requests
    ensures Run(c, steps).db.requests[id].request == Run(c, steps + [step]).db.requests[id].request
  {
    EveryWriteIsAnEdge(c, steps, step, id);
    HistoryIsKept(c, steps, [step], id);
  }

  /** No request expires early: an EXPIRED one was turned by a step that goes by a reading at
      or past its deadline. */
  lemma {:induction false} ExpiredIsPastDeadline(c: Config, steps: seq<Step>, id: RequestId)
    requires id in Run(c, steps).db.requests && Run(c, steps).db.requests[id].status == Expired
    ensures exists j: nat :: ExpiresAt(c, steps, j, id, Run(c, steps).db.requests[id].request.expiresAt)
  {
    if steps != [] {
      var front, step := steps[..|steps| - 1], steps[|steps| - 1];
      assert front + [step] == steps;
      ExpiredHadARow(c, front, step, id);
      var deadline := Run(c, front).db.requests[id].request.expiresAt;
      if Run(c, front).db.requests[id].status == Expired {
        ExpiredIsPastDeadline(c, front, id);
        var j: nat :| ExpiresAt(c, front, j, id, deadline);
        ExpiresAtStays(c, front, step, j, id, deadline);
      } else {
        ExpiresLast(c, front, step, id);
      }
    }
  }
}
