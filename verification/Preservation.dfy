/** Every step keeps the invariant. */
module Preservation {
  import opened Model
  import opened Tables
  import opened Cells
  import opened Protocol
  import opened Invariant

  // ---------- the rely relation ----------

  lemma CellStepIsLater(c: Cell, c': Cell)
    requires CellStep(c, c')
    ensures CellLater(c, c')
  {
    TableIsRanked();
  }

  lemma RowsComeFromInsert(db: Db, op: Op, id: RequestId)
    requires At(db, id).row.None? && At(Apply(db, op), id).row.Some?
    ensures op.Insert? && op.request.id == id
  {
    ApplyAt(db, op, id);
  }

  /** `s'` is `s` after one database operation that the service may issue. */
  ghost predicate ByOp(c: Config, s: System, s': System, op: Op) {
    && s'.db == Apply(s.db, op)
    && OpPre(c.hash, s.db, op)
    && (if op.Insert? then s.db.localOnly && op.request.id !in s.used && s'.used == s.used + {op.request.id}
        else s'.used == s.used)
    && s.log <= s'.log
  }

  lemma OpIsLater(c: Config, s: System, s': System, op: Op)
    requires DbOk(c.hash, s.db) && ByOp(c, s, s', op)
    requires forall id :: Witnessed(s, id)
    ensures DbOk(c.hash, s'.db) && DbStep(s.db, s'.db) && Later(s, s')
  {
    OpKeeps(c.hash, s.db, op);
    TableIsRanked();
    forall id
      ensures CellLater(CellIn(s, id), CellIn(s', id))
      ensures Closed(s, id) ==> Closed(s', id)
      ensures id in s.used && CellIn(s, id).row.None? ==> CellIn(s', id).row.None?
    {
      assert Witnessed(s, id);
      assert CellOk(c.hash, id, CellIn(s, id));
      assert CellStep(At(s.db, id), At(s'.db, id));
      CellStepIsLater(CellIn(s, id), CellIn(s', id));
      if CellIn(s, id).row.None? && CellIn(s', id).row.Some? {
        RowsComeFromInsert(s.db, op, id);
      }
    }
  }

  lemma Reflexive(s: System, s': System)
    requires s'.db == s.db && s'.used == s.used && s.log <= s'.log
    ensures Later(s, s')
  {}

  // ---------- one thread moves ----------

  /** The operation belongs to the thread that issues it. */
  ghost predicate OpFits(c: Config, s: System, t: Thread, op: Op) {
    && OpPre(c.hash, s.db, op)
    && (op.Insert? ==> t.SubmitInsert? && op.request == t.request && op.request.id !in s.used)
    && (op.Finish? || op.AddChunk? ==> Owned(t) == Some(op.id))
    && !op.RecoverStatuses? && !op.RecoverExecutions? && !op.Migrate?
  }

  lemma ReviewFits(c: Config, s: System, t: Thread, i: Input)
    requires ThreadOk(c, s, t) && IsReview(t)
    ensures OpFits(c, s, t, ActReview(c, s, t, i).op)
  {
    if t.PruneDelete? {
      forall id <- t.ids | id in s.db.requests ensures PrunableCell(At(s.db, id)) {
        assert Closed(s, id);
      }
    } else if t.DecideAccept? {
      assert CellIn(s, t.approval.requestId) == At(s.db, t.approval.requestId);
    }
  }

  lemma PrepareFits(c: Config, s: System, t: Thread, i: Input)
    requires ThreadOk(c, s, t) && IsPrepare(t)
    ensures OpFits(c, s, t, ActPrepare(c, s, t, i).op)
  {}

  lemma SubmitFits(c: Config, s: System, t: Thread, i: Input)
    requires ThreadOk(c, s, t) && IsSubmit(t)
    ensures OpFits(c, s, t, ActSubmit(c, s, t, i).op)
  {
    if t.SubmitMove? {
      assert CellIn(s, t.id) == At(s.db, t.id);
    }
  }

  lemma RunFits(c: Config, s: System, t: Thread, i: Input)
    requires OwnerOk(s, t) && !IsSubmit(t) && !IsReview(t) && !IsPrepare(t)
    ensures OpFits(c, s, t, ActRun(c, s, t, i).op)
  {
    if Owned(t).Some? {
      assert CellIn(s, Owned(t).value) == At(s.db, Owned(t).value);
    }
  }

  lemma ActFits(c: Config, s: System, t: Thread, i: Input)
    requires ThreadOk(c, s, t) && OwnerOk(s, t)
    ensures OpFits(c, s, t, Act(c, s, t, i).op)
  {
    if IsSubmit(t) {
      SubmitFits(c, s, t, i);
    } else if IsReview(t) {
      ReviewFits(c, s, t, i);
    } else if IsPrepare(t) {
      PrepareFits(c, s, t, i);
    } else {
      RunFits(c, s, t, i);
    }
  }

  lemma RowIsItem(c: Config, s: System, id: RequestId)
    requires CellOk(c.hash, id, CellIn(s, id)) && Witnessed(s, id)
    ensures Get(s.db, id).Some? ==> ItemOk(c, s, Get(s.db, id).value) && Get(s.db, id).value.request.id == id
  {}

  lemma NextReviewOk(c: Config, s: System, t: Thread, i: Input)
    requires IsReview(t) && ThreadOk(c, s, t)
    requires t.DecideGet? && Get(s.db, t.id).Some? ==>
      ItemOk(c, s, Get(s.db, t.id).value) && Get(s.db, t.id).value.request.id == t.id
    ensures var n := ActReview(c, s, t, i).next; n.Some? ==> ThreadOk(c, s, n.value)
  {}

  lemma NextPrepareOk(c: Config, s: System, t: Thread, i: Input)
    requires IsPrepare(t) && ThreadOk(c, s, t)
    requires t.ExecGet? && Get(s.db, t.id).Some? ==>
      ItemOk(c, s, Get(s.db, t.id).value) && Get(s.db, t.id).value.request.id == t.id
    ensures var n := ActPrepare(c, s, t, i).next; n.Some? ==> ThreadOk(c, s, n.value)
  {}

  /** Whatever a thread becomes, its facts hold already before its operation, except that
      a submission learns about its row by inserting it. */
  lemma NextThreadOk(c: Config, s: System, t: Thread, i: Input)
    requires DbOk(c.hash, s.db) && ThreadOk(c, s, t) && !t.SubmitInsert?
    requires forall id :: Witnessed(s, id)
    ensures var n := Act(c, s, t, i).next; n.Some? ==> ThreadOk(c, s, n.value)
  {
    if IsReview(t) {
      if t.DecideGet? {
        RowIsItem(c, s, t.id);
      }
      NextReviewOk(c, s, t, i);
    } else if IsPrepare(t) {
      if t.ExecGet? {
        RowIsItem(c, s, t.id);
      }
      NextPrepareOk(c, s, t, i);
    }
  }

  lemma InsertedOk(c: Config, s: System, tid: Tid, child: Tid, i: Input)
    requires tid in s.threads && s.threads[tid].SubmitInsert? && Witnessed(s, s.threads[tid].request.id)
    ensures var o := ActSubmit(c, s, s.threads[tid], i);
      o.next.Some? ==> ThreadOk(c, Install(s, tid, child, o), o.next.value)
  {
    var t := s.threads[tid];
    var o := ActSubmit(c, s, t, i);
    ApplyAt(s.db, o.op, t.request.id);
  }

  lemma LaunchOk(c: Config, s: System, s': System, t: Thread, i: Input)
    requires DbOk(c.hash, s.db) && ThreadOk(c, s, t) && Later(s, s') && s'.db == Apply(s.db, Act(c, s, t, i).op)
    ensures var n := Act(c, s, t, i).launch; n.Some? ==> EverApproved(s', n.value)
  {
    OnlyDecisionsLaunch(c, s, t, i);
    if t.DecideAccept? {
      AcceptLaunches(c, s, s', t, i);
    } else if t.DecideExisting? {
      assert CellOk(c.hash, t.item.request.id, At(s.db, t.item.request.id));
      assert CellLater(CellIn(s, t.item.request.id), CellIn(s', t.item.request.id));
      AnswerLaunches(c, s, s', t, i);
    }
  }

  lemma OnlyDecisionsLaunch(c: Config, s: System, t: Thread, i: Input)
    ensures var o := Act(c, s, t, i);
      o == if IsReview(t) then ActReview(c, s, t, i) else o.(launch := None)
    ensures Act(c, s, t, i).launch.Some? ==> t.DecideAccept? || t.DecideExisting?
  {}

  lemma AcceptLaunches(c: Config, s: System, s': System, t: Thread, i: Input)
    requires t.DecideAccept? && ThreadOk(c, s, t) && s'.db == Apply(s.db, ActReview(c, s, t, i).op)
    ensures var n := ActReview(c, s, t, i).launch; n.Some? ==> EverApproved(s', n.value)
  {
    ApplyAt(s.db, Accept(t.approval), t.item.request.id);
  }

  lemma AnswerLaunches(c: Config, s: System, s': System, t: Thread, i: Input)
    requires t.DecideExisting? && ThreadOk(c, s, t)
    requires var id := t.item.request.id; CellOk(c.hash, id, CellIn(s, id)) && CellLater(CellIn(s, id), CellIn(s', id))
    ensures var n := ActReview(c, s, t, i).launch; n.Some? ==> EverApproved(s', n.value)
  {}

  // ---------- owners ----------

  /** An operation of another thread does not touch a running execution. */
  lemma ForeignOp(h: Request -> string, db: Db, op: Op, id: RequestId)
    requires OpPre(h, db, op) && IsExecuting(At(db, id))
    requires op.Finish? || op.AddChunk? ==> op.id != id
    requires !op.RecoverStatuses?
    ensures IsExecuting(At(Apply(db, op), id)) && At(Apply(db, op), id).chunks == At(db, id).chunks
  {
    ApplyAt(db, op, id);
    if Commits(db, op) {
      CommitGuards(h, db, op, id);
    }
  }

  lemma OwnerStays(c: Config, s: System, s': System, op: Op, u: Thread)
    requires OwnerOk(s, u) && ByOp(c, s, s', op) && !op.RecoverStatuses?
    requires Owned(u).Some? && (op.Finish? || op.AddChunk?) ==> Owned(u) != Some(op.id)
    requires u.ExecSpawn? ==> NoSpawn(s'.log, u.item.request.id)
    ensures OwnerOk(s', u)
  {
    if Owned(u).Some? {
      ForeignOp(c.hash, s.db, op, Owned(u).value);
    }
  }

  lemma BeginOwns(c: Config, s: System, s': System, t: Thread, i: Input)
    requires t.ExecBegin? && DbOk(c.hash, s.db) && LogOk(c, s)
    requires var o := ActPrepare(c, s, t, i); ByOp(c, s, s', o.op) && s'.log == s.log
    ensures var n := ActPrepare(c, s, t, i).next.value;
      && OwnerOk(s', n)
      && (Owned(n).Some? ==> Owned(n).value == t.item.request.id && !IsExecuting(CellIn(s, Owned(n).value)))
  {
    var id := t.item.request.id;
    var op := Begin(id, Approved);
    if Succeeds(s.db, op, i) {
      assert CellOk(c.hash, id, CellIn(s, id));
      ApplyAt(s.db, op, id);
      forall e <- s.log | e.Spawned? ensures e.id != id {
        var k :| 0 <= k < |s.log| && s.log[k] == e;
        assert EventOk(c, s, s.log[..k], s.log[k]);
      }
    }
  }

  /** Appending to the log of an owned execution keeps its numbers below the next one. */
  lemma ChunkOwns(c: Config, s: System, s': System, t: Thread, i: Input)
    requires t.ExecInsert? && OwnerOk(s, t)
    requires var o := ActRun(c, s, t, i); ByOp(c, s, s', o.op) && s'.log == s.log + o.events
    ensures OwnerOk(s', ActRun(c, s, t, i).next.value)
  {
    var id := t.item.request.id;
    var op := ActRun(c, s, t, i).op;
    ApplyAt(s.db, op, id);
    if op.AddChunk? && Commits(s.db, op) {
      InsertChunkAppends(CellIn(s, id).chunks, op.chunk);
    }
  }

  lemma RunOwns(c: Config, s: System, s': System, t: Thread, i: Input)
    requires Owned(t).Some? && OwnerOk(s, t)
    requires var o := ActRun(c, s, t, i); ByOp(c, s, s', o.op) && s'.log == s.log + o.events
    ensures var n := ActRun(c, s, t, i).next;
      n.Some? && OwnerOk(s', n.value) && (Owned(n.value).Some? ==> Owned(n.value) == Owned(t))
  {
    if t.ExecInsert? {
      ChunkOwns(c, s, s', t, i);
    } else {
      ApplyAt(s.db, ActRun(c, s, t, i).op, Owned(t).value);
    }
  }

  lemma OthersOwnNothing(c: Config, s: System, t: Thread, i: Input)
    requires Owned(t).None? && !t.ExecBegin?
    ensures var n := Act(c, s, t, i).next; n.Some? ==> Owned(n.value).None?
  {}

  lemma NextOwns(c: Config, s: System, s': System, t: Thread, i: Input)
    requires OwnerOk(s, t) && DbOk(c.hash, s.db) && LogOk(c, s)
    requires var o := Act(c, s, t, i); ByOp(c, s, s', o.op) && s'.log == s.log + o.events
    ensures var n := Act(c, s, t, i).next;
      n.Some? ==>
        && OwnerOk(s', n.value)
        && (Owned(n.value).Some? ==> Owned(n.value) == Owned(t) || !IsExecuting(CellIn(s, Owned(n.value).value)))
  {
    if Owned(t).Some? {
      RunOwns(c, s, s', t, i);
    } else if t.ExecBegin? {
      assert s'.log == s.log;
      BeginOwns(c, s, s', t, i);
    } else {
      OthersOwnNothing(c, s, t, i);
    }
  }

  // ---------- history ----------

  lemma ReviewEventOk(c: Config, s: System, s': System, t: Thread, i: Input)
    requires IsReview(t) && ThreadOk(c, s, t) && DbOk(c.hash, s.db) && s'.db == Apply(s.db, ActReview(c, s, t, i).op)
    ensures var e := ActReview(c, s, t, i).events; e != [] ==> EventOk(c, s', s.log, e[0])
  {
    if t.DecideAccept? {
      ApplyAt(s.db, Accept(t.approval), t.item.request.id);
    } else if t.DecideExisting? || t.InspectApproval? {
      assert CellOk(c.hash, t.item.request.id, CellIn(s, t.item.request.id));
      assert CellIn(s', t.item.request.id) == CellIn(s, t.item.request.id);
    }
  }

  lemma StoredEventOk(c: Config, s: System, s': System, t: Thread, i: Input)
    requires t.SubmitInsert? && LogOk(c, s) && Witnessed(s, t.request.id)
    requires var o := ActSubmit(c, s, t, i); ByOp(c, s, s', o.op)
    ensures var e := ActSubmit(c, s, t, i).events; e != [] ==> EventOk(c, s', s.log, e[0])
  {
    var o := ActSubmit(c, s, t, i);
    if o.events != [] {
      assert CellIn(s, t.request.id).row.None?;
      ApplyAt(s.db, o.op, t.request.id);
      forall x <- s.log | x.Stored? ensures x.id != t.request.id {
        var k :| 0 <= k < |s.log| && s.log[k] == x;
        assert EventOk(c, s, s.log[..k], s.log[k]);
      }
    }
  }

  lemma SpawnEventOk(c: Config, s: System, s': System, t: Thread, i: Input)
    requires t.ExecSpawn? && ThreadOk(c, s, t) && OwnerOk(s, t) && DbOk(c.hash, s.db) && s'.db == s.db
    requires Witnessed(s, t.item.request.id)
    ensures var e := ActRun(c, s, t, i).events; e != [] ==> EventOk(c, s', s.log, e[0])
  {
    var id := t.item.request.id;
    assert CellOk(c.hash, id, CellIn(s, id));
    assert CellIn(s', id) == CellIn(s, id);
  }

  lemma ActEventOk(c: Config, s: System, s': System, t: Thread, i: Input)
    requires ThreadOk(c, s, t) && OwnerOk(s, t) && DbOk(c.hash, s.db) && LogOk(c, s)
    requires forall id :: Witnessed(s, id)
    requires var o := Act(c, s, t, i); ByOp(c, s, s', o.op)
    ensures var e := Act(c, s, t, i).events; |e| <= 1 && (e != [] ==> EventOk(c, s', s.log, e[0]))
  {
    if t.SubmitInsert? {
      assert Witnessed(s, t.request.id);
      StoredEventOk(c, s, s', t, i);
    } else if IsReview(t) {
      ReviewEventOk(c, s, s', t, i);
    } else if t.ExecSpawn? {
      assert Witnessed(s, t.item.request.id);
      SpawnEventOk(c, s, s', t, i);
    } else {
      OthersAreSilent(c, s, t, i);
    }
  }

  lemma OthersAreSilent(c: Config, s: System, t: Thread, i: Input)
    requires !t.SubmitInsert? && !IsReview(t) && !t.ExecSpawn?
    ensures Act(c, s, t, i).events == []
  {}

  lemma ApprovalsComeFromAccept(db: Db, op: Op, id: RequestId)
    requires At(db, id).approval.None? && At(Apply(db, op), id).approval.Some?
    ensures op.Accept? && op.approval.requestId == id && At(Apply(db, op), id).approval.value.approval == op.approval
  {
    ApplyAt(db, op, id);
  }

  /** The history shows the call behind an operation. */
  predicate Announced(s: System, op: Op, log: seq<Event>) {
    match op
    case Insert(r, hash) => Stored(r.id, r, hash) in log
    case Accept(a) => a.decision == Approve ==> Called(0, a.requestId, a.requestHash, Approve) in log
    case Transition(id, next, _) =>
      next == Cancelled && CellIn(s, id).row.Some? ==>
        CancelCalled(0, id) in log || CancelCalled(CellIn(s, id).row.value.request.uid, id) in log
    case _ => true
  }

  lemma CancelsComeFromTransition(c: Config, s: System, op: Op, id: RequestId)
    requires OpPre(c.hash, s.db, op) && CellIn(s, id).row.Some? && CellIn(s, id).row.value.status != Cancelled
    requires var row := At(Apply(s.db, op), id).row; row.Some? && row.value.status == Cancelled
    ensures op.Transition? && op.id == id && op.next == Cancelled
  {
    ApplyAt(s.db, op, id);
  }

  lemma WitnessedStays(c: Config, s: System, s': System, op: Op, id: RequestId)
    requires Witnessed(s, id) && ByOp(c, s, s', op) && CellStep(CellIn(s, id), CellIn(s', id))
    requires CellOk(c.hash, id, CellIn(s, id)) && CellOk(c.hash, id, CellIn(s', id))
    requires Announced(s, op, s'.log)
    ensures Witnessed(s', id)
  {
    if CellIn(s, id).row.None? && CellIn(s', id).row.Some? {
      RowsComeFromInsert(s.db, op, id);
      ApplyAt(s.db, op, id);
    }
    if CellIn(s, id).approval.None? && CellIn(s', id).approval.Some? {
      ApprovalsComeFromAccept(s.db, op, id);
    }
    var row, row' := CellIn(s, id).row, CellIn(s', id).row;
    if row.Some? && row.value.status != Cancelled && row'.Some? && row'.value.status == Cancelled {
      CancelsComeFromTransition(c, s, op, id);
    }
  }

  lemma ActWitnesses(c: Config, s: System, t: Thread, i: Input)
    requires ThreadOk(c, s, t)
    ensures var o := Act(c, s, t, i); Announced(s, o.op, s.log + o.events)
  {
    if IsReview(t) {
      ReviewWitnesses(c, s, t, i);
    }
  }

  lemma ReviewWitnesses(c: Config, s: System, t: Thread, i: Input)
    requires ThreadOk(c, s, t) && IsReview(t)
    ensures var o := ActReview(c, s, t, i); Announced(s, o.op, s.log + o.events)
  {}

  // ---------- startup ----------

  lemma SettledStays(h: Request -> string, db: Db, op: Op, id: RequestId)
    requires OpPre(h, db, op) && CellOk(h, id, At(db, id)) && Settled(At(db, id)) && !op.RecoverStatuses?
    ensures Settled(At(Apply(db, op), id))
  {
    ApplyAt(db, op, id);
    if Commits(db, op) {
      CommitGuards(h, db, op, id);
    }
  }

  // ---------- quota ----------

  lemma SubsetSize<T>(a: set<T>, b: set<T>)
    requires a <= b
    ensures |a| <= |b|
  {
    assert b == a + (b - a);
  }

  /** Only an insertion can raise the number of outstanding requests. */
  lemma OutstandingShrinks(c: Config, s: System, s': System, op: Op, uid: nat)
    requires ByOp(c, s, s', op) && !op.Insert? && DbStep(s.db, s'.db)
    ensures |Outstanding(s'.db)| <= |Outstanding(s.db)|
    ensures |OutstandingOf(s'.db, uid)| <= |OutstandingOf(s.db, uid)|
  {
    forall id | id in Outstanding(s'.db)
      ensures id in Outstanding(s.db) && s'.db.requests[id].request == s.db.requests[id].request
    {
      assert CellStep(At(s.db, id), At(s'.db, id));
      TableIsRanked();
      if At(s.db, id).row.None? {
        RowsComeFromInsert(s.db, op, id);
      }
    }
    SubsetSize(Outstanding(s'.db), Outstanding(s.db));
    SubsetSize(OutstandingOf(s'.db, uid), OutstandingOf(s.db, uid));
  }

  lemma OutstandingGrowsByOne(c: Config, s: System, s': System, op: Op, uid: nat)
    requires ByOp(c, s, s', op) && op.Insert?
    ensures |Outstanding(s'.db)| <= |Outstanding(s.db)| + 1
    ensures |OutstandingOf(s'.db, uid)| <= |OutstandingOf(s.db, uid)| + (if op.request.uid == uid then 1 else 0)
  {
    var r := op.request;
    assert Outstanding(s'.db) <= Outstanding(s.db) + {r.id};
    SubsetSize(Outstanding(s'.db), Outstanding(s.db) + {r.id});
    var more := if r.uid == uid then {r.id} else {};
    assert OutstandingOf(s'.db, uid) <= OutstandingOf(s.db, uid) + more;
    SubsetSize(OutstandingOf(s'.db, uid), OutstandingOf(s.db, uid) + more);
  }

  // ---------- whole steps ----------

  /** The database, the history and the rely relation, for a step with one operation. */
  lemma BaseKeeps(c: Config, s: System, s': System, op: Op, e: seq<Event>)
    requires Inv(c, s) && ByOp(c, s, s', op) && s'.log == s.log + e && |e| <= 1
    requires e != [] ==> EventOk(c, s', s.log, e[0])
    requires Announced(s, op, s'.log)
    ensures DbOk(c.hash, s'.db) && DbStep(s.db, s'.db) && Later(s, s') && LogOk(c, s')
    ensures forall id :: Witnessed(s', id)
  {
    OpIsLater(c, s, s', op);
    LogStays(c, s, s', e);
    forall id ensures Witnessed(s', id) {
      assert Witnessed(s, id) && CellStep(At(s.db, id), At(s'.db, id));
      assert CellOk(c.hash, id, At(s.db, id)) && CellOk(c.hash, id, At(s'.db, id));
      WitnessedStays(c, s, s', op, id);
    }
  }

  lemma ThreadsStay(c: Config, s: System, s': System)
    requires Later(s, s') && forall tid <- s.threads :: ThreadOk(c, s, s.threads[tid])
    ensures forall tid <- s.threads :: ThreadOk(c, s', s.threads[tid])
  {
    forall tid <- s.threads ensures ThreadOk(c, s', s.threads[tid]) {
      ThreadStays(c, s, s', s.threads[tid]);
    }
  }

  lemma PhaseStays(c: Config, s: System, s': System, op: Op)
    requires DbOk(c.hash, s.db) && PhaseOk(s) && ByOp(c, s, s', op) && Later(s, s')
    requires Running(s.phase) && s'.phase == s.phase && !op.RecoverStatuses?
    ensures PhaseOk(s')
  {
    OpKeepsMarker(s.db, op);
    forall id ensures Settled(CellIn(s', id)) {
      assert Settled(CellIn(s, id)) && CellOk(c.hash, id, At(s.db, id));
      SettledStays(c.hash, s.db, op, id);
    }
    if s.phase.Relaunching? {
      forall id <- s.phase.ids ensures EverApproved(s', id) {
        assert CellLater(CellIn(s, id), CellIn(s', id));
      }
    }
  }

  /** A step without an insertion, and whose threads submit nothing new, keeps the quota. */
  lemma QuotaStays(c: Config, s: System, s': System, op: Op)
    requires QuotaOk(c, s) && ByOp(c, s, s', op) && !op.Insert? && DbStep(s.db, s'.db)
    requires forall tid <- s'.threads :: IsSubmit(s'.threads[tid]) ==> s'.submitLock == Some(tid)
    requires forall tid <- s'.threads :: s'.threads[tid].SubmitInsert? ==>
      && |Outstanding(s.db)| < c.maxPendingTotal
      && |OutstandingOf(s.db, s'.threads[tid].request.uid)| < c.maxPendingPerUid
    ensures QuotaOk(c, s')
  {
    OutstandingShrinks(c, s, s', op, 0);
    forall uid: nat ensures Within(|OutstandingOf(s'.db, uid)|, c.maxPendingPerUid) {
      OutstandingShrinks(c, s, s', op, uid);
      assert Within(|OutstandingOf(s.db, uid)|, c.maxPendingPerUid);
    }
    forall tid <- s'.threads | s'.threads[tid].SubmitInsert?
      ensures |OutstandingOf(s'.db, s'.threads[tid].request.uid)| < c.maxPendingPerUid
    {
      OutstandingShrinks(c, s, s', op, s'.threads[tid].request.uid);
    }
  }

  lemma OwnersStay(c: Config, s: System, s': System, op: Op)
    requires OwnersOk(s) && ByOp(c, s, s', op) && !op.RecoverStatuses? && !op.Finish? && !op.AddChunk?
    requires forall e <- s'.log :: e.Spawned? ==> e in s.log
    requires forall u <- s'.threads :: Owned(s'.threads[u]).None? || (u in s.threads && s'.threads[u] == s.threads[u])
    ensures OwnersOk(s')
  {
    forall u <- s'.threads ensures OwnerOk(s', s'.threads[u]) {
      if Owned(s'.threads[u]).Some? {
        OwnerStays(c, s, s', op, s.threads[u]);
      }
    }
  }

  lemma AddThreadPhase(c: Config, s: System, s': System)
    requires Inv(c, s) && Running(s.phase) && s'.db == s.db && Later(s, s')
    requires s'.phase == s.phase || (s.phase.Relaunching? && s'.phase.Relaunching? && s'.phase.ids <= s.phase.ids)
    ensures PhaseOk(s')
  {
    forall id ensures Settled(CellIn(s', id)) {
      assert Settled(CellIn(s, id));
    }
    if s'.phase.Relaunching? {
      forall id <- s'.phase.ids ensures EverApproved(s', id) {
        assert EverApproved(s, id);
      }
    }
  }

  /** A new thread that owns nothing, after at most one event. */
  lemma AddThreadKeeps(c: Config, s: System, s': System, tid: Tid, t: Thread, e: seq<Event>)
    requires Inv(c, s) && Running(s.phase) && tid !in s.threads && Owned(t).None?
    requires s'.db == s.db && s'.used == s.used && s'.threads == s.threads[tid := t] && s'.log == s.log + e
    requires |e| <= 1 && (e != [] ==> e[0].Called? || e[0].CancelCalled?)
    requires ThreadOk(c, s', t)
    requires s'.phase == s.phase || (s.phase.Relaunching? && s'.phase.Relaunching? && s'.phase.ids <= s.phase.ids)
    requires if IsSubmit(t) then !t.SubmitInsert? && s.submitLock.None? && s'.submitLock == Some(tid)
             else s'.submitLock == s.submitLock
    ensures Inv(c, s') && Later(s, s')
  {
    BaseKeeps(c, s, s', Nop, e);
    ThreadsStay(c, s, s');
    AddThreadPhase(c, s, s');
    OwnersStay(c, s, s', Nop);
    QuotaStays(c, s, s', Nop);
  }

  lemma ExpireKeeps(c: Config, s: System, now: int)
    requires Inv(c, s) && s.phase.Serving?
    ensures var s' := Next(c, s, ExpireNow(now)); Inv(c, s') && Later(s, s') && DbStep(s.db, s'.db)
  {
    var s' := Next(c, s, ExpireNow(now));
    BaseKeeps(c, s, s', Expire(now), []);
    ThreadsStay(c, s, s');
    PhaseStays(c, s, s', Expire(now));
    OwnersStay(c, s, s', Expire(now));
    QuotaStays(c, s, s', Expire(now));
  }

  // ---------- a thread moves ----------

  lemma SpawnsOwn(c: Config, s: System, t: Thread, i: Input)
    ensures forall e <- Act(c, s, t, i).events :: e.Spawned? ==> Owned(t) == Some(e.id)
  {}

  /** At most one thread at a time owns an execution. */
  lemma OwnersDiffer(s: System, s': System, tid: Tid, u: Tid, v: Tid)
    requires OwnersOk(s) && tid in s.threads && u in s'.threads && v in s'.threads && u != v
    requires forall w <- s'.threads :: w != tid ==>
      Owned(s'.threads[w]).None? || (w in s.threads && s'.threads[w] == s.threads[w])
    requires tid in s'.threads && Owned(s'.threads[tid]).Some? ==>
      || Owned(s'.threads[tid]) == Owned(s.threads[tid])
      || !IsExecuting(CellIn(s, Owned(s'.threads[tid]).value))
    requires Owned(s'.threads[u]).Some?
    ensures Owned(s'.threads[u]) != Owned(s'.threads[v])
  {
    assert u in s.threads && OwnerOk(s, s.threads[u]);
    assert v in s.threads ==> OwnerOk(s, s.threads[v]);
  }

  lemma InstallOwners(c: Config, s: System, tid: Tid, child: Tid, o: Out)
    requires OwnersOk(s) && tid in s.threads && child !in s.threads
    requires ByOp(c, s, Install(s, tid, child, o), o.op) && OpFits(c, s, s.threads[tid], o.op)
    requires forall e <- o.events :: e.Spawned? ==> Owned(s.threads[tid]) == Some(e.id)
    requires o.next.Some? ==>
      && OwnerOk(Install(s, tid, child, o), o.next.value)
      && (Owned(o.next.value).Some? ==>
            Owned(o.next.value) == Owned(s.threads[tid]) || !IsExecuting(CellIn(s, Owned(o.next.value).value)))
    ensures OwnersOk(Install(s, tid, child, o))
  {
    var s' := Install(s, tid, child, o);
    forall u <- s'.threads ensures OwnerOk(s', s'.threads[u]) {
      if u != tid && u in s.threads {
        OwnerStays(c, s, s', o.op, s.threads[u]);
      }
    }
    forall u, v | u in s'.threads && v in s'.threads && u != v && Owned(s'.threads[u]).Some?
      ensures Owned(s'.threads[u]) != Owned(s'.threads[v])
    {
      OwnersDiffer(s, s', tid, u, v);
    }
  }

  lemma MoveOwners(c: Config, s: System, tid: Tid, child: Tid, i: Input)
    requires Inv(c, s) && tid in s.threads && child !in s.threads
    requires var s' := MoveThread(c, s, tid, child, i); ByOp(c, s, s', Act(c, s, s.threads[tid], i).op)
    requires OpFits(c, s, s.threads[tid], Act(c, s, s.threads[tid], i).op)
    ensures OwnersOk(MoveThread(c, s, tid, child, i))
  {
    var t := s.threads[tid];
    assert OwnerOk(s, t);
    NextOwns(c, s, MoveThread(c, s, tid, child, i), t, i);
    SpawnsOwn(c, s, t, i);
    InstallOwners(c, s, tid, child, Act(c, s, t, i));
  }

  lemma InstallQuota(c: Config, s: System, tid: Tid, child: Tid, o: Out)
    requires QuotaOk(c, s) && tid in s.threads && child !in s.threads
    requires var s' := Install(s, tid, child, o); ByOp(c, s, s', o.op) && DbStep(s.db, s'.db)
    requires OpFits(c, s, s.threads[tid], o.op) && SubmitFlow(c, s, s.threads[tid], o.next)
    ensures QuotaOk(c, Install(s, tid, child, o))
  {
    var s' := Install(s, tid, child, o);
    forall u <- s'.threads | IsSubmit(s'.threads[u]) ensures s'.submitLock == Some(u) {
      if u != tid {
        assert u in s.threads && IsSubmit(s.threads[u]);
      }
    }
    if o.op.Insert? {
      OutstandingGrowsByOne(c, s, s', o.op, 0);
      forall uid: nat ensures Within(|OutstandingOf(s'.db, uid)|, c.maxPendingPerUid) {
        OutstandingGrowsByOne(c, s, s', o.op, uid);
        assert Within(|OutstandingOf(s.db, uid)|, c.maxPendingPerUid);
      }
    } else {
      QuotaStays(c, s, s', o.op);
    }
  }

  lemma MoveQuota(c: Config, s: System, tid: Tid, child: Tid, i: Input)
    requires Inv(c, s) && tid in s.threads && child !in s.threads
    requires var s' := MoveThread(c, s, tid, child, i);
      ByOp(c, s, s', Act(c, s, s.threads[tid], i).op) && DbStep(s.db, s'.db)
    requires OpFits(c, s, s.threads[tid], Act(c, s, s.threads[tid], i).op)
    ensures QuotaOk(c, MoveThread(c, s, tid, child, i))
  {
    NextSubmits(c, s, s.threads[tid], i);
    InstallQuota(c, s, tid, child, Act(c, s, s.threads[tid], i));
  }

  /** A submission keeps the lock until it unlocks, and inserts only after a count below
      both limits. */
  ghost predicate SubmitFlow(c: Config, s: System, t: Thread, n: Option<Thread>) {
    && (n.Some? && IsSubmit(n.value) ==> IsSubmit(t) && !t.SubmitUnlock?)
    && (IsSubmit(t) && !t.SubmitUnlock? ==> n.Some?)
    && (t.SubmitUnlock? ==> n.None?)
    && (n.Some? && n.value.SubmitInsert? ==>
          |Outstanding(s.db)| < c.maxPendingTotal && |OutstandingOf(s.db, n.value.request.uid)| < c.maxPendingPerUid)
    && (t.SubmitInsert? && n.Some? ==> !n.value.SubmitInsert?)
  }

  lemma NextSubmits(c: Config, s: System, t: Thread, i: Input)
    ensures SubmitFlow(c, s, t, Act(c, s, t, i).next)
  {}

  lemma InstallThreads(c: Config, s: System, tid: Tid, child: Tid, o: Out)
    requires tid in s.threads && child !in s.threads && Later(s, Install(s, tid, child, o))
    requires forall u <- s.threads :: ThreadOk(c, s, s.threads[u])
    requires o.next.Some? ==> ThreadOk(c, Install(s, tid, child, o), o.next.value)
    requires o.launch.Some? ==> EverApproved(Install(s, tid, child, o), o.launch.value)
    ensures var s' := Install(s, tid, child, o); forall u <- s'.threads :: ThreadOk(c, s', s'.threads[u])
  {
    var s' := Install(s, tid, child, o);
    ThreadsStay(c, s, s');
  }

  lemma MoveThreads(c: Config, s: System, tid: Tid, child: Tid, i: Input)
    requires Inv(c, s) && tid in s.threads && child !in s.threads
    requires Later(s, MoveThread(c, s, tid, child, i))
    ensures var s' := MoveThread(c, s, tid, child, i); forall u <- s'.threads :: ThreadOk(c, s', s'.threads[u])
  {
    var t := s.threads[tid];
    assert ThreadOk(c, s, t);
    var o := Act(c, s, t, i);
    var s' := Install(s, tid, child, o);
    if t.SubmitInsert? {
      assert Witnessed(s, t.request.id);
      InsertedOk(c, s, tid, child, i);
    } else {
      NextThreadOk(c, s, t, i);
      if o.next.Some? {
        ThreadStays(c, s, s', o.next.value);
      }
    }
    LaunchOk(c, s, s', t, i);
    InstallThreads(c, s, tid, child, o);
  }

  lemma MoveBase(c: Config, s: System, tid: Tid, child: Tid, i: Input)
    requires Inv(c, s) && Running(s.phase) && tid in s.threads
    ensures var s' := MoveThread(c, s, tid, child, i); var o := Act(c, s, s.threads[tid], i);
      && OpFits(c, s, s.threads[tid], o.op) && ByOp(c, s, s', o.op) && LogOk(c, s')
      && DbOk(c.hash, s'.db) && DbStep(s.db, s'.db) && Later(s, s')
      && forall id :: Witnessed(s', id)
  {
    var t := s.threads[tid];
    var o := Act(c, s, t, i);
    var s' := MoveThread(c, s, tid, child, i);
    assert ThreadOk(c, s, t) && OwnerOk(s, t);
    ActFits(c, s, t, i);
    ActEventOk(c, s, s', t, i);
    ActWitnesses(c, s, t, i);
    BaseKeeps(c, s, s', o.op, o.events);
  }

  lemma MoveKeeps(c: Config, s: System, tid: Tid, child: Tid, i: Input)
    requires Inv(c, s) && Running(s.phase) && tid in s.threads && child !in s.threads
    ensures var s' := MoveThread(c, s, tid, child, i); Inv(c, s') && Later(s, s') && DbStep(s.db, s'.db)
  {
    var s' := MoveThread(c, s, tid, child, i);
    MoveBase(c, s, tid, child, i);
    MoveThreads(c, s, tid, child, i);
    PhaseStays(c, s, s', Act(c, s, s.threads[tid], i).op);
    MoveOwners(c, s, tid, child, i);
    MoveQuota(c, s, tid, child, i);
  }

  // ---------- death and restart ----------

  lemma DeathKeeps(c: Config, s: System)
    requires Inv(c, s)
    ensures var s' := Next(c, s, Die); Inv(c, s') && Later(s, s')
  {
    var s' := Next(c, s, Die);
    BaseKeeps(c, s, s', Nop, []);
    QuotaStays(c, s, s', Nop);
  }

  lemma RecoverAt(db: Db, op: Op, id: RequestId)
    ensures op.RecoverStatuses? ==> !IsExecuting(At(Apply(db, op), id))
    ensures op.RecoverExecutions? ==> Settled(At(Apply(db, op), id))
    ensures op.Expire? ==> var row := At(Apply(db, op), id).row;
      row.Some? && row.value.status == Approved ==> row.value.request.expiresAt > op.now
    ensures (op.RecoverExecutions? || op.Migrate? || op.Expire?) && !IsExecuting(At(db, id)) ==>
      !IsExecuting(At(Apply(db, op), id))
  {
    ApplyAt(db, op, id);
  }

  lemma RestartPhase(c: Config, s: System, s': System, op: Op)
    requires Inv(c, s) && ByOp(c, s, s', op) && s'.threads == map[]
    requires || (s.phase.Down? && op.RecoverStatuses? && s'.phase.StatusesRecovered?)
             || (s.phase.StatusesRecovered? && op.RecoverExecutions? && s'.phase.ExecutionsRecovered?)
             || (s.phase.ExecutionsRecovered? && op.Migrate? && s'.phase.Opened?)
             || (s.phase.Opened? && op.Expire? && s'.phase == StartupExpired(op.now))
    ensures PhaseOk(s')
  {
    OpKeepsMarker(s.db, op);
    forall id ensures !IsExecuting(CellIn(s', id))
      ensures s.phase.ExecutionsRecovered? || s.phase.Opened? ==> Settled(CellIn(s', id))
      ensures op.RecoverExecutions? ==> Settled(CellIn(s', id))
      ensures s'.phase.StartupExpired? && CellIn(s', id).row.Some? && CellIn(s', id).row.value.status == Approved ==>
        CellIn(s', id).row.value.request.expiresAt > s'.phase.now
    {
      RecoverAt(s.db, op, id);
      assert s.phase.Down? || !IsExecuting(CellIn(s, id));
      assert CellOk(c.hash, id, CellIn(s, id));
      if s.phase.ExecutionsRecovered? || s.phase.Opened? {
        assert Settled(CellIn(s, id));
        SettledStays(c.hash, s.db, op, id);
      }
    }
  }

  lemma RecoverKeeps(c: Config, s: System, now: int)
    requires Inv(c, s)
    requires s.phase.Down? || s.phase.StatusesRecovered? || s.phase.ExecutionsRecovered? || s.phase.Opened?
    ensures var s' := RestartStep(s, now); Inv(c, s') && Later(s, s') && DbStep(s.db, s'.db)
  {
    var s' := RestartStep(s, now);
    var op := match s.phase
      case Down => RecoverStatuses
      case StatusesRecovered => RecoverExecutions
      case ExecutionsRecovered => Migrate
      case _ => Expire(now);
    if op.RecoverExecutions? {
      forall id <- s.db.requests ensures s.db.requests[id].status != Executing {
        assert !IsExecuting(CellIn(s, id));
      }
    }
    BaseKeeps(c, s, s', op, []);
    RestartPhase(c, s, s', op);
    QuotaStays(c, s, s', op);
  }

  lemma RelaunchPhase(c: Config, s: System, now: int)
    requires Inv(c, s) && (s.phase.StartupExpired? || s.phase.Relaunching? || s.phase.Serving?)
    ensures PhaseOk(RestartStep(s, now))
  {
    var s' := RestartStep(s, now);
    forall id ensures Settled(CellIn(s', id)) {
      assert Settled(CellIn(s, id));
    }
    if s'.phase.Relaunching? {
      forall id <- s'.phase.ids ensures EverApproved(s', id) {
        assert CellOk(c.hash, id, CellIn(s, id));
        assert s.phase.Relaunching? ==> EverApproved(s, id);
      }
    }
  }

  lemma RelaunchListKeeps(c: Config, s: System, now: int)
    requires Inv(c, s) && (s.phase.StartupExpired? || s.phase.Relaunching? || s.phase.Serving?)
    ensures var s' := RestartStep(s, now); Inv(c, s') && Later(s, s') && s'.db == s.db
  {
    var s' := RestartStep(s, now);
    BaseKeeps(c, s, s', Nop, []);
    ThreadsStay(c, s, s');
    RelaunchPhase(c, s, now);
    OwnersStay(c, s, s', Nop);
    QuotaStays(c, s, s', Nop);
  }
}
