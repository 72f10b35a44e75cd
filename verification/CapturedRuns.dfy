/** Output capture inside the running daemon: every append is three separate statements, other
    threads run in between, and the process may die between any two. The claims are for runs
    in which the INSERT and UPDATE of the request's own appends do not fail. */
module CapturedRuns {
  import opened Model
  import opened Tables
  import opened Cells
  import opened Output
  import opened Protocol
  import opened Invariant
  import opened Preservation
  import opened Safety

  // ---------- what was offered ----------

  predicate Enabled(s: System, step: Step) {
    step.Move? && Running(s.phase) && step.tid in s.threads && step.child !in s.threads
  }

  /** If this step is an append statement for `id`, it does not fail. */
  predicate CleanStep(s: System, step: Step, id: RequestId) {
    Enabled(s, step) && (s.threads[step.tid].ExecInsert? || s.threads[step.tid].ExecCount?)
    && Owned(s.threads[step.tid]) == Some(id) ==>
      step.input.commits && step.input.reported
  }

  predicate Clean(c: Config, steps: seq<Step>, id: RequestId) {
    steps != [] ==>
      Clean(c, steps[..|steps| - 1], id) && CleanStep(Run(c, steps[..|steps| - 1]), steps[|steps| - 1], id)
  }

  /** The block, if any, that a drain offers in this step. */
  function Offering(t: Thread, i: Input): seq<Offer> {
    if t.ExecRun? && !i.ends && i.data != [] then [Offer(i.stream, i.data, i.capacity)] else []
  }

  function NewOffer(s: System, step: Step, id: RequestId): seq<Offer> {
    if Enabled(s, step) && Owned(s.threads[step.tid]) == Some(id) then Offering(s.threads[step.tid], step.input) else []
  }

  function OffersOf(c: Config, steps: seq<Step>, id: RequestId): seq<Offer> {
    if steps == [] then [] else
    OffersOf(c, steps[..|steps| - 1], id) + NewOffer(Run(c, steps[..|steps| - 1]), steps[|steps| - 1], id)
  }

  // ---------- invariant ----------

  function Captured(x: Cell): Capture
    requires x.row.Some?
  {
    Capture(x.chunks, x.row.value.outputBytes, x.row.value.truncated)
  }

  /** The stored chunks are those of all the offers, or of all but the one in progress. */
  predicate Partial(chunks: seq<Chunk>, offers: seq<Offer>, cap: int) {
    || chunks == Drain(offers, cap).chunks
    || (offers != [] && chunks == Drain(offers[..|offers| - 1], cap).chunks)
  }

  /** Where an append stands, by the state of the thread that makes it. */
  predicate Tracks(k: Capture, t: Thread, offers: seq<Offer>, cap: int) {
    match t
    case ExecSpawn(_) => offers == [] && k == NO_CAPTURE
    case ExecRun(_, n) => n == |offers| && k == Drain(offers, cap)
    case ExecInsert(_, n, stored, stream, truncated) =>
      && n + 1 == |offers|
      && var o := offers[n];
         && k == Drain(offers[..n], cap) && !k.truncated
         && stored == Keep(o.data, cap - k.bytes, o.capacity) && stream == o.stream
         && truncated == (|stored| < |o.data|)
    case ExecCount(_, n, count, truncated) =>
      n + 1 == |offers| && Capture(k.chunks, k.bytes + count, truncated) == Drain(offers, cap)
    case ExecFinish(_, _, _) => k == Drain(offers, cap)
    case _ => true
  }

  predicate CellOutput(x: Cell, offers: seq<Offer>, cap: int) {
    && NonEmpty(offers)
    && Partial(x.chunks, offers, cap)
    && (x.execution.None? ==> offers == [] && (x.row.Some? ==> Captured(x) == NO_CAPTURE))
    && (x.row.Some? && x.execution.Some? && Completed(x.execution.value) ==> Captured(x) == Drain(offers, cap))
  }

  ghost predicate OutputOk(c: Config, s: System, id: RequestId, offers: seq<Offer>) {
    && CellOutput(CellIn(s, id), offers, c.outputCap)
    && (forall tid <- s.threads :: Owned(s.threads[tid]) == Some(id) ==>
          CellIn(s, id).row.Some? && Tracks(Captured(CellIn(s, id)), s.threads[tid], offers, c.outputCap))
  }

  // ---------- steps of others ----------

  /** An operation that is no append to `id` leaves what is captured for it alone. */
  lemma OpKeepsCapture(h: Request -> string, db: Db, op: Op, id: RequestId)
    requires OpPre(h, db, op) && CellOk(h, id, At(db, id))
    requires op.AddChunk? || op.AddBytes? ==> op.id != id
    ensures var x, x' := At(db, id), At(Apply(db, op), id);
      && x'.chunks == x.chunks
      && (x.row.Some? && x'.row.Some? ==> Captured(x') == Captured(x))
      && (x.row.None? && x'.row.Some? ==> Captured(x') == NO_CAPTURE)
  {
    ApplyAt(db, op, id);
    if Commits(db, op) {
      CommitGuards(h, db, op, id);
    }
  }

  /** Whether the execution of a request ended by its own process. */
  predicate Ended(x: Cell) {
    x.execution.Some? && Completed(x.execution.value)
  }

  /** That comes only from a thread that owned the execution. */
  lemma EndingIsFinish(h: Request -> string, db: Db, op: Op, id: RequestId)
    requires OpPre(h, db, op) && CellOk(h, id, At(db, id))
    requires !Ended(At(db, id)) && Ended(At(Apply(db, op), id))
    ensures op.Finish? && op.id == id
  {
    ApplyAt(db, op, id);
    if Commits(db, op) {
      CommitGuards(h, db, op, id);
    }
  }

  lemma CellOutputStays(h: Request -> string, db: Db, op: Op, id: RequestId, offers: seq<Offer>, cap: int)
    requires OpPre(h, db, op) && CellOk(h, id, At(db, id)) && CellOutput(At(db, id), offers, cap)
    requires CellStep(At(db, id), At(Apply(db, op), id))
    requires op.AddChunk? || op.AddBytes? || op.Finish? ==> op.id != id
    ensures CellOutput(At(Apply(db, op), id), offers, cap)
  {
    OpKeepsCapture(h, db, op, id);
    var x, x' := At(db, id), At(Apply(db, op), id);
    if Ended(x') && !Ended(x) {
      EndingIsFinish(h, db, op, id);
    }
  }

  lemma OthersKeepOutput(c: Config, s: System, s': System, op: Op, id: RequestId, offers: seq<Offer>)
    requires OutputOk(c, s, id, offers) && ByOp(c, s, s', op) && DbOk(c.hash, s.db) && DbStep(s.db, s'.db)
    requires op.AddChunk? || op.AddBytes? || op.Finish? ==> op.id != id
    requires forall tid <- s'.threads :: Owned(s'.threads[tid]) == Some(id) ==>
      && CellIn(s', id).row.Some? && CellIn(s, id).row.Some?
      && ((tid in s.threads && s'.threads[tid] == s.threads[tid])
          || (s'.threads[tid].ExecSpawn? && CellIn(s, id).execution.None?))
    ensures OutputOk(c, s', id, offers)
  {
    assert CellOk(c.hash, id, At(s.db, id)) && CellStep(At(s.db, id), At(s'.db, id));
    CellOutputStays(c.hash, s.db, op, id, offers, c.outputCap);
    OpKeepsCapture(c.hash, s.db, op, id);
  }

  lemma AppendsAreOwned(c: Config, s: System, t: Thread, i: Input)
    ensures var op := Act(c, s, t, i).op; op.AddChunk? || op.AddBytes? || op.Finish? ==> Owned(t) == Some(op.id)
  {}

  lemma NewOwner(c: Config, s: System, t: Thread, i: Input)
    ensures var n := Act(c, s, t, i).next; n.Some? && Owned(n.value).Some? && Owned(n.value) != Owned(t) ==>
      && n.value.ExecSpawn?
      && CellIn(s, Owned(n.value).value).row.Some? && CellIn(s, Owned(n.value).value).execution.None?
  {
    if Owned(t).None? && !t.ExecBegin? {
      OthersOwnNothing(c, s, t, i);
    }
  }

  /** Where a thread of the new state comes from. */
  lemma InstalledThread(s: System, tid: Tid, child: Tid, o: Out, u: Tid)
    requires tid in s.threads && child !in s.threads && u in Install(s, tid, child, o).threads
    ensures var n := Install(s, tid, child, o).threads[u];
      if u == tid then o.next == Some(n) else if u == child then n.ExecGuard? else u in s.threads && n == s.threads[u]
  {}

  lemma ForeignInstall(c: Config, s: System, tid: Tid, child: Tid, o: Out, id: RequestId, offers: seq<Offer>)
    requires OutputOk(c, s, id, offers) && OwnersOk(s) && DbOk(c.hash, s.db)
    requires tid in s.threads && child !in s.threads && Owned(s.threads[tid]) != Some(id)
    requires var s' := Install(s, tid, child, o); ByOp(c, s, s', o.op) && DbStep(s.db, s'.db) && OwnersOk(s')
    requires o.op.AddChunk? || o.op.AddBytes? || o.op.Finish? ==> o.op.id != id
    requires o.next.Some? && Owned(o.next.value) == Some(id) ==>
      o.next.value.ExecSpawn? && CellIn(s, id).row.Some? && CellIn(s, id).execution.None?
    ensures OutputOk(c, Install(s, tid, child, o), id, offers)
  {
    var s' := Install(s, tid, child, o);
    forall u <- s'.threads | Owned(s'.threads[u]) == Some(id)
      ensures CellIn(s', id).row.Some? && CellIn(s, id).row.Some?
      ensures || (u in s.threads && s'.threads[u] == s.threads[u])
              || (s'.threads[u].ExecSpawn? && CellIn(s, id).execution.None?)
    {
      InstalledThread(s, tid, child, o, u);
      assert OwnerOk(s', s'.threads[u]);
      assert u != tid ==> u in s.threads && OwnerOk(s, s.threads[u]);
    }
    OthersKeepOutput(c, s, s', o.op, id, offers);
  }

  /** An enabled move, without the other kinds of steps. */
  lemma MoveIs(c: Config, s: System, step: Step)
    requires Enabled(s, step)
    ensures Next(c, s, step) == MoveThread(c, s, step.tid, step.child, step.input)
  {}

  lemma ForeignMove(c: Config, s: System, step: Step, id: RequestId, offers: seq<Offer>)
    requires Inv(c, s) && OutputOk(c, s, id, offers) && Enabled(s, step) && Owned(s.threads[step.tid]) != Some(id)
    ensures OutputOk(c, MoveThread(c, s, step.tid, step.child, step.input), id, offers)
  {
    var t := s.threads[step.tid];
    MoveBase(c, s, step.tid, step.child, step.input);
    MoveOwners(c, s, step.tid, step.child, step.input);
    AppendsAreOwned(c, s, t, step.input);
    NewOwner(c, s, t, step.input);
    ForeignInstall(c, s, step.tid, step.child, Act(c, s, t, step.input), id, offers);
  }

  lemma IdleKeeps(c: Config, s: System, s': System, op: Op, id: RequestId, offers: seq<Offer>)
    requires OutputOk(c, s, id, offers) && OwnersOk(s) && OwnersOk(s') && DbOk(c.hash, s.db)
    requires ByOp(c, s, s', op) && DbStep(s.db, s'.db) && !op.AddChunk? && !op.AddBytes? && !op.Finish?
    requires forall u <- s'.threads :: Owned(s'.threads[u]).None? || (u in s.threads && s'.threads[u] == s.threads[u])
    ensures OutputOk(c, s', id, offers)
  {
    forall u <- s'.threads | Owned(s'.threads[u]) == Some(id)
      ensures CellIn(s', id).row.Some? && CellIn(s, id).row.Some?
    {
      assert OwnerOk(s', s'.threads[u]) && OwnerOk(s, s.threads[u]);
    }
    OthersKeepOutput(c, s, s', op, id, offers);
  }

  lemma IdleThreads(c: Config, s: System, step: Step)
    requires !Enabled(s, step)
    ensures var s' := Next(c, s, step);
      forall u <- s'.threads :: Owned(s'.threads[u]).None? || (u in s.threads && s'.threads[u] == s.threads[u])
  {}

  /** The operation of a step in which no thread moves. */
  function IdleOp(s: System, step: Step): Op {
    if step.Restart? then
      match s.phase
      case Down => RecoverStatuses
      case StatusesRecovered => RecoverExecutions
      case ExecutionsRecovered => Migrate
      case Opened => Expire(step.now)
      case _ => Nop
    else if step.ExpireNow? && s.phase.Serving? then Expire(step.now)
    else Nop
  }

  lemma RestartByOp(c: Config, s: System, now: int)
    requires PhaseOk(s)
    ensures ByOp(c, s, RestartStep(s, now), IdleOp(s, Restart(now)))
  {
    if s.phase.StatusesRecovered? {
      forall r <- s.db.requests ensures s.db.requests[r].status != Executing {
        assert !IsExecuting(CellIn(s, r));
      }
    }
  }

  lemma QuietByOp(c: Config, s: System, step: Step)
    requires !Enabled(s, step) && !step.Restart?
    ensures ByOp(c, s, Next(c, s, step), IdleOp(s, step))
  {}

  lemma IdleByOp(c: Config, s: System, step: Step)
    requires !Enabled(s, step) && PhaseOk(s)
    ensures ByOp(c, s, Next(c, s, step), IdleOp(s, step))
  {
    if step.Restart? {
      RestartByOp(c, s, step.now);
    } else {
      QuietByOp(c, s, step);
    }
  }

  /** A step in which no thread moves. */
  lemma IdleStep(c: Config, s: System, step: Step, id: RequestId, offers: seq<Offer>)
    requires Inv(c, s) && OutputOk(c, s, id, offers) && !Enabled(s, step)
    ensures OutputOk(c, Next(c, s, step), id, offers)
  {
    NextKeeps(c, s, step);
    IdleByOp(c, s, step);
    IdleThreads(c, s, step);
    IdleKeeps(c, s, Next(c, s, step), IdleOp(s, step), id, offers);
  }

  // ---------- steps of the owner ----------

  /** What the owner's step leaves: the captured output, and where the append then stands. */
  ghost predicate Advances(c: Config, x: Cell, next: Option<Thread>, id: RequestId, offers: seq<Offer>) {
    && CellOutput(x, offers, c.outputCap) && x.row.Some?
    && next.Some?
    && (Owned(next.value) == Some(id) ==> Tracks(Captured(x), next.value, offers, c.outputCap))
  }

  lemma DrainGrows(offers: seq<Offer>, o: Offer, cap: int)
    ensures Drain(offers + [o], cap) == Append(Drain(offers, cap), |offers|, o, cap)
    ensures (offers + [o])[..|offers|] == offers
  {
    assert (offers + [o])[..|offers|] == offers;
  }

  lemma SpawnAdvances(c: Config, s: System, t: Thread, i: Input, id: RequestId, offers: seq<Offer>)
    requires t.ExecSpawn? && t.item.request.id == id
    requires IsExecuting(CellIn(s, id)) && CellIn(s, id).execution == Some(STARTED)
    requires CellOutput(CellIn(s, id), offers, c.outputCap) && Tracks(Captured(CellIn(s, id)), t, offers, c.outputCap)
    ensures ActRun(c, s, t, i).op.Nop? && Advances(c, CellIn(s, id), ActRun(c, s, t, i).next, id, offers)
  {}

  lemma ReadAdvances(c: Config, s: System, t: Thread, i: Input, id: RequestId, offers: seq<Offer>)
    requires t.ExecRun? && t.item.request.id == id
    requires IsExecuting(CellIn(s, id)) && CellIn(s, id).execution == Some(STARTED)
    requires CellOutput(CellIn(s, id), offers, c.outputCap) && Tracks(Captured(CellIn(s, id)), t, offers, c.outputCap)
    ensures ActRun(c, s, t, i).op.Nop?
    ensures Advances(c, CellIn(s, id), ActRun(c, s, t, i).next, id, offers + Offering(t, i))
  {
    if !i.ends && i.data != [] {
      DrainGrows(offers, Offer(i.stream, i.data, i.capacity), c.outputCap);
    } else {
      assert offers + [] == offers;
    }
  }

  /** The capture after the last offer, from the one before it. */
  lemma DrainLast(offers: seq<Offer>, cap: int)
    requires offers != []
    ensures var n := |offers| - 1; Drain(offers, cap) == Append(Drain(offers[..n], cap), n, offers[n], cap)
  {}

  lemma ChunkAt(db: Db, id: RequestId, chunk: Chunk)
    requires Commits(db, AddChunk(id, chunk))
    ensures At(Apply(db, AddChunk(id, chunk)), id) == At(db, id).(chunks := InsertChunk(At(db, id).chunks, chunk))
  {
    ApplyAt(db, AddChunk(id, chunk), id);
  }

  /** With the chunk stored, only the count is missing. */
  lemma InsertTracks(k: Capture, t: Thread, offers: seq<Offer>, cap: int)
    requires t.ExecInsert? && Tracks(k, t, offers, cap)
    ensures var chunks := if t.stored == [] then k.chunks
                          else InsertChunk(k.chunks, Chunk(t.sequence, t.stream, t.stored));
      Capture(chunks, k.bytes + |t.stored|, t.truncated) == Drain(offers, cap)
  {
    DrainLast(offers, cap);
  }

  lemma InsertAdvances(c: Config, s: System, t: Thread, i: Input, id: RequestId, offers: seq<Offer>)
    requires t.ExecInsert? && t.item.request.id == id && i.commits && i.reported && OwnerOk(s, t)
    requires CellOutput(CellIn(s, id), offers, c.outputCap) && Tracks(Captured(CellIn(s, id)), t, offers, c.outputCap)
    requires CellIn(s, id).execution == Some(STARTED)
    ensures var o := ActRun(c, s, t, i); Advances(c, At(Apply(s.db, o.op), id), o.next, id, offers)
  {
    InsertTracks(Captured(CellIn(s, id)), t, offers, c.outputCap);
    if t.stored != [] {
      ChunkAt(s.db, id, Chunk(t.sequence, t.stream, t.stored));
    }
  }

  lemma CountAdvances(c: Config, s: System, t: Thread, i: Input, id: RequestId, offers: seq<Offer>)
    requires t.ExecCount? && t.item.request.id == id && i.commits && IsExecuting(CellIn(s, id))
    requires CellOutput(CellIn(s, id), offers, c.outputCap) && Tracks(Captured(CellIn(s, id)), t, offers, c.outputCap)
    ensures var o := ActRun(c, s, t, i); Advances(c, At(Apply(s.db, o.op), id), o.next, id, offers)
  {
    BytesAt(s.db, id, t.count, t.truncated);
  }

  lemma BytesAt(db: Db, id: RequestId, count: int, truncated: bool)
    requires id in db.requests
    ensures var x, x' := At(db, id), At(Apply(db, AddBytes(id, count, truncated)), id);
      && x'.execution == x.execution && x'.row.Some? && x'.row.value.status == x.row.value.status
      && Captured(x') == Capture(x.chunks, x.row.value.outputBytes + count, truncated)
  {
    ApplyAt(db, AddBytes(id, count, truncated), id);
  }

  lemma FinishAdvances(c: Config, s: System, t: Thread, i: Input, id: RequestId, offers: seq<Offer>)
    requires t.ExecFinish? && t.id == id && IsExecuting(CellIn(s, id)) && CellIn(s, id).execution == Some(STARTED)
    requires CellOutput(CellIn(s, id), offers, c.outputCap) && Tracks(Captured(CellIn(s, id)), t, offers, c.outputCap)
    ensures var o := ActRun(c, s, t, i); Advances(c, At(Apply(s.db, o.op), id), o.next, id, offers)
  {
    ApplyAt(s.db, ActRun(c, s, t, i).op, id);
  }

  lemma OwnerAdvances(c: Config, s: System, t: Thread, i: Input, id: RequestId, offers: seq<Offer>)
    requires OwnerOk(s, t) && Owned(t) == Some(id) && CellIn(s, id).execution == Some(STARTED)
    requires CellOutput(CellIn(s, id), offers, c.outputCap) && Tracks(Captured(CellIn(s, id)), t, offers, c.outputCap)
    requires t.ExecInsert? || t.ExecCount? ==> i.commits && i.reported
    ensures var o := ActRun(c, s, t, i); Advances(c, At(Apply(s.db, o.op), id), o.next, id, offers + Offering(t, i))
  {
    if t.ExecRun? {
      ReadAdvances(c, s, t, i, id, offers);
    } else {
      assert offers + Offering(t, i) == offers;
      match t
      case ExecSpawn(_) => SpawnAdvances(c, s, t, i, id, offers);
      case ExecInsert(_, _, _, _, _) => InsertAdvances(c, s, t, i, id, offers);
      case ExecCount(_, _, _, _) => CountAdvances(c, s, t, i, id, offers);
      case ExecFinish(_, _, _) => FinishAdvances(c, s, t, i, id, offers);
    }
  }

  lemma InstallAdvances(c: Config, s: System, tid: Tid, child: Tid, o: Out, id: RequestId, offers: seq<Offer>)
    requires tid in s.threads && child !in s.threads && OwnersOk(s) && Owned(s.threads[tid]) == Some(id)
    requires Advances(c, At(Apply(s.db, o.op), id), o.next, id, offers)
    ensures OutputOk(c, Install(s, tid, child, o), id, offers)
  {
    var s' := Install(s, tid, child, o);
    forall u <- s'.threads | Owned(s'.threads[u]) == Some(id)
      ensures Tracks(Captured(CellIn(s', id)), s'.threads[u], offers, c.outputCap)
    {
      assert u == tid || u !in s.threads || Owned(s.threads[u]) != Some(id);
    }
  }

  lemma OwnerMove(c: Config, s: System, step: Step, id: RequestId, offers: seq<Offer>)
    requires Inv(c, s) && OutputOk(c, s, id, offers) && Enabled(s, step) && CleanStep(s, step, id)
    requires Owned(s.threads[step.tid]) == Some(id)
    ensures OutputOk(c, MoveThread(c, s, step.tid, step.child, step.input), id, offers + NewOffer(s, step, id))
  {
    var t := s.threads[step.tid];
    assert OwnerOk(s, t) && CellOk(c.hash, id, At(s.db, id));
    OwnerAdvances(c, s, t, step.input, id, offers);
    InstallAdvances(c, s, step.tid, step.child, Act(c, s, t, step.input), id, offers + Offering(t, step.input));
  }

  // ---------- all runs ----------

  lemma NextOutput(c: Config, s: System, step: Step, id: RequestId, offers: seq<Offer>)
    requires Inv(c, s) && OutputOk(c, s, id, offers) && CleanStep(s, step, id)
    ensures OutputOk(c, Next(c, s, step), id, offers + NewOffer(s, step, id))
  {
    assert offers + [] == offers;
    if !Enabled(s, step) {
      IdleStep(c, s, step, id, offers);
    } else {
      MoveIs(c, s, step);
      if Owned(s.threads[step.tid]) != Some(id) {
        ForeignMove(c, s, step, id, offers);
      } else {
        OwnerMove(c, s, step, id, offers);
      }
    }
  }

  lemma {:induction false} RunOutput(c: Config, steps: seq<Step>, id: RequestId)
    requires Clean(c, steps, id)
    ensures OutputOk(c, Run(c, steps), id, OffersOf(c, steps, id))
  {
    if steps == [] {
      assert At(EMPTY_DB, id) == NO_CELL;
    } else {
      var front := steps[..|steps| - 1];
      RunOutput(c, front, id);
      RunOk(c, front);
      NextOutput(c, Run(c, front), steps[|steps| - 1], id, OffersOf(c, front, id));
    }
  }

  lemma PartialIsPrefix(chunks: seq<Chunk>, offers: seq<Offer>, cap: int)
    requires NonEmpty(offers) && Partial(chunks, offers, cap)
    ensures Contents(chunks) <= Offered(offers) && |Contents(chunks)| <= Max(cap, 0)
    ensures forall k :: 0 <= k < |chunks| ==> chunks[k].sequence == k
  {
    DrainKeepsAPrefix(offers, cap);
    if offers != [] {
      var front, last := offers[..|offers| - 1], offers[|offers| - 1];
      DrainKeepsAPrefix(front, cap);
      assert Offered(offers) == Offered(front) + last.data;
    }
  }

  /** In every state of a run without failing appends, mid-append and after deaths too, the
      stored output of a request is a prefix of what its drains read, within the cap, in
      chunks numbered from zero without gaps. */
  lemma StoredOutputIsAPrefix(c: Config, steps: seq<Step>, id: RequestId)
    requires Clean(c, steps, id)
    ensures var chunks := ChunksOf(Run(c, steps).db, id);
      && Contents(chunks) <= Offered(OffersOf(c, steps, id))
      && |Contents(chunks)| <= Max(c.outputCap, 0)
      && forall k :: 0 <= k < |chunks| ==> chunks[k].sequence == k
  {
    RunOutput(c, steps, id);
    PartialIsPrefix(ChunksOf(Run(c, steps).db, id), OffersOf(c, steps, id), c.outputCap);
  }

  /** An execution that ended by its own process has appended every block that was read. */
  lemma FinishedIsDrained(c: Config, steps: seq<Step>, id: RequestId)
    requires Clean(c, steps, id)
    requires id in Run(c, steps).db.executions && Completed(Run(c, steps).db.executions[id])
    ensures id in Run(c, steps).db.requests
    ensures var row := Run(c, steps).db.requests[id];
      && Capture(ChunksOf(Run(c, steps).db, id), row.outputBytes, row.truncated) ==
           Drain(OffersOf(c, steps, id), c.outputCap)
      && NonEmpty(OffersOf(c, steps, id))
  {
    RunOk(c, steps);
    assert CellOk(c.hash, id, CellIn(Run(c, steps), id));
    RunOutput(c, steps, id);
  }

  /** For an execution that ended by its own process, whatever its exit code or signal, the
      account is exact: the flag is set exactly when a block that was read was not stored in
      full, and unless the storage refused a block exactly the first `cap` bytes were kept. */
  lemma FinishedOutputIsExact(c: Config, steps: seq<Step>, id: RequestId)
    requires Clean(c, steps, id)
    requires id in Run(c, steps).db.executions && Completed(Run(c, steps).db.executions[id])
    ensures id in Run(c, steps).db.requests
    ensures var row := Run(c, steps).db.requests[id];
      var stored, offered := Contents(ChunksOf(Run(c, steps).db, id)), Offered(OffersOf(c, steps, id));
      && row.outputBytes == |stored|
      && (row.truncated <==> stored != offered)
      && ((forall o <- OffersOf(c, steps, id) :: o.capacity) ==> |stored| == Min(Max(c.outputCap, 0), |offered|))
  {
    var offers := OffersOf(c, steps, id);
    FinishedIsDrained(c, steps, id);
    DrainKeepsAPrefix(offers, c.outputCap);
    if forall o <- offers :: o.capacity {
      DrainFillsTheCap(offers, c.outputCap);
    }
  }
}
