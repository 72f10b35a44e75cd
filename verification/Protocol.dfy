/** The daemon as interleaved steps. Every call, goroutine and maintenance pass is a thread
    that touches the database in single statements or transactions; any thread may move at
    any time, the process may die at any time, and it restarts statement by statement.
    Clock readings and the outcome of every check outside the database are step inputs. */
module Protocol {
  import opened Model
  import opened Tables

  datatype Config = Config(hash: Request -> string, maxPendingPerUid: int, maxPendingTotal: int, outputCap: int)

  type Tid = nat

  /** A stored request as one SELECT returned it. */
  datatype Item = Item(request: Request, hash: string, status: Status)

  datatype Record = Record(
    requestId: RequestId, hash: string, status: Status, decision: Option<Decision>,
    approvalId: string, decidedBy: string)

  datatype Thread =
    | SubmitCount(request: Request)
    | SubmitInsert(request: Request)
    | SubmitMove(id: RequestId, deny: bool)
    | SubmitUnlock
    | DecideGet(id: RequestId, echo: string, decision: Decision)
    | DecideCorrupt(id: RequestId)
    | DecideAccept(item: Item, approval: Approval)
    | DecideExisting(item: Item, decision: Decision, launch: bool)
    | CancelMove(id: RequestId, from: Status, uid: nat)
    | PruneDelete(ids: set<RequestId>)
    | InspectApproval(item: Item)
    | ExecGuard(id: RequestId)
    | ExecGet(id: RequestId)
    | ExecApproval(item: Item)
    | ExecChecks(item: Item)
    | ExecReject(id: RequestId, next: Status)
    | ExecBegin(item: Item)
    | ExecSpawn(item: Item)
    | ExecRun(item: Item, sequence: nat)
    | ExecInsert(item: Item, sequence: nat, stored: Bytes, stream: string, truncated: bool)
    | ExecCount(item: Item, sequence: nat, count: int, truncated: bool)
    | ExecFinish(id: RequestId, exitCode: Option<int>, signal: Option<string>)
    | ExecDone(id: RequestId)

  /** What happened, in order: the history that the safety claims talk about. */
  datatype Event =
    | Stored(id: RequestId, request: Request, hash: string)
    | Called(uid: nat, id: RequestId, echo: string, decision: Decision)
    | CancelCalled(uid: nat, id: RequestId)
    | Answered(response: Response)
    | Inspected(record: Record)
    | Spawned(id: RequestId, executable: string, argv: seq<string>, cwd: string)

  /** Where the process is between its death and serving again. */
  datatype Phase =
    | Down
    | StatusesRecovered
    | ExecutionsRecovered
    | Opened
    | StartupExpired(now: int)
    | Relaunching(ids: set<RequestId>)
    | Serving

  datatype System = System(
    db: Db,
    used: set<RequestId>,
    threads: map<Tid, Thread>,
    executing: set<RequestId>,
    submitLock: Option<Tid>,
    phase: Phase,
    log: seq<Event>)

  const INITIAL := System(EMPTY_DB, {}, map[], {}, None, Down, [])

  /** Everything a thread step may learn from outside the database. `commits` is false when
      SQLite fails the transaction, `reported` when a committed one still returns an error. */
  datatype Input = Input(
    now: int, pass: bool, hashFails: bool, commits: bool, reported: bool,
    approvalId: string, displayName: Option<string>, reason: string,
    data: Bytes, stream: string, capacity: bool, ends: bool,
    exitCode: Option<int>, signal: Option<string>)

  /** The outcome of one thread step: its database operation, what the thread becomes, the
      request it launches `execute` for, the new in-memory guard set, and the history it leaves. */
  datatype Out = Out(
    op: Op, next: Option<Thread>, launch: Option<RequestId>, executing: set<RequestId>, events: seq<Event>)

  function Get(db: Db, id: RequestId): Option<Item> {
    if id in db.requests then
      Some(Item(db.requests[id].request, db.requests[id].hash, db.requests[id].status))
    else None
  }

  datatype Existing = NoDecision | Conflict | Found(response: Response)

  /** The stored decision as an answer to a repeated or overtaken call. */
  function ExistingDecision(db: Db, item: Item, decision: Decision): Existing {
    if item.request.id !in db.approvals then NoDecision else
    var a := db.approvals[item.request.id].approval;
    if a.requestId != item.request.id || a.requestHash != item.hash || a.decision != decision then Conflict
    else Found(Response(item.request.id, a.approvalId, DecisionStatus(decision), Actor(a)))
  }

  function RecordOf(db: Db, item: Item): Record {
    if item.request.id in db.approvals then
      var a := db.approvals[item.request.id].approval;
      Record(item.request.id, item.hash, item.status, Some(a.decision), a.approvalId, Actor(a))
    else BlankRecord(item)
  }

  /** The record of a request whose approval is absent or could not be read. */
  function BlankRecord(item: Item): Record {
    Record(item.request.id, item.hash, item.status, None, "", "")
  }

  /** An operation that SQLite may still fail as a whole. */
  function Try(op: Op, i: Input): Op {
    if i.commits then op else Nop
  }

  predicate Succeeds(db: Db, op: Op, i: Input) {
    i.commits && i.reported && Commits(db, op)
  }

  predicate IsSubmit(t: Thread) {
    t.SubmitCount? || t.SubmitInsert? || t.SubmitMove? || t.SubmitUnlock?
  }

  predicate IsReview(t: Thread) {
    || t.DecideGet? || t.DecideCorrupt? || t.DecideAccept? || t.DecideExisting?
    || t.CancelMove? || t.PruneDelete? || t.InspectApproval?
  }

  predicate IsPrepare(t: Thread) {
    t.ExecGuard? || t.ExecGet? || t.ExecApproval? || t.ExecChecks? || t.ExecReject? || t.ExecBegin?
  }

  function ActSubmit(c: Config, s: System, t: Thread, i: Input): Out
    requires IsSubmit(t)
  {
    match t
    case SubmitCount(r) =>
      Out(Nop,
          Some(if |OutstandingOf(s.db, r.uid)| >= c.maxPendingPerUid || |Outstanding(s.db)| >= c.maxPendingTotal
               then SubmitUnlock else SubmitInsert(r)),
          None, s.executing, [])
    case SubmitInsert(r) =>
      var op := Insert(r, c.hash(r));
      if !i.capacity || !i.commits || r.id in s.used then Out(Nop, Some(SubmitUnlock), None, s.executing, [])
      else Out(op, Some(if i.reported then SubmitMove(r.id, r.denied) else SubmitUnlock), None, s.executing,
               [Stored(r.id, r, c.hash(r))])
    case SubmitMove(id, deny) =>
      Out(Try(Transition(id, if deny then PolicyRejected else Waiting, Some(Created)), i),
          Some(SubmitUnlock), None, s.executing, [])
    case SubmitUnlock => Out(Nop, None, None, s.executing, [])
  }

  function ActReview(c: Config, s: System, t: Thread, i: Input): Out
    requires IsReview(t)
  {
    match t
    case DecideGet(id, echo, decision) =>
      var item := Get(s.db, id);
      if !i.pass || item.None? || (decision == Approve && echo != item.value.hash) then
        Out(Nop, None, None, s.executing, [])
      else if item.value.status != Waiting then
        Out(Nop, Some(DecideExisting(item.value, decision, decision == Approve && item.value.status == Approved)),
            None, s.executing, [])
      else if i.hashFails || c.hash(item.value.request) != item.value.hash then
        Out(Nop, Some(DecideCorrupt(id)), None, s.executing, [])
      else
        Out(Nop,
            Some(DecideAccept(item.value, Approval(1, i.approvalId, item.value.request.id, item.value.hash,
                                                   decision, "uid:0", i.displayName, i.reason))),
            None, s.executing, [])
    case DecideCorrupt(id) =>
      Out(Try(Transition(id, PolicyRejected, Some(Waiting)), i), None, None, s.executing, [])
    case DecideAccept(item, a) =>
      if Succeeds(s.db, Accept(a), i) then
        Out(Accept(a), None, if a.decision == Approve then Some(item.request.id) else None, s.executing,
            [Answered(Response(item.request.id, a.approvalId, DecisionStatus(a.decision), Actor(a)))])
      else
        Out(Try(Accept(a), i), Some(DecideExisting(item, a.decision, false)), None, s.executing, [])
    case DecideExisting(item, decision, launch) =>
      var e := ExistingDecision(s.db, item, decision);
      if !i.pass || !e.Found? then Out(Nop, None, None, s.executing, [])
      else Out(Nop, None, if launch then Some(item.request.id) else None, s.executing, [Answered(e.response)])
    case CancelMove(id, from, _) =>
      Out(Try(Transition(id, Cancelled, Some(from)), i), None, None, s.executing, [])
    case PruneDelete(ids) => Out(Try(Delete(ids), i), None, None, s.executing, [])
    case InspectApproval(item) =>
      Out(Nop, None, None, s.executing, [Inspected(if i.pass then RecordOf(s.db, item) else BlankRecord(item))])
  }

  /** `execute` up to and including BeginExecution. */
  function ActPrepare(c: Config, s: System, t: Thread, i: Input): Out
    requires IsPrepare(t)
  {
    match t
    case ExecGuard(id) =>
      if id in s.executing then Out(Nop, None, None, s.executing, [])
      else Out(Nop, Some(ExecGet(id)), None, s.executing + {id}, [])
    case ExecGet(id) =>
      var item := Get(s.db, id);
      Out(Nop,
          Some(if item.None? || !i.pass then ExecDone(id)
               else if item.value.request.expiresAt <= i.now then ExecReject(id, Expired)
               else if i.hashFails || c.hash(item.value.request) != item.value.hash then ExecReject(id, PolicyRejected)
               else ExecApproval(item.value)),
          None, s.executing, [])
    case ExecApproval(item) =>
      var id := item.request.id;
      Out(Nop,
          Some(if !i.pass || id !in s.db.approvals || s.db.approvals[id].approval.decision != Approve
                  || s.db.approvals[id].approval.requestId != id || s.db.approvals[id].approval.requestHash != item.hash
               then ExecReject(id, PolicyRejected) else ExecChecks(item)),
          None, s.executing, [])
    case ExecChecks(item) =>
      Out(Nop, Some(if i.pass then ExecBegin(item) else ExecReject(item.request.id, PolicyRejected)),
          None, s.executing, [])
    case ExecReject(id, next) =>
      Out(Try(Transition(id, next, Some(Approved)), i), Some(ExecDone(id)), None, s.executing, [])
    case ExecBegin(item) =>
      var op := Begin(item.request.id, Approved);
      Out(Try(op, i), Some(if Succeeds(s.db, op, i) then ExecSpawn(item) else ExecDone(item.request.id)),
          None, s.executing, [])
  }

  /** `execute` after BeginExecution committed: one spawn, the output, one finish. */
  function ActRun(c: Config, s: System, t: Thread, i: Input): Out
    requires !IsSubmit(t) && !IsReview(t) && !IsPrepare(t)
  {
    match t
    case ExecSpawn(item) =>
      if !i.pass then Out(Nop, Some(ExecFinish(item.request.id, Some(127), None)), None, s.executing, [])
      else Out(Nop, Some(ExecRun(item, 0)), None, s.executing,
               [Spawned(item.request.id, item.request.executable, item.request.argv, item.request.cwd)])
    case ExecRun(item, sequence) =>
      var id := item.request.id;
      if i.ends then Out(Nop, Some(ExecFinish(id, i.exitCode, i.signal)), None, s.executing, [])
      else if id !in s.db.requests || s.db.requests[id].truncated || i.data == [] then
        Out(Nop, Some(ExecRun(item, if i.data == [] then sequence else sequence + 1)), None, s.executing, [])
      else
        var stored := Keep(i.data, c.outputCap - s.db.requests[id].outputBytes, i.capacity);
        Out(Nop, Some(ExecInsert(item, sequence, stored, i.stream, |stored| < |i.data|)), None, s.executing, [])
    case ExecInsert(item, sequence, stored, stream, truncated) =>
      Out(if stored == [] then Nop else Try(AddChunk(item.request.id, Chunk(sequence, stream, stored)), i),
          Some(if stored == [] || (i.commits && i.reported) then ExecCount(item, sequence, |stored|, truncated)
               else ExecRun(item, sequence + 1)),
          None, s.executing, [])
    case ExecCount(item, sequence, count, truncated) =>
      Out(Try(AddBytes(item.request.id, count, truncated), i), Some(ExecRun(item, sequence + 1)), None, s.executing, [])
    case ExecFinish(id, code, signal) =>
      Out(Try(Finish(id, code, signal), i), Some(ExecDone(id)), None, s.executing, [])
    case ExecDone(id) => Out(Nop, None, None, s.executing - {id}, [])
  }

  function Act(c: Config, s: System, t: Thread, i: Input): Out {
    if IsSubmit(t) then ActSubmit(c, s, t, i)
    else if IsReview(t) then ActReview(c, s, t, i)
    else if IsPrepare(t) then ActPrepare(c, s, t, i)
    else ActRun(c, s, t, i)
  }

  /** `SkipRelaunch` is a startup whose expiry or query of APPROVED requests fails: the daemon
      serves without relaunching. */
  datatype Step =
    | CallSubmit(tid: Tid, request: Request)
    | CallDecide(tid: Tid, uid: nat, id: RequestId, echo: string, decision: Decision)
    | CallCancel(tid: Tid, uid: nat, id: RequestId)
    | CallInspect(tid: Tid, uid: nat, id: RequestId)
    | SelectPrunable(tid: Tid, ids: set<RequestId>)
    | ExpireNow(now: int)
    | Move(tid: Tid, child: Tid, input: Input)
    | Die
    | Restart(now: int)
    | Relaunch(tid: Tid, id: RequestId)
    | SkipRelaunch

  predicate Running(p: Phase) {
    p.Relaunching? || p.Serving?
  }

  function ApprovedIds(db: Db): set<RequestId> {
    set id <- db.requests | db.requests[id].status == Approved
  }

  /** One step of the startup sequence. */
  function RestartStep(s: System, now: int): System {
    match s.phase
    case Down => s.(db := Apply(s.db, RecoverStatuses), phase := StatusesRecovered)
    case StatusesRecovered => s.(db := Apply(s.db, RecoverExecutions), phase := ExecutionsRecovered)
    case ExecutionsRecovered => s.(db := Apply(s.db, Migrate), phase := Opened)
    case Opened => s.(db := Apply(s.db, Expire(now)), phase := StartupExpired(now))
    case StartupExpired(_) => s.(phase := Relaunching(ApprovedIds(s.db)))
    case Relaunching(ids) => if ids == {} then s.(phase := Serving) else s
    case Serving => s
  }

  function AddThread(s: System, tid: Tid, t: Thread): System {
    s.(threads := s.threads[tid := t])
  }

  /** The state after thread `tid` took a step with outcome `o`. */
  function Install(s: System, tid: Tid, child: Tid, o: Out): System
    requires tid in s.threads
  {
    var kept := if o.next.Some? then s.threads[tid := o.next.value] else s.threads - {tid};
    System(
      Apply(s.db, o.op),
      if o.op.Insert? then s.used + {o.op.request.id} else s.used,
      if o.launch.Some? then kept[child := ExecGuard(o.launch.value)] else kept,
      o.executing,
      if s.threads[tid].SubmitUnlock? then None else s.submitLock,
      s.phase,
      s.log + o.events)
  }

  function MoveThread(c: Config, s: System, tid: Tid, child: Tid, i: Input): System
    requires tid in s.threads
  {
    Install(s, tid, child, Act(c, s, s.threads[tid], i))
  }

  /** One step of the whole system; a step that is not enabled changes nothing. */
  function Next(c: Config, s: System, step: Step): System {
    match step
    case Die => System(s.db, s.used, map[], {}, None, Down, s.log)
    case Restart(now) => RestartStep(s, now)
    case SkipRelaunch => if s.phase.Opened? || s.phase.StartupExpired? then s.(phase := Serving) else s
    case Relaunch(tid, id) =>
      if s.phase.Relaunching? && id in s.phase.ids && tid !in s.threads then
        AddThread(s, tid, ExecGuard(id)).(phase := Relaunching(s.phase.ids - {id}))
      else s
    case Move(tid, child, i) =>
      if Running(s.phase) && tid in s.threads && child !in s.threads then MoveThread(c, s, tid, child, i) else s
    case ExpireNow(now) => if s.phase.Serving? then s.(db := Apply(s.db, Expire(now))) else s
    case CallSubmit(tid, r) =>
      if s.phase.Serving? && tid !in s.threads && s.submitLock.None? then
        AddThread(s, tid, SubmitCount(r)).(submitLock := Some(tid))
      else s
    case CallDecide(tid, uid, id, echo, decision) =>
      if s.phase.Serving? && tid !in s.threads then
        var called := s.(log := s.log + [Called(uid, id, echo, decision)]);
        if uid == 0 then AddThread(called, tid, DecideGet(id, echo, decision)) else called
      else s
    case CallCancel(tid, uid, id) =>
      if s.phase.Serving? && tid !in s.threads then
        var called := s.(log := s.log + [CancelCalled(uid, id)]);
        if id in s.db.requests && (uid == 0 || uid == s.db.requests[id].request.uid)
           && s.db.requests[id].status in {Created, Waiting}
        then AddThread(called, tid, CancelMove(id, s.db.requests[id].status, uid)) else called
      else s
    case CallInspect(tid, uid, id) =>
      if s.phase.Serving? && tid !in s.threads && uid == 0 && Get(s.db, id).Some? then
        AddThread(s, tid, InspectApproval(Get(s.db, id).value))
      else s
    case SelectPrunable(tid, ids) =>
      if s.phase.Serving? && tid !in s.threads && (forall id <- ids :: Prunable(s.db, id)) then
        AddThread(s, tid, PruneDelete(ids))
      else s
  }

  /** The state after a run from the empty store. */
  function Run(c: Config, steps: seq<Step>): System {
    if steps == [] then INITIAL
    else Next(c, Run(c, steps[..|steps| - 1]), steps[|steps| - 1])
  }
}
