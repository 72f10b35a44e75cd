/** The tables seen one request at a time. Every operation acts on each request separately,
    so what it keeps can be proved on one request's rows. */
module Cells {
  import opened Model
  import opened Tables

  /** Everything the tables hold about one request. */
  datatype Cell = Cell(
    row: Option<Row>, approval: Option<ApprovalRow>, execution: Option<Execution>, chunks: seq<Chunk>)

  const NO_CELL := Cell(None, None, None, [])

  function At(db: Db, id: RequestId): Cell {
    Cell(
      if id in db.requests then Some(db.requests[id]) else None,
      if id in db.approvals then Some(db.approvals[id]) else None,
      if id in db.executions then Some(db.executions[id]) else None,
      ChunksOf(db, id))
  }

  predicate Decided(c: Cell, d: Decision, consumed: bool) {
    c.approval.Some? && c.approval.value.approval.decision == d && c.approval.value.consumed == consumed
  }

  predicate Succeeding(e: Execution) {
    e.finished && e.exitCode == Some(0)
  }

  /** A failed execution ended otherwise, or startup has yet to finish it. */
  predicate Failing(e: Execution) {
    if e.finished then e.exitCode != Some(0) else e == STARTED
  }

  /** The three tables agree about one request. */
  predicate Agrees(c: Cell)
    requires c.row.Some?
  {
    match c.row.value.status
    case Created => c.approval.None? && c.execution.None?
    case Waiting => c.approval.None? && c.execution.None?
    case Cancelled => c.approval.None? && c.execution.None?
    case Denied => c.execution.None? && Decided(c, Deny, false)
    case Approved => c.execution.None? && Decided(c, Approve, false)
    case Expired => c.execution.None? && (c.approval.None? || Decided(c, Approve, false))
    case PolicyRejected => c.execution.None? && (c.approval.None? || Decided(c, Approve, false))
    case Executing => c.execution == Some(STARTED) && Decided(c, Approve, true)
    case Succeeded => c.execution.Some? && Succeeding(c.execution.value) && Decided(c, Approve, true)
    case Failed => c.execution.Some? && Failing(c.execution.value) && Decided(c, Approve, true)
    case Queued => false
    case Synced => false
  }

  ghost predicate CellOk(h: Request -> string, id: RequestId, c: Cell) {
    if c.row.None? then c == NO_CELL else
    && c.row.value.request.id == id
    && c.row.value.hash == h(c.row.value.request)
    && (c.approval.Some? ==>
          && WellFormed(c.approval.value.approval)
          && c.approval.value.approval.requestId == id && c.approval.value.approval.requestHash == c.row.value.hash)
    && (c.chunks != [] ==> c.execution.Some?)
    && Increasing(c.chunks)
    && Agrees(c)
    && (c.row.value.request.denied ==> c.row.value.status in {Created, PolicyRejected, Cancelled} && c.approval.None?)
  }

  predicate Live(c: Cell) {
    c.row.Some? && !Terminal(c.row.value.status)
  }

  /** A request that pruning may remove: terminal, and never decided. */
  predicate PrunableCell(c: Cell) {
    c.row.Some? && Terminal(c.row.value.status) && c.approval.None?
  }

  /** The operations that the service issues, as opposed to all that the tables allow. */
  ghost predicate OpPre(h: Request -> string, db: Db, op: Op) {
    match op
    case Insert(r, hash) => hash == h(r)
    case Transition(id, next, expected) =>
      || (expected == Some(Created) && next in {PolicyRejected, Waiting, Cancelled}
          && (next == Waiting && id in db.requests ==> !db.requests[id].request.denied))
      || (expected == Some(Waiting) && next in {PolicyRejected, Cancelled})
      || (expected == Some(Approved) && next in {PolicyRejected, Expired})
    case Accept(a) => a.requestId in db.requests ==> a.requestHash == db.requests[a.requestId].hash
    case Begin(_, from) => from == Approved
    case AddChunk(id, chunk) =>
      && id in db.requests && db.requests[id].status == Executing
      && forall c <- ChunksOf(db, id) :: c.sequence < chunk.sequence
    case Delete(ids) => forall id <- ids :: id in db.requests ==> PrunableCell(At(db, id))
    case RecoverExecutions => forall id <- db.requests :: db.requests[id].status != Executing
    case _ => true
  }

  function Restated(c: Cell, f: Row -> Status): Cell {
    if c.row.None? then c else c.(row := Some(c.row.value.(status := f(c.row.value))))
  }

  function Moved(c: Cell, next: Status): Cell {
    Restated(c, _ => next)
  }

  /** What a committed operation does to the rows of request `id`. */
  function Local(c: Cell, id: RequestId, op: Op, localOnly: bool): Cell {
    match op
    case Nop => c
    case Insert(r, hash) => if r.id == id then c.(row := Some(Row(r, hash, Created, 0, false))) else c
    case Transition(i, next, _) => if i == id then Moved(c, next) else c
    case Accept(a) =>
      if a.requestId == id then Moved(c, DecisionStatus(a.decision)).(approval := Some(ApprovalRow(a, false))) else c
    case Begin(i, from) =>
      if i == id then
        Moved(c, Executing).(
          execution := Some(STARTED),
          approval := if from == Approved && c.approval.Some? then Some(c.approval.value.(consumed := true))
                      else c.approval)
      else c
    case Finish(i, code, signal) =>
      if i == id then
        Moved(c, Outcome(code)).(execution := if c.execution.Some? then Some(Execution(true, code, signal)) else None)
      else c
    case Expire(now) => Restated(c, row => ExpiredStatus(row, now))
    case RecoverStatuses => Restated(c, RecoveredStatus)
    case RecoverExecutions =>
      c.(execution := if c.execution.Some? then Some(RecoveredExecution(c.execution.value)) else None)
    case Migrate => if localOnly then c else Restated(c, MigratedStatus)
    case AddChunk(i, chunk) => if i == id then c.(chunks := InsertChunk(c.chunks, chunk)) else c
    case AddBytes(i, n, t) =>
      if i == id && c.row.Some? then
        c.(row := Some(c.row.value.(outputBytes := c.row.value.outputBytes + n, truncated := t)))
      else c
    case Delete(ids) => if id in ids then c.(row := None, execution := None, chunks := []) else c
  }

  lemma ApplyDecisionAt(db: Db, op: Op, id: RequestId)
    requires op.Accept? || op.Begin? || op.Finish? || op.AddChunk?
    ensures At(Apply(db, op), id) == if Commits(db, op) then Local(At(db, id), id, op, db.localOnly) else At(db, id)
  {}

  lemma ApplyAt(db: Db, op: Op, id: RequestId)
    ensures At(Apply(db, op), id) == if Commits(db, op) then Local(At(db, id), id, op, db.localOnly) else At(db, id)
  {
    if op.Accept? || op.Begin? || op.Finish? || op.AddChunk? {
      ApplyDecisionAt(db, op, id);
    }
  }

  /** The guard of a committed operation, on the rows of the request it names. */
  ghost predicate Guard(h: Request -> string, c: Cell, id: RequestId, op: Op) {
    match op
    case Insert(r, hash) => r.id == id ==> c.row.None? && hash == h(r)
    case Transition(i, next, expected) =>
      i == id ==>
        && c.row.Some? && expected.Some? && c.row.value.status == expected.value
        && Edge(c.row.value.status, next)
        && (|| (expected.value == Created && next in {PolicyRejected, Waiting, Cancelled}
                && (next == Waiting ==> !c.row.value.request.denied))
            || (expected.value == Waiting && next in {PolicyRejected, Cancelled})
            || (expected.value == Approved && next in {PolicyRejected, Expired}))
    case Accept(a) =>
      a.requestId == id ==>
        && c.row.Some? && c.row.value.status == Waiting && c.approval.None?
        && WellFormed(a) && a.requestHash == c.row.value.hash
    case Begin(i, from) =>
      i == id ==>
        && from == Approved && c.row.Some? && c.row.value.status == Approved && c.execution.None?
        && c.approval.Some? && !c.approval.value.consumed
    case Finish(i, _, _) => i == id ==> c.row.Some? && c.row.value.status == Executing
    case AddChunk(i, chunk) =>
      i == id ==> c.row.Some? && c.row.value.status == Executing && forall x <- c.chunks :: x.sequence < chunk.sequence
    case Delete(ids) => id in ids && c.row.Some? ==> PrunableCell(c)
    case RecoverExecutions => c.row.Some? ==> c.row.value.status != Executing
    case _ => true
  }

  lemma CommitGuards(h: Request -> string, db: Db, op: Op, id: RequestId)
    requires Commits(db, op) && OpPre(h, db, op)
    ensures Guard(h, At(db, id), id, op)
  {}

  lemma LocalKeeps(h: Request -> string, c: Cell, id: RequestId, op: Op, localOnly: bool)
    requires CellOk(h, id, c) && Guard(h, c, id, op)
    ensures CellOk(h, id, Local(c, id, op, localOnly))
  {
    if op.AddChunk? && op.id == id {
      InsertChunkAppends(c.chunks, op.chunk);
    }
  }

  /** What one operation may do to one request. */
  ghost predicate CellStep(c: Cell, c': Cell) {
    && (c.row.Some? && c'.row.None? ==> PrunableCell(c))
    && (c.row.Some? && c'.row.Some? ==>
          && c'.row.value.request == c.row.value.request
          && c'.row.value.hash == c.row.value.hash
          && (c'.row.value.status == c.row.value.status || Edge(c.row.value.status, c'.row.value.status)))
    && (c.row.None? && c'.row.Some? ==> c'.row.value.status == Created)
    && (c.approval.Some? ==>
          && c'.approval.Some? && c'.approval.value.approval == c.approval.value.approval
          && (c.approval.value.consumed ==> c'.approval.value.consumed))
    && (c.approval.None? && c'.approval.Some? ==> c.row.Some? && c.row.value.status == Waiting)
    && (c.execution.Some? ==>
          c'.execution.Some? && (c.execution.value.finished ==> c'.execution == c.execution))
    && c.chunks <= c'.chunks
    && (c.chunks != c'.chunks ==> c.row.Some? && c.row.value.status == Executing && c'.row == c.row)
  }

  lemma LocalSteps(h: Request -> string, c: Cell, id: RequestId, op: Op, localOnly: bool)
    requires CellOk(h, id, c) && Guard(h, c, id, op)
    ensures CellStep(c, Local(c, id, op, localOnly))
  {
    if op.AddChunk? && op.id == id {
      InsertChunkAppends(c.chunks, op.chunk);
    }
  }

  ghost predicate DbOk(h: Request -> string, db: Db) {
    && (forall id :: CellOk(h, id, At(db, id)))
    && (db.localOnly || db.requests == map[])
  }

  ghost predicate DbStep(db: Db, db': Db) {
    forall id :: CellStep(At(db, id), At(db', id))
  }

  /** Every operation the service issues keeps the tables in agreement and moves each
      request along the transition table. */
  lemma OpKeeps(h: Request -> string, db: Db, op: Op)
    requires DbOk(h, db) && OpPre(h, db, op) && (op.Insert? ==> db.localOnly)
    ensures DbOk(h, Apply(db, op)) && DbStep(db, Apply(db, op))
  {
    var db' := Apply(db, op);
    forall id ensures CellOk(h, id, At(db', id)) && CellStep(At(db, id), At(db', id)) {
      ApplyAt(db, op, id);
      if Commits(db, op) {
        CommitGuards(h, db, op, id);
        LocalKeeps(h, At(db, id), id, op, db.localOnly);
        LocalSteps(h, At(db, id), id, op, db.localOnly);
      }
    }
    OpKeepsMarker(db, op);
  }

  lemma OpKeepsMarker(db: Db, op: Op)
    requires db.localOnly || db.requests == map[]
    requires op.Insert? ==> db.localOnly
    ensures Apply(db, op).localOnly || Apply(db, op).requests == map[]
    ensures db.localOnly ==> Apply(db, op).localOnly
  {
    var db' := Apply(db, op);
    if !db.localOnly {
      forall id ensures id !in db'.requests {
        ApplyAt(db, op, id);
        assert At(db', id).row.None? <==> id !in db'.requests;
      }
      assert db'.requests == map[];
    }
  }
}
