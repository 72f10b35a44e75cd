/** The database as a value: its tables, and every statement or transaction as one atomic
    step on them. A step that does not commit leaves the tables alone. */
module Tables {
  import opened Model

  datatype Row = Row(request: Request, hash: string, status: Status, outputBytes: int, truncated: bool)

  datatype ApprovalRow = ApprovalRow(approval: Approval, consumed: bool)

  datatype Execution = Execution(finished: bool, exitCode: Option<int>, signal: Option<string>)

  const STARTED := Execution(false, None, None)

  type Bytes = seq<bv8>

  datatype Chunk = Chunk(sequence: nat, stream: string, data: Bytes)

  /** `approvals` is keyed by its UNIQUE request_id; its primary key is inside the row.
      `chunks[id]` lists the rows of one request in sequence order. `localOnly` is the
      migration marker. */
  datatype Db = Db(
    requests: map<RequestId, Row>,
    approvals: map<RequestId, ApprovalRow>,
    executions: map<RequestId, Execution>,
    chunks: map<RequestId, seq<Chunk>>,
    localOnly: bool)

  const EMPTY_DB := Db(map[], map[], map[], map[], false)

  function ChunksOf(db: Db, id: RequestId): seq<Chunk> {
    if id in db.chunks then db.chunks[id] else []
  }

  datatype Op =
    | Nop
    | Insert(request: Request, hash: string)
    | Transition(id: RequestId, next: Status, expected: Option<Status>)
    | Accept(approval: Approval)
    | Begin(id: RequestId, from: Status)
    | Finish(id: RequestId, exitCode: Option<int>, signal: Option<string>)
    | Expire(now: int)
    | RecoverStatuses
    | RecoverExecutions
    | Migrate
    | AddChunk(id: RequestId, chunk: Chunk)
    | AddBytes(id: RequestId, count: int, truncated: bool)
    | Delete(ids: set<RequestId>)

  predicate WellFormed(a: Approval) {
    a.version == 1 && a.approvalId != "" && a.requestId != "" && a.requestHash != "" && a.subject != ""
  }

  predicate CanTransition(db: Db, id: RequestId, next: Status, expected: Option<Status>) {
    && id in db.requests
    && (expected.Some? ==> db.requests[id].status == expected.value)
    && Edge(db.requests[id].status, next)
  }

  /** When the statement or transaction goes through: primary keys, uniqueness, foreign
      keys, triggers and the code's own checks. */
  predicate Commits(db: Db, op: Op) {
    match op
    case Insert(r, _) => r.id !in db.requests
    case Transition(id, next, expected) => CanTransition(db, id, next, expected)
    case Accept(a) =>
      && WellFormed(a)
      && (forall id <- db.approvals :: db.approvals[id].approval.approvalId != a.approvalId)
      && a.requestId !in db.approvals
      && CanTransition(db, a.requestId, DecisionStatus(a.decision), Some(Waiting))
    case Begin(id, from) =>
      && CanTransition(db, id, Executing, Some(from))
      && id !in db.executions
      && (from == Approved ==> id in db.approvals && !db.approvals[id].consumed)
    case Finish(id, code, _) => CanTransition(db, id, Outcome(code), Some(Executing))
    case AddChunk(id, chunk) =>
      id in db.requests && forall c <- ChunksOf(db, id) :: c.sequence != chunk.sequence
    case AddBytes(id, _, _) => id in db.requests
    case Delete(ids) => Unreferenced(db, ids)
    case _ => true
  }

  function Outcome(exitCode: Option<int>): Status {
    if exitCode == Some(0) then Succeeded else Failed
  }

  function SetStatus(db: Db, id: RequestId, next: Status): Db
    requires id in db.requests
  {
    db.(requests := db.requests[id := db.requests[id].(status := next)])
  }

  /** A bulk UPDATE of the status column. */
  function Restatus(db: Db, f: Row -> Status): Db {
    db.(requests := map id <- db.requests :: db.requests[id].(status := f(db.requests[id])))
  }

  function ExpiredStatus(row: Row, now: int): Status {
    if row.status in {Queued, Synced, Waiting, Approved} && row.request.expiresAt <= now
    then Expired else row.status
  }

  function RecoveredStatus(row: Row): Status {
    if row.status == Executing then Failed else row.status
  }

  function MigratedStatus(row: Row): Status {
    if row.status in {Queued, Synced, Waiting, Approved} then PolicyRejected else row.status
  }

  const RESTART_SIGNAL := "DAEMON_RESTART"

  /** Ended by its own process, and not by a restart of the daemon. */
  predicate Completed(e: Execution) {
    e.finished && (e.exitCode.Some? || e.signal != Some(RESTART_SIGNAL))
  }

  function RecoveredExecution(e: Execution): Execution {
    if e.finished then e else e.(finished := true, signal := Some(RESTART_SIGNAL))
  }

  /** The chunk table's order is by sequence number, wherever the row is inserted. */
  function InsertChunk(chunks: seq<Chunk>, chunk: Chunk): seq<Chunk> {
    if chunks == [] || chunk.sequence < chunks[0].sequence then [chunk] + chunks
    else [chunks[0]] + InsertChunk(chunks[1..], chunk)
  }

  /** The part of an offered block that is stored under the cap. */
  function Keep(data: Bytes, remaining: int, capacity: bool): Bytes {
    if !capacity then []
    else if remaining <= 0 then []
    else if |data| > remaining then data[..remaining]
    else data
  }

  /** No approval refers to a row that is to be deleted. */
  predicate Unreferenced(db: Db, ids: set<RequestId>) {
    forall id <- ids :: id in db.requests ==> id !in db.approvals
  }

  function Without(db: Db, ids: set<RequestId>): Db {
    db.(chunks := db.chunks - ids, executions := db.executions - ids, requests := db.requests - ids)
  }

  predicate Increasing(chunks: seq<Chunk>) {
    forall i, j :: 0 <= i < j < |chunks| ==> chunks[i].sequence < chunks[j].sequence
  }

  function Apply(db: Db, op: Op): Db {
    if !Commits(db, op) then db else
    match op
    case Nop => db
    case Insert(r, hash) => db.(requests := db.requests[r.id := Row(r, hash, Created, 0, false)])
    case Transition(id, next, _) => SetStatus(db, id, next)
    case Accept(a) =>
      SetStatus(db, a.requestId, DecisionStatus(a.decision))
      .(approvals := db.approvals[a.requestId := ApprovalRow(a, false)])
    case Begin(id, from) =>
      SetStatus(db, id, Executing).(
        executions := db.executions[id := STARTED],
        approvals := if from == Approved then db.approvals[id := db.approvals[id].(consumed := true)] else db.approvals)
    case Finish(id, code, signal) =>
      SetStatus(db, id, Outcome(code)).(
        executions := if id in db.executions then db.executions[id := Execution(true, code, signal)] else db.executions)
    case Expire(now) => Restatus(db, row => ExpiredStatus(row, now))
    case RecoverStatuses => Restatus(db, RecoveredStatus)
    case RecoverExecutions =>
      db.(executions := map id <- db.executions :: RecoveredExecution(db.executions[id]))
    case Migrate => if db.localOnly then db else Restatus(db, MigratedStatus).(localOnly := true)
    case AddChunk(id, chunk) => db.(chunks := db.chunks[id := InsertChunk(ChunksOf(db, id), chunk)])
    case AddBytes(id, n, truncated) =>
      var row := db.requests[id];
      db.(requests := db.requests[id := row.(outputBytes := row.outputBytes + n, truncated := truncated)])
    case Delete(ids) => Without(db, ids)
  }

  /** The requests that retention may remove. */
  predicate Prunable(db: Db, id: RequestId) {
    id in db.requests && Terminal(db.requests[id].status) && id !in db.approvals
  }

  function Outstanding(db: Db): set<RequestId> {
    set id <- db.requests | !Terminal(db.requests[id].status)
  }

  function OutstandingOf(db: Db, uid: nat): set<RequestId> {
    set id <- db.requests | !Terminal(db.requests[id].status) && db.requests[id].request.uid == uid
  }

  /** An appended chunk goes last when its number is above all the others. */
  lemma {:induction false} InsertChunkAppends(chunks: seq<Chunk>, chunk: Chunk)
    requires forall c <- chunks :: c.sequence < chunk.sequence
    ensures InsertChunk(chunks, chunk) == chunks + [chunk]
  {
    if chunks != [] {
      InsertChunkAppends(chunks[1..], chunk);
      assert chunks == [chunks[0]] + chunks[1..];
    }
  }

  lemma {:induction false} InsertChunkAdds(chunks: seq<Chunk>, chunk: Chunk)
    ensures multiset(InsertChunk(chunks, chunk)) == multiset(chunks) + multiset{chunk}
  {
    if chunks != [] && chunk.sequence >= chunks[0].sequence {
      InsertChunkAdds(chunks[1..], chunk);
      assert chunks == [chunks[0]] + chunks[1..];
    }
  }

  lemma IncreasingGrows(first: Chunk, rest: seq<Chunk>)
    requires Increasing(rest) && forall c <- rest :: first.sequence < c.sequence
    ensures Increasing([first] + rest)
  {}

  /** Wherever its number falls, a new chunk joins the others in the order of the numbers. */
  lemma {:induction false} InsertChunkOrders(chunks: seq<Chunk>, chunk: Chunk)
    requires Increasing(chunks) && forall c <- chunks :: c.sequence != chunk.sequence
    ensures Increasing(InsertChunk(chunks, chunk))
    ensures multiset(InsertChunk(chunks, chunk)) == multiset(chunks) + multiset{chunk}
  {
    InsertChunkAdds(chunks, chunk);
    if chunks == [] || chunk.sequence < chunks[0].sequence {
      IncreasingGrows(chunk, chunks);
    } else {
      var rest := InsertChunk(chunks[1..], chunk);
      InsertChunkOrders(chunks[1..], chunk);
      InsertChunkAdds(chunks[1..], chunk);
      forall c <- rest ensures chunks[0].sequence < c.sequence {
        assert c in multiset(rest);
      }
      IncreasingGrows(chunks[0], rest);
    }
  }
}
