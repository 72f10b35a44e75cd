/** What every reachable state of the daemon satisfies, and what every step keeps.
    `Later` is the rely relation: each thread's own facts survive any step of the others. */
module Invariant {
  import opened Model
  import opened Tables
  import opened Cells
  import opened Protocol

  function CellIn(s: System, id: RequestId): Cell {
    At(s.db, id)
  }

  /** A request that can never be decided any more. */
  predicate Closed(s: System, id: RequestId) {
    id in s.used && CellIn(s, id).approval.None? && !Live(CellIn(s, id))
  }

  predicate Grown(a: Status, b: Status) {
    a == b || Rank(a) < Rank(b)
  }

  ghost predicate CellLater(c: Cell, c': Cell) {
    && (c.row.Some? && c'.row.Some? ==>
          && c'.row.value.request == c.row.value.request
          && c'.row.value.hash == c.row.value.hash
          && Grown(c.row.value.status, c'.row.value.status))
    && (c.approval.Some? ==> c'.row.Some? || c.row.None?)
    && (c.approval.Some? ==>
          && c'.approval.Some? && c'.approval.value.approval == c.approval.value.approval
          && (c.approval.value.consumed ==> c'.approval.value.consumed))
    && (c.execution.Some? ==>
          c'.execution.Some? && (c.execution.value.finished ==> c'.execution == c.execution))
    && c.chunks <= c'.chunks
  }

  ghost predicate Later(s: System, s': System) {
    && s.used <= s'.used
    && s.log <= s'.log
    && (forall id :: CellLater(CellIn(s, id), CellIn(s', id)))
    && (forall id :: Closed(s, id) ==> Closed(s', id))
    && (forall id :: id in s.used && CellIn(s, id).row.None? ==> CellIn(s', id).row.None?)
  }

  // ---------- threads ----------

  ghost predicate ItemOk(c: Config, s: System, item: Item) {
    var row := CellIn(s, item.request.id).row;
    && item.request.id in s.used
    && item.hash == c.hash(item.request)
    && (row.Some? ==> row.value.request == item.request && row.value.hash == item.hash)
  }

  /** Root approved the request at some point; that row is never removed. */
  predicate EverApproved(s: System, id: RequestId) {
    && CellIn(s, id).row.Some? && CellIn(s, id).approval.Some?
    && CellIn(s, id).approval.value.approval.decision == Approve
  }

  /** Root called for this decision; to approve, with this hash. */
  ghost predicate Asked(log: seq<Event>, id: RequestId, hash: string, d: Decision) {
    if d == Approve then Called(0, id, hash, Approve) in log
    else exists echo :: Called(0, id, echo, Deny) in log
  }

  ghost predicate ThreadOk(c: Config, s: System, t: Thread) {
    match t
    case DecideGet(id, echo, d) => Called(0, id, echo, d) in s.log
    case DecideAccept(item, a) =>
      && ItemOk(c, s, item)
      && a.requestId == item.request.id && a.requestHash == item.hash
      && Asked(s.log, item.request.id, item.hash, a.decision)
    case DecideExisting(item, d, launch) =>
      ItemOk(c, s, item) && (launch ==> d == Approve) && Asked(s.log, item.request.id, item.hash, d)
    case SubmitMove(id, deny) =>
      id in s.used && (CellIn(s, id).row.Some? ==> CellIn(s, id).row.value.request.denied == deny)
    case CancelMove(id, from, uid) =>
      && from in {Created, Waiting} && CancelCalled(uid, id) in s.log && id in s.used
      && (CellIn(s, id).row.Some? ==> uid == 0 || uid == CellIn(s, id).row.value.request.uid)
    case PruneDelete(ids) => forall id <- ids :: Closed(s, id)
    case InspectApproval(item) => ItemOk(c, s, item)
    case ExecGuard(id) => EverApproved(s, id)
    case ExecGet(id) => EverApproved(s, id)
    case ExecReject(_, next) => next in {Expired, PolicyRejected}
    case ExecApproval(item) => ItemOk(c, s, item) && EverApproved(s, item.request.id)
    case ExecChecks(item) => ItemOk(c, s, item) && EverApproved(s, item.request.id)
    case ExecBegin(item) => ItemOk(c, s, item) && EverApproved(s, item.request.id)
    case ExecSpawn(item) => ItemOk(c, s, item)
    case ExecRun(item, _) => ItemOk(c, s, item)
    case ExecInsert(item, _, _, _, _) => ItemOk(c, s, item)
    case ExecCount(item, _, _, _) => ItemOk(c, s, item)
    case _ => true
  }

  lemma ThreadStays(c: Config, s: System, s': System, t: Thread)
    requires ThreadOk(c, s, t) && Later(s, s')
    ensures ThreadOk(c, s', t)
  {
    if t.PruneDelete? {
      forall id <- t.ids ensures Closed(s', id) {
        assert Closed(s, id);
      }
    } else if t.ExecGuard? || t.ExecGet? || t.SubmitMove? || t.CancelMove? {
      assert CellLater(CellIn(s, t.id), CellIn(s', t.id));
    } else if t.DecideAccept? || t.DecideExisting? || t.InspectApproval? || t.ExecApproval? || t.ExecChecks?
              || t.ExecBegin? || t.ExecSpawn? || t.ExecRun? || t.ExecInsert? || t.ExecCount? {
      ItemStays(c, s, s', t.item);
    }
  }

  lemma ItemStays(c: Config, s: System, s': System, item: Item)
    requires ItemOk(c, s, item) && Later(s, s')
    ensures ItemOk(c, s', item)
    ensures EverApproved(s, item.request.id) ==> EverApproved(s', item.request.id)
  {
    assert CellLater(CellIn(s, item.request.id), CellIn(s', item.request.id));
  }

  /** The request whose execution a thread has begun and not yet finished. */
  function Owned(t: Thread): Option<RequestId> {
    match t
    case ExecSpawn(item) => Some(item.request.id)
    case ExecRun(item, _) => Some(item.request.id)
    case ExecInsert(item, _, _, _, _) => Some(item.request.id)
    case ExecCount(item, _, _, _) => Some(item.request.id)
    case ExecFinish(id, _, _) => Some(id)
    case _ => None
  }

  predicate IsExecuting(c: Cell) {
    c.row.Some? && c.row.value.status == Executing
  }

  predicate NoSpawn(log: seq<Event>, id: RequestId) {
    forall e <- log :: e.Spawned? ==> e.id != id
  }

  predicate Below(chunks: seq<Chunk>, n: nat) {
    forall x <- chunks :: x.sequence < n
  }

  predicate OwnerOk(s: System, t: Thread) {
    var id := Owned(t);
    id.Some? ==>
      && IsExecuting(CellIn(s, id.value))
      && (t.ExecSpawn? ==> NoSpawn(s.log, id.value) && CellIn(s, id.value).chunks == [])
      && (t.ExecRun? || t.ExecInsert? ==> Below(CellIn(s, id.value).chunks, t.sequence))
      && (t.ExecCount? ==> Below(CellIn(s, id.value).chunks, t.sequence + 1))
  }

  ghost predicate OwnersOk(s: System) {
    && (forall tid <- s.threads :: OwnerOk(s, s.threads[tid]))
    && (forall t, u :: t in s.threads && u in s.threads && t != u && Owned(s.threads[t]).Some? ==>
          Owned(s.threads[t]) != Owned(s.threads[u]))
  }

  // ---------- history ----------

  ghost predicate EventOk(c: Config, s: System, before: seq<Event>, e: Event) {
    match e
    case Stored(id, r, hash) =>
      && r.id == id && id in s.used && hash == c.hash(r)
      && (CellIn(s, id).row.Some? ==> CellIn(s, id).row.value.request == r)
      && (forall x <- before :: x.Stored? ==> x.id != id)
    case Called(_, _, _, _) => true
    case CancelCalled(_, _) => true
    case Answered(r) =>
      && CellIn(s, r.requestId).approval.Some?
      && var a := CellIn(s, r.requestId).approval.value.approval;
         r == ResponseOf(a) && Asked(before, r.requestId, a.requestHash, a.decision)
    case Inspected(rec) =>
      rec.decision.Some? ==>
        && CellIn(s, rec.requestId).approval.Some?
        && var a := CellIn(s, rec.requestId).approval.value.approval;
           a.requestId == rec.requestId && a.requestHash == rec.hash && rec.decision.value == a.decision
           && rec.approvalId == a.approvalId && rec.decidedBy == Actor(a)
    case Spawned(id, executable, argv, cwd) =>
      && CellIn(s, id).execution.Some? && CellIn(s, id).row.Some? && CellIn(s, id).approval.Some?
      && var r := CellIn(s, id).row.value;
         executable == r.request.executable && argv == r.request.argv && cwd == r.request.cwd
         && Stored(id, r.request, r.hash) in before && Called(0, id, r.hash, Approve) in before
         && NoSpawn(before, id)
  }

  ghost predicate LogOk(c: Config, s: System) {
    forall k :: 0 <= k < |s.log| ==> EventOk(c, s, s.log[..k], s.log[k])
  }

  lemma EventStays(c: Config, s: System, s': System, before: seq<Event>, e: Event)
    requires EventOk(c, s, before, e) && Later(s, s')
    ensures EventOk(c, s', before, e)
  {
    match e
    case Stored(id, _, _) => assert CellLater(CellIn(s, id), CellIn(s', id));
    case Called(_, _, _, _) =>
    case CancelCalled(_, _) =>
    case Answered(r) => assert CellLater(CellIn(s, r.requestId), CellIn(s', r.requestId));
    case Inspected(rec) => assert CellLater(CellIn(s, rec.requestId), CellIn(s', rec.requestId));
    case Spawned(id, _, _, _) => assert CellLater(CellIn(s, id), CellIn(s', id));
  }

  lemma LogStays(c: Config, s: System, s': System, e: seq<Event>)
    requires LogOk(c, s) && Later(s, s') && s'.log == s.log + e && |e| <= 1
    requires e != [] ==> EventOk(c, s', s.log, e[0])
    ensures LogOk(c, s')
  {
    forall k | 0 <= k < |s'.log| ensures EventOk(c, s', s'.log[..k], s'.log[k]) {
      assert s'.log[..k] == s.log[..k];
      if k < |s.log| {
        EventStays(c, s, s', s.log[..k], s.log[k]);
      }
    }
  }

  /** Rows and approvals come from calls that the history shows. */
  ghost predicate Witnessed(s: System, id: RequestId) {
    var x := CellIn(s, id);
    && (x.row.Some? ==> id in s.used && Stored(id, x.row.value.request, x.row.value.hash) in s.log)
    && (x.row.Some? && x.approval.Some? && x.approval.value.approval.decision == Approve ==>
          Called(0, id, x.row.value.hash, Approve) in s.log)
    && (x.row.Some? && x.row.value.status == Cancelled ==>
          CancelCalled(0, id) in s.log || CancelCalled(x.row.value.request.uid, id) in s.log)
  }

  // ---------- startup ----------

  predicate Settled(c: Cell) {
    c.execution.Some? && !c.execution.value.finished ==> IsExecuting(c)
  }

  ghost predicate PhaseOk(s: System) {
    && (!Running(s.phase) ==> s.threads == map[])
    && (s.phase.StatusesRecovered? || s.phase.ExecutionsRecovered? || s.phase.Opened? || s.phase.StartupExpired? ==>
          forall id :: !IsExecuting(CellIn(s, id)))
    && (!s.phase.Down? && !s.phase.StatusesRecovered? ==> forall id :: Settled(CellIn(s, id)))
    && (!s.phase.Down? && !s.phase.StatusesRecovered? && !s.phase.ExecutionsRecovered? ==> s.db.localOnly)
    && (s.phase.StartupExpired? ==>
          forall id :: CellIn(s, id).row.Some? && CellIn(s, id).row.value.status == Approved ==>
            CellIn(s, id).row.value.request.expiresAt > s.phase.now)
    && (s.phase.Relaunching? ==> forall id <- s.phase.ids :: EverApproved(s, id))
  }

  // ---------- quota ----------

  predicate Within(n: nat, limit: int) {
    n == 0 || n <= limit
  }

  ghost predicate QuotaOk(c: Config, s: System) {
    && Within(|Outstanding(s.db)|, c.maxPendingTotal)
    && (forall uid: nat :: Within(|OutstandingOf(s.db, uid)|, c.maxPendingPerUid))
    && (forall tid <- s.threads :: IsSubmit(s.threads[tid]) ==> s.submitLock == Some(tid))
    && (forall tid <- s.threads :: s.threads[tid].SubmitInsert? ==>
          && |Outstanding(s.db)| < c.maxPendingTotal
          && |OutstandingOf(s.db, s.threads[tid].request.uid)| < c.maxPendingPerUid)
  }

  // ---------- all of it ----------

  ghost predicate Inv(c: Config, s: System) {
    && DbOk(c.hash, s.db)
    && (forall id :: Witnessed(s, id))
    && (forall tid <- s.threads :: ThreadOk(c, s, s.threads[tid]))
    && OwnersOk(s)
    && LogOk(c, s)
    && PhaseOk(s)
    && QuotaOk(c, s)
  }
}
