/** The records, the statuses and the transition table shared by the whole project. */
module Model {

  datatype Option<+T> = None | Some(value: T)

  type RequestId = string

  datatype Status =
    | Created | PolicyRejected | Queued | Synced | Waiting | Approved
    | Denied | Expired | Executing | Succeeded | Failed | Cancelled

  predicate Terminal(s: Status) {
    s in {PolicyRejected, Denied, Expired, Succeeded, Failed, Cancelled}
  }

  /** The table of allowed status changes. */
  predicate Edge(a: Status, b: Status) {
    match a
    case Created => b in {PolicyRejected, Queued, Waiting, Executing, Cancelled, Expired}
    case Queued => b in {Synced, Waiting, PolicyRejected, Cancelled, Expired}
    case Synced => b in {Waiting, PolicyRejected, Cancelled, Expired}
    case Waiting => b in {Approved, Denied, PolicyRejected, Cancelled, Expired}
    case Approved => b in {Executing, PolicyRejected, Expired}
    case Executing => b in {Succeeded, Failed}
    case _ => false
  }

  /** How far a status is from CREATED; every edge goes up. */
  function Rank(s: Status): nat {
    match s
    case Created => 0
    case Queued => 1
    case Synced => 2
    case Waiting => 3
    case Approved => 4
    case Executing => 5
    case _ => 6
  }

  /** The same, over the statuses that the service itself ever writes. */
  function ServiceRank(s: Status): nat {
    match s
    case Created => 0
    case Queued => 0
    case Synced => 0
    case Waiting => 1
    case Approved => 2
    case Executing => 3
    case _ => 4
  }

  /** The table is acyclic, and its sinks are exactly the terminal statuses. */
  lemma TableIsRanked()
    ensures forall a, b :: Edge(a, b) ==> Rank(a) < Rank(b)
    ensures forall a :: Terminal(a) <==> forall b :: !Edge(a, b)
    ensures forall a, b :: Edge(a, b) && a != Queued && a != Synced && b != Queued && b != Synced ==>
      ServiceRank(a) < ServiceRank(b)
  {
    forall a ensures Terminal(a) <==> forall b :: !Edge(a, b) {
      if !Terminal(a) {
        assert Edge(a, if a == Executing then Failed else Expired);
      }
    }
  }

  /** The table read backwards: from where each status can be reached. */
  lemma TableByTarget(a: Status, b: Status)
    ensures Edge(a, b) <==>
      match b
      case Created => false
      case Queued => a == Created
      case Synced => a == Queued
      case Waiting => a in {Created, Queued, Synced}
      case Approved => a == Waiting
      case Denied => a == Waiting
      case Executing => a in {Created, Approved}
      case Succeeded => a == Executing
      case Failed => a == Executing
      case Cancelled => a in {Created, Queued, Synced, Waiting}
      case Expired => a in {Created, Queued, Synced, Waiting, Approved}
      case PolicyRejected => a in {Created, Queued, Synced, Waiting, Approved}
  {
    match a
    case Created =>
    case _ =>
  }

  /** The statuses that count as outstanding are those that are not terminal. */
  lemma OutstandingStatus(s: Status)
    ensures s in {Created, Queued, Synced, Waiting, Approved, Executing} <==> !Terminal(s)
  {
    match s
    case Created =>
    case _ =>
  }

  /** The submitted request. Times are integers; `createdAt` keeps its stored text; `denied`
      is the policy result at submission. */
  datatype Request = Request(
    id: RequestId, uid: nat, executable: string, argv: seq<string>, cwd: string, denied: bool,
    createdAt: string, expiresAt: int)

  datatype Decision = Approve | Deny

  datatype Approval = Approval(
    version: int, approvalId: string, requestId: RequestId, requestHash: string, decision: Decision,
    subject: string, displayName: Option<string>, reason: string)

  /** The name shown for a decision: the display name when there is one. */
  function Actor(a: Approval): string {
    if a.displayName.Some? && a.displayName.value != "" then a.displayName.value else a.subject
  }

  datatype Response = Response(requestId: RequestId, approvalId: string, status: Status, decidedBy: string)

  function DecisionStatus(d: Decision): Status {
    if d == Approve then Approved else Denied
  }

  /** The answer that a stored approval stands for. */
  function ResponseOf(a: Approval): Response {
    Response(a.requestId, a.approvalId, DecisionStatus(a.decision), Actor(a))
  }
}
