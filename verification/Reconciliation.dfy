/** The reviewer's client after an ambiguous answer: it inspects the request and rebuilds
    the decision from the record. */
module Reconciliation {
  import opened Model
  import opened Cells
  import opened Protocol
  import opened Invariant
  import opened Safety
  import opened Effects

  datatype Reconciled =
    | Confirmed(response: Response)
    | WrongRequest
    | StillPending
    | Undecided
    | ConflictingDecision
    | MissingApprovalId
    | HashMismatch

  /** The decision that a record stands for, as the client rebuilds it. */
  function FromRecord(rec: Record, id: RequestId, confirmed: string, decision: Decision): Reconciled {
    if rec.requestId != id then WrongRequest
    else if rec.decision.None? then if rec.status == Waiting then StillPending else Undecided
    else if rec.decision.value != decision then ConflictingDecision
    else if rec.approvalId == "" then MissingApprovalId
    else if decision == Approve && (rec.hash != confirmed || confirmed == "") then HashMismatch
    else Confirmed(Response(rec.requestId, rec.approvalId, DecisionStatus(decision), rec.decidedBy))
  }

  /** Whenever the client confirms a decision from an inspected record, the server gives the
      same answer to a repeated call, at the time of the inspection and ever after, although
      the inspection read the request and its approval in two steps. */
  lemma ReconciliationMatchesServer(
    c: Config, steps: seq<Step>, more: seq<Step>, k: nat, id: RequestId, confirmed: string, decision: Decision)
    requires k < |Run(c, steps).log| && Run(c, steps).log[k].Inspected?
    requires FromRecord(Run(c, steps).log[k].record, id, confirmed, decision).Confirmed?
    ensures var db := Run(c, steps + more).db;
      && id in db.requests
      && ExistingDecision(db, Get(db, id).value, decision) ==
           Found(FromRecord(Run(c, steps).log[k].record, id, confirmed, decision).response)
      && (decision == Approve ==> confirmed == db.requests[id].hash == c.hash(db.requests[id].request))
  {
    var s := Run(c, steps + more);
    RunLater(c, steps, more);
    RunOk(c, steps + more);
    assert s.log[k] == Run(c, steps).log[k];
    assert EventOk(c, s, s.log[..k], s.log[k]) && CellOk(c.hash, id, CellIn(s, id));
  }

  /** So a confirmed decision is the one that every successful call answered. */
  lemma ReconciliationMatchesAnswers(
    c: Config, steps: seq<Step>, k: nat, j: nat, confirmed: string, decision: Decision)
    requires k < |Run(c, steps).log| && Run(c, steps).log[k].Inspected?
    requires j < |Run(c, steps).log| && Run(c, steps).log[j].Answered?
    requires var id := Run(c, steps).log[j].response.requestId;
      FromRecord(Run(c, steps).log[k].record, id, confirmed, decision).Confirmed?
    ensures var id := Run(c, steps).log[j].response.requestId;
      FromRecord(Run(c, steps).log[k].record, id, confirmed, decision).response == Run(c, steps).log[j].response
  {
    var id := Run(c, steps).log[j].response.requestId;
    assert steps + [] == steps;
    ReconciliationMatchesServer(c, steps, [], k, id, confirmed, decision);
    AnswersStay(c, steps, [], j);
  }

  /** And the client does confirm: an inspection of a decided request is logged with a record
      from which the decision that is stored, with the stored hash, is rebuilt exactly, and the
      other decision is refused. */
  lemma InspectionConfirms(c: Config, steps: seq<Step>, tid: Tid, child: Tid, id: RequestId, i: Input)
    requires var s := Run(c, steps);
      && s.phase.Serving? && tid !in s.threads && child !in s.threads && tid != child
      && id in s.db.requests && id in s.db.approvals
    requires i.pass
    ensures var s := Run(c, steps); var s' := Run(c, steps + [CallInspect(tid, 0, id), Move(tid, child, i)]);
      var a := s.db.approvals[id].approval;
      && |s'.log| == |s.log| + 1 && s'.log[|s.log|].Inspected?
      && var rec := s'.log[|s.log|].record;
         && FromRecord(rec, id, s.db.requests[id].hash, a.decision) == Confirmed(ResponseOf(a))
         && (forall confirmed, d :: d != a.decision ==> FromRecord(rec, id, confirmed, d) == ConflictingDecision)
         && (forall confirmed :: confirmed != s.db.requests[id].hash && a.decision == Approve ==>
               FromRecord(rec, id, confirmed, Approve) == HashMismatch)
  {
    var s := Run(c, steps);
    InspectionShows(c, steps, tid, child, id, i);
    RunOk(c, steps);
    assert CellOk(c.hash, id, CellIn(s, id));
  }

  /** Of an undecided request it says whether it is still pending. */
  lemma InspectionOfUndecided(c: Config, steps: seq<Step>, tid: Tid, child: Tid, id: RequestId, i: Input)
    requires var s := Run(c, steps);
      && s.phase.Serving? && tid !in s.threads && child !in s.threads && tid != child
      && id in s.db.requests && id !in s.db.approvals
    requires i.pass
    ensures var s := Run(c, steps); var s' := Run(c, steps + [CallInspect(tid, 0, id), Move(tid, child, i)]);
      && |s'.log| == |s.log| + 1 && s'.log[|s.log|].Inspected?
      && forall confirmed, d ::
           FromRecord(s'.log[|s.log|].record, id, confirmed, d) ==
             if s.db.requests[id].status == Waiting then StillPending else Undecided
  {
    InspectionShows(c, steps, tid, child, id, i);
  }

  /** A record of another request is never taken. */
  lemma WrongRecordIsRefused(rec: Record, id: RequestId, confirmed: string, d: Decision)
    requires rec.requestId != id
    ensures FromRecord(rec, id, confirmed, d) == WrongRequest
  {}
}
