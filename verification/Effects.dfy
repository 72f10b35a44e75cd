/** What each operation of the daemon does from any reachable state, when its steps are taken
    one after the other: the whole new state, so that nothing else happens either. */
module Effects {
  import opened Model
  import opened Tables
  import opened Cells
  import opened Protocol
  import opened Invariant
  import opened Safety

  predicate CanMove(s: System, tid: Tid, child: Tid) {
    Running(s.phase) && tid in s.threads && child !in s.threads
  }

  lemma MoveRuns(c: Config, steps: seq<Step>, tid: Tid, child: Tid, i: Input)
    requires CanMove(Run(c, steps), tid, child)
    ensures var s := Run(c, steps);
      Run(c, steps + [Move(tid, child, i)]) == Install(s, tid, child, Act(c, s, s.threads[tid], i))
  {
    RunNext(c, steps, Move(tid, child, i));
  }

  /** A step of a thread that goes on and launches nothing. */
  lemma Stepped(c: Config, steps: seq<Step>, tid: Tid, child: Tid, i: Input, op: Op, n: Thread, e: seq<Event>)
    requires CanMove(Run(c, steps), tid, child) && !Run(c, steps).threads[tid].SubmitUnlock? && !op.Insert?
    requires var s := Run(c, steps); Act(c, s, s.threads[tid], i) == Out(op, Some(n), None, s.executing, e)
    ensures var s := Run(c, steps);
      Run(c, steps + [Move(tid, child, i)]) ==
        s.(db := Apply(s.db, op), threads := s.threads[tid := n], log := s.log + e)
  {
    MoveRuns(c, steps, tid, child, i);
  }

  function SetRow(db: Db, id: RequestId, status: Status): Db
    requires id in db.requests
  {
    db.(requests := db.requests[id := db.requests[id].(status := status)])
  }

  // ---------- decisions ----------

  /** The name shown for a decision of root. */
  function RootName(displayName: Option<string>): string {
    match displayName
    case Some(name) => if name == "" then "uid:0" else name
    case None => "uid:0"
  }

  function RootDecision(id: RequestId, hash: string, d: Decision, i: Input): Approval {
    Approval(1, i.approvalId, id, hash, d, "uid:0", i.displayName, i.reason)
  }

  /** A call that finds the request waiting, with the right hash to approve it, goes on to
      store exactly that decision. */
  lemma DecideReads(c: Config, steps: seq<Step>, tid: Tid, child: Tid, i: Input)
    requires CanMove(Run(c, steps), tid, child) && Run(c, steps).threads[tid].DecideGet?
    requires var s := Run(c, steps); var t := s.threads[tid];
      && t.id in s.db.requests && s.db.requests[t.id].status == Waiting
      && (t.decision == Deny || t.echo == s.db.requests[t.id].hash)
    requires i.pass && !i.hashFails
    ensures var s := Run(c, steps); var t := s.threads[tid]; var row := s.db.requests[t.id];
      Run(c, steps + [Move(tid, child, i)]) ==
        s.(threads := s.threads[tid := DecideAccept(Item(row.request, row.hash, Waiting),
                                                    RootDecision(t.id, row.hash, t.decision, i))])
  {
    var s := Run(c, steps);
    var t := s.threads[tid];
    RunOk(c, steps);
    assert CellOk(c.hash, t.id, CellIn(s, t.id));
    var row := s.db.requests[t.id];
    Stepped(c, steps, tid, child, i, Nop,
            DecideAccept(Item(row.request, row.hash, Waiting), RootDecision(t.id, row.hash, t.decision, i)), []);
    assert s.log + [] == s.log;
  }

  /** The decision is stored unconsumed and the request is DENIED or APPROVED. */
  function Decided(db: Db, id: RequestId, a: Approval): Db
    requires id in db.requests
  {
    SetRow(db, id, match a.decision case Deny => Denied case Approve => Approved)
    .(approvals := db.approvals[id := ApprovalRow(a, false)])
  }

  /** An acceptable decision: complete, under a new id, on a waiting request. */
  predicate Acceptable(db: Db, a: Approval) {
    && a.version == 1 && a.approvalId != "" && a.requestId != "" && a.requestHash != "" && a.subject != ""
    && (forall id <- db.approvals :: db.approvals[id].approval.approvalId != a.approvalId)
    && a.requestId in db.requests && db.requests[a.requestId].status == Waiting
  }

  lemma AcceptApplies(c: Config, steps: seq<Step>, a: Approval)
    ensures var db := Run(c, steps).db;
      && (Commits(db, Accept(a)) <==> Acceptable(db, a))
      && (Acceptable(db, a) ==> Apply(db, Accept(a)) == Decided(db, a.requestId, a))
  {
    var s := Run(c, steps);
    RunOk(c, steps);
    assert CellOk(c.hash, a.requestId, CellIn(s, a.requestId));
  }

  function Answer(id: RequestId, a: Approval): Event {
    Answered(Response(id, a.approvalId, match a.decision case Deny => Denied case Approve => Approved,
                      if a.displayName.Some? && a.displayName.value != "" then a.displayName.value else a.subject))
  }

  /** A commit that is reported stores the decision, answers it, and starts one executor if it
      is an approval. */
  lemma DecideAccepts(c: Config, steps: seq<Step>, tid: Tid, child: Tid, i: Input)
    requires CanMove(Run(c, steps), tid, child) && Run(c, steps).threads[tid].DecideAccept?
    requires i.commits && i.reported && Acceptable(Run(c, steps).db, Run(c, steps).threads[tid].approval)
    ensures var s := Run(c, steps); var a := s.threads[tid].approval; var id := a.requestId;
      Run(c, steps + [Move(tid, child, i)]) ==
        s.(db := Decided(s.db, id, a),
           threads := if a.decision == Approve then (s.threads - {tid})[child := ExecGuard(id)] else s.threads - {tid},
           log := s.log + [Answer(id, a)])
  {
    var s := Run(c, steps);
    RunOk(c, steps);
    assert ThreadOk(c, s, s.threads[tid]);
    AcceptApplies(c, steps, s.threads[tid].approval);
    MoveRuns(c, steps, tid, child, i);
  }

  /** A call of root starts a thread; one of anybody else is turned away. */
  lemma RootCalls(c: Config, steps: seq<Step>, tid: Tid, id: RequestId, echo: string, d: Decision)
    requires Run(c, steps).phase.Serving? && tid !in Run(c, steps).threads
    ensures var s := Run(c, steps);
      Run(c, steps + [CallDecide(tid, 0, id, echo, d)]) ==
        s.(threads := s.threads[tid := DecideGet(id, echo, d)], log := s.log + [Called(0, id, echo, d)])
    ensures var s := Run(c, steps);
      forall uid: nat :: uid != 0 ==>
        Run(c, steps + [CallDecide(tid, uid, id, echo, d)]) == s.(log := s.log + [Called(uid, id, echo, d)])
  {
    RunNext(c, steps, CallDecide(tid, 0, id, echo, d));
    forall uid: nat | uid != 0
      ensures Run(c, steps + [CallDecide(tid, uid, id, echo, d)]) ==
        Run(c, steps).(log := Run(c, steps).log + [Called(uid, id, echo, d)])
    {
      RunNext(c, steps, CallDecide(tid, uid, id, echo, d));
    }
  }

  /** A call by root on any waiting request, in any reachable state, takes effect: to deny it,
      or to approve it with the stored hash. */
  lemma DecisionTakesEffect(
    c: Config, steps: seq<Step>, tid: Tid, child: Tid, id: RequestId, echo: string, d: Decision, i: Input)
    requires var s := Run(c, steps);
      && s.phase.Serving? && tid !in s.threads && child !in s.threads && tid != child
      && id in s.db.requests && (d == Deny || echo == s.db.requests[id].hash)
      && Acceptable(s.db, RootDecision(id, s.db.requests[id].hash, d, i))
    requires i.pass && !i.hashFails && i.commits && i.reported
    ensures var s := Run(c, steps); var a := RootDecision(id, s.db.requests[id].hash, d, i);
      Run(c, steps + [CallDecide(tid, 0, id, echo, d), Move(tid, child, i), Move(tid, child, i)]) ==
        s.(db := Decided(s.db, id, a),
           threads := if d == Approve then s.threads[child := ExecGuard(id)] else s.threads,
           log := s.log + [Called(0, id, echo, d), Answer(id, a)])
    ensures Answer(id, RootDecision(id, Run(c, steps).db.requests[id].hash, d, i)) ==
      Answered(Response(id, i.approvalId, if d == Deny then Denied else Approved, RootName(i.displayName)))
  {
    var s := Run(c, steps);
    var call, go := CallDecide(tid, 0, id, echo, d), Move(tid, child, i);
    var get := DecideGet(id, echo, d);
    RootCalls(c, steps, tid, id, echo, d);
    DecideReads(c, steps + [call], tid, child, i);
    DecideAccepts(c, steps + [call] + [go], tid, child, i);
    assert steps + [call] + [go] + [go] == steps + [call, go, go];
    Retires(s.threads, tid, get, Run(c, steps + [call] + [go]).threads[tid]);
    TwoEvents(s.log, Called(0, id, echo, d), Answer(id, RootDecision(id, s.db.requests[id].hash, d, i)));
  }

  /** A thread that came and went. */
  lemma Retires(threads: map<Tid, Thread>, tid: Tid, t: Thread, u: Thread)
    requires tid !in threads
    ensures threads[tid := t] - {tid} == threads[tid := t][tid := u] - {tid} == threads
  {}

  lemma TwoEvents(log: seq<Event>, e: Event, f: Event)
    ensures log + [e] + [f] == log + [e, f]
  {}

  /** A call that finds the request decided or closed looks for the stored decision; a
      repeated approval of an APPROVED request may launch it again. */
  lemma DecideReadsAgain(c: Config, steps: seq<Step>, tid: Tid, child: Tid, i: Input)
    requires CanMove(Run(c, steps), tid, child) && Run(c, steps).threads[tid].DecideGet?
    requires var s := Run(c, steps); var t := s.threads[tid];
      && t.id in s.db.requests && s.db.requests[t.id].status != Waiting
      && (t.decision == Deny || t.echo == s.db.requests[t.id].hash)
    requires i.pass
    ensures var s := Run(c, steps); var t := s.threads[tid]; var row := s.db.requests[t.id];
      Run(c, steps + [Move(tid, child, i)]) ==
        s.(threads := s.threads[tid := DecideExisting(Item(row.request, row.hash, row.status), t.decision,
                                                      t.decision == Approve && row.status == Approved)])
  {
    var s := Run(c, steps);
    var t := s.threads[tid];
    var row := s.db.requests[t.id];
    Stepped(c, steps, tid, child, i, Nop,
            DecideExisting(Item(row.request, row.hash, row.status), t.decision,
                           t.decision == Approve && row.status == Approved), []);
    assert s.log + [] == s.log;
  }

  /** A call for a missing request, one that cannot be read, or one that approves with another
      hash, ends there. */
  lemma DecideRefuses(c: Config, steps: seq<Step>, tid: Tid, child: Tid, i: Input)
    requires CanMove(Run(c, steps), tid, child) && Run(c, steps).threads[tid].DecideGet?
    requires var s := Run(c, steps); var t := s.threads[tid];
      !i.pass || t.id !in s.db.requests || (t.decision == Approve && t.echo != s.db.requests[t.id].hash)
    ensures var s := Run(c, steps); Run(c, steps + [Move(tid, child, i)]) == s.(threads := s.threads - {tid})
  {
    MoveRuns(c, steps, tid, child, i);
    assert Run(c, steps).log + [] == Run(c, steps).log;
  }

  /** A waiting request whose hash cannot be confirmed is rejected and not decided. */
  lemma CorruptIsRejected(c: Config, steps: seq<Step>, tid: Tid, child: Tid, i: Input)
    requires CanMove(Run(c, steps), tid, child) && Run(c, steps).threads[tid].DecideGet?
    requires var s := Run(c, steps); var t := s.threads[tid];
      && t.id in s.db.requests && s.db.requests[t.id].status == Waiting
      && (t.decision == Deny || t.echo == s.db.requests[t.id].hash)
    requires i.pass && i.hashFails && i.commits
    ensures var s := Run(c, steps); var id := s.threads[tid].id;
      Run(c, steps + [Move(tid, child, i), Move(tid, child, i)]) ==
        s.(db := SetRow(s.db, id, PolicyRejected), threads := s.threads - {tid})
  {
    var s := Run(c, steps);
    var id := s.threads[tid].id;
    var go := Move(tid, child, i);
    Stepped(c, steps, tid, child, i, Nop, DecideCorrupt(id), []);
    assert s.log + [] == s.log;
    MoveRuns(c, steps + [go], tid, child, i);
    assert steps + [go] + [go] == steps + [go, go];
    assert s.threads[tid := DecideCorrupt(id)] - {tid} == s.threads - {tid};
  }

  /** An accept that did not go through, or did not report so, looks for the stored decision. */
  lemma AcceptFallsBack(c: Config, steps: seq<Step>, tid: Tid, child: Tid, i: Input)
    requires CanMove(Run(c, steps), tid, child) && Run(c, steps).threads[tid].DecideAccept?
    requires !i.commits || !i.reported || !Acceptable(Run(c, steps).db, Run(c, steps).threads[tid].approval)
    ensures var s := Run(c, steps); var t := s.threads[tid];
      Run(c, steps + [Move(tid, child, i)]) ==
        s.(db := if i.commits && Acceptable(s.db, t.approval) then Decided(s.db, t.approval.requestId, t.approval)
                 else s.db,
           threads := s.threads[tid := DecideExisting(t.item, t.approval.decision, false)])
  {
    var s := Run(c, steps);
    var t := s.threads[tid];
    AcceptApplies(c, steps, t.approval);
    Stepped(c, steps, tid, child, i, Try(Accept(t.approval), i),
            DecideExisting(t.item, t.approval.decision, false), []);
    assert s.log + [] == s.log;
  }

  /** The stored decision is answered when it is the one asked for and can be read, and only
      then. */
  lemma ExistingIsAnswered(c: Config, steps: seq<Step>, tid: Tid, child: Tid, i: Input)
    requires CanMove(Run(c, steps), tid, child) && Run(c, steps).threads[tid].DecideExisting?
    ensures var s := Run(c, steps); var t := s.threads[tid]; var id := t.item.request.id;
      Run(c, steps + [Move(tid, child, i)]) ==
        if i.pass && id in s.db.approvals && s.db.approvals[id].approval.decision == t.decision then
          s.(threads := if t.launch then (s.threads - {tid})[child := ExecGuard(id)] else s.threads - {tid},
             log := s.log + [Answer(id, s.db.approvals[id].approval)])
        else s.(threads := s.threads - {tid})
  {
    var s := Run(c, steps);
    var id := s.threads[tid].item.request.id;
    RunOk(c, steps);
    assert ThreadOk(c, s, s.threads[tid]) && CellOk(c.hash, id, CellIn(s, id));
    MoveRuns(c, steps, tid, child, i);
    assert s.log + [] == s.log;
  }

  /** Every answer was asked for: an earlier call of root named that request and that
      decision, and to approve it echoed the hash that the decision is bound to. */
  lemma AnswersAreAsked(c: Config, steps: seq<Step>, m: nat)
    requires m < |Run(c, steps).log| && Run(c, steps).log[m].Answered?
    ensures var s := Run(c, steps); var r := s.log[m].response;
      && r.requestId in s.db.approvals
      && var a := s.db.approvals[r.requestId].approval;
         if r.status == Approved then
           a.decision == Approve && exists j :: 0 <= j < m && s.log[j] == Called(0, r.requestId, a.requestHash, Approve)
         else
           && r.status == Denied && a.decision == Deny
           && exists j :: 0 <= j < m && s.log[j].Called? && s.log[j].uid == 0 && s.log[j].id == r.requestId
                          && s.log[j].decision == Deny
  {
    var s := Run(c, steps);
    var id := s.log[m].response.requestId;
    RunOk(c, steps);
    assert EventOk(c, s, s.log[..m], s.log[m]);
    var a := CellIn(s, id).approval.value.approval;
    if a.decision == Approve {
      var j :| 0 <= j < m && s.log[j] == Called(0, id, a.requestHash, Approve);
    } else {
      var echo :| Called(0, id, echo, Deny) in s.log[..m];
      var j :| 0 <= j < m && s.log[j] == Called(0, id, echo, Deny);
    }
  }

  // ---------- cancelling ----------

  /** Root and the submitter cancel a request that is CREATED or WAITING. */
  lemma CancelTakesEffect(c: Config, steps: seq<Step>, tid: Tid, child: Tid, uid: nat, id: RequestId, i: Input)
    requires var s := Run(c, steps);
      && s.phase.Serving? && tid !in s.threads && child !in s.threads && tid != child
      && id in s.db.requests && s.db.requests[id].status in {Created, Waiting}
      && (uid == 0 || uid == s.db.requests[id].request.uid)
    requires i.commits
    ensures var s := Run(c, steps);
      Run(c, steps + [CallCancel(tid, uid, id), Move(tid, child, i)]) ==
        s.(db := SetRow(s.db, id, Cancelled), log := s.log + [CancelCalled(uid, id)])
  {
    var s := Run(c, steps);
    var call, go := CallCancel(tid, uid, id), Move(tid, child, i);
    var t := CancelMove(id, s.db.requests[id].status, uid);
    RunNext(c, steps, call);
    assert Run(c, steps + [call]) == s.(threads := s.threads[tid := t], log := s.log + [CancelCalled(uid, id)]);
    MoveRuns(c, steps + [call], tid, child, i);
    assert steps + [call] + [go] == steps + [call, go];
    assert s.threads[tid := t] - {tid} == s.threads;
    assert s.log + [CancelCalled(uid, id)] + [] == s.log + [CancelCalled(uid, id)];
  }

  /** A cancellation that finds another status by then, or fails, changes nothing. */
  lemma CancelLoses(c: Config, steps: seq<Step>, tid: Tid, child: Tid, i: Input)
    requires CanMove(Run(c, steps), tid, child) && Run(c, steps).threads[tid].CancelMove?
    requires var s := Run(c, steps); var t := s.threads[tid];
      !i.commits || t.id !in s.db.requests || s.db.requests[t.id].status != t.from
    ensures var s := Run(c, steps); Run(c, steps + [Move(tid, child, i)]) == s.(threads := s.threads - {tid})
  {
    MoveRuns(c, steps, tid, child, i);
    assert Run(c, steps).log + [] == Run(c, steps).log;
  }

  /** Any other call to cancel changes nothing. */
  lemma CancelIsRefused(c: Config, steps: seq<Step>, tid: Tid, uid: nat, id: RequestId)
    requires var s := Run(c, steps);
      && s.phase.Serving? && tid !in s.threads
      && (id in s.db.requests ==>
            s.db.requests[id].status !in {Created, Waiting} || (uid != 0 && uid != s.db.requests[id].request.uid))
    ensures var s := Run(c, steps);
      Run(c, steps + [CallCancel(tid, uid, id)]) == s.(log := s.log + [CancelCalled(uid, id)])
  {
    RunNext(c, steps, CallCancel(tid, uid, id));
  }

  // ---------- inspecting ----------

  /** An inspection by root shows the request and, once it is decided, its decision. */
  lemma InspectionShows(c: Config, steps: seq<Step>, tid: Tid, child: Tid, id: RequestId, i: Input)
    requires var s := Run(c, steps);
      s.phase.Serving? && tid !in s.threads && child !in s.threads && tid != child && id in s.db.requests
    requires i.pass
    ensures var s := Run(c, steps); var row := s.db.requests[id];
      Run(c, steps + [CallInspect(tid, 0, id), Move(tid, child, i)]) ==
        s.(log := s.log + [Inspected(
             if id in s.db.approvals then
               var a := s.db.approvals[id].approval;
               Record(id, row.hash, row.status, Some(a.decision), a.approvalId,
                      if a.displayName.Some? && a.displayName.value != "" then a.displayName.value else a.subject)
             else Record(id, row.hash, row.status, None, "", ""))])
  {
    var s := Run(c, steps);
    var row := s.db.requests[id];
    var call, go := CallInspect(tid, 0, id), Move(tid, child, i);
    var t := InspectApproval(Item(row.request, row.hash, row.status));
    RunNext(c, steps, call);
    assert Run(c, steps + [call]) == s.(threads := s.threads[tid := t]);
    InspectionReads(c, steps + [call], tid, child, i);
    TablesAgree(c, steps, id);
    KeyedById(c, steps, id);
    assert steps + [call] + [go] == steps + [call, go];
    Retires(s.threads, tid, t, t);
  }

  lemma KeyedById(c: Config, steps: seq<Step>, id: RequestId)
    requires id in Run(c, steps).db.requests
    ensures Run(c, steps).db.requests[id].request.id == id
  {
    RunOk(c, steps);
    assert CellOk(c.hash, id, CellIn(Run(c, steps), id));
  }

  /** Nobody else inspects, and a missing request shows nothing. */
  lemma InspectionIsRefused(c: Config, steps: seq<Step>, tid: Tid, uid: nat, id: RequestId)
    requires uid != 0 || id !in Run(c, steps).db.requests
    ensures Run(c, steps + [CallInspect(tid, uid, id)]) == Run(c, steps)
  {
    RunNext(c, steps, CallInspect(tid, uid, id));
  }

  /** When the approval cannot be read, the record shows the request without a decision. */
  lemma InspectionIsBlank(c: Config, steps: seq<Step>, tid: Tid, child: Tid, i: Input)
    requires CanMove(Run(c, steps), tid, child) && Run(c, steps).threads[tid].InspectApproval? && !i.pass
    ensures var s := Run(c, steps); var item := s.threads[tid].item;
      Run(c, steps + [Move(tid, child, i)]) ==
        s.(threads := s.threads - {tid},
           log := s.log + [Inspected(Record(item.request.id, item.hash, item.status, None, "", ""))])
  {
    MoveRuns(c, steps, tid, child, i);
  }

  lemma InspectionReads(c: Config, steps: seq<Step>, tid: Tid, child: Tid, i: Input)
    requires CanMove(Run(c, steps), tid, child) && Run(c, steps).threads[tid].InspectApproval? && i.pass
    ensures var s := Run(c, steps);
      Run(c, steps + [Move(tid, child, i)]) ==
        s.(threads := s.threads - {tid}, log := s.log + [Inspected(RecordOf(s.db, s.threads[tid].item))])
  {
    MoveRuns(c, steps, tid, child, i);
  }

  // ---------- submitting ----------

  function Submitted(c: Config, s: System, r: Request, status: Status): System {
    s.(db := s.db.(requests := s.db.requests[r.id := Row(r, c.hash(r), status, 0, false)]),
       used := s.used + {r.id}, log := s.log + [Stored(r.id, r, c.hash(r))])
  }

  predicate HasRoom(c: Config, db: Db, uid: nat) {
    |OutstandingOf(db, uid)| < c.maxPendingPerUid && |Outstanding(db)| < c.maxPendingTotal
  }

  /** The count decides: below both limits the submission goes on, else it ends. */
  lemma SubmissionCounts(c: Config, steps: seq<Step>, tid: Tid, child: Tid, r: Request, i: Input)
    requires var s := Run(c, steps);
      s.phase.Serving? && tid !in s.threads && child !in s.threads && tid != child && s.submitLock.None?
    ensures var s := Run(c, steps);
      Run(c, steps + [CallSubmit(tid, r), Move(tid, child, i)]) ==
        s.(threads := s.threads[tid := if HasRoom(c, s.db, r.uid) then SubmitInsert(r) else SubmitUnlock],
           submitLock := Some(tid))
  {
    var s := Run(c, steps);
    var call, go := CallSubmit(tid, r), Move(tid, child, i);
    var n := if HasRoom(c, s.db, r.uid) then SubmitInsert(r) else SubmitUnlock;
    RunNext(c, steps, call);
    assert Run(c, steps + [call]) == s.(threads := s.threads[tid := SubmitCount(r)], submitLock := Some(tid));
    Stepped(c, steps + [call], tid, child, i, Nop, n, []);
    assert steps + [call] + [go] == steps + [call, go];
    assert s.log + [] == s.log && s.threads[tid := SubmitCount(r)][tid := n] == s.threads[tid := n];
  }

  /** The insertion stores the request as CREATED under its own hash. */
  lemma SubmissionInserts(c: Config, steps: seq<Step>, tid: Tid, child: Tid, i: Input)
    requires CanMove(Run(c, steps), tid, child) && Run(c, steps).threads[tid].SubmitInsert?
    requires Run(c, steps).threads[tid].request.id !in Run(c, steps).used && i.capacity && i.commits && i.reported
    ensures var s := Run(c, steps); var r := s.threads[tid].request;
      Run(c, steps + [Move(tid, child, i)]) ==
        Submitted(c, s, r, Created).(threads := s.threads[tid := SubmitMove(r.id, r.denied)])
  {
    var s := Run(c, steps);
    var r := s.threads[tid].request;
    RunOk(c, steps);
    assert Witnessed(s, r.id);
    assert r.id !in s.db.requests by {
      assert CellIn(s, r.id).row.None?;
    }
    MoveRuns(c, steps, tid, child, i);
  }

  /** Without storage, or if the insertion fails, nothing is stored; if it only reports an
      error, the request stays CREATED. */
  lemma SubmissionFails(c: Config, steps: seq<Step>, tid: Tid, child: Tid, i: Input)
    requires CanMove(Run(c, steps), tid, child) && Run(c, steps).threads[tid].SubmitInsert?
    requires var s := Run(c, steps); s.threads[tid].request.id in s.used || !i.capacity || !i.commits || !i.reported
    ensures var s := Run(c, steps); var r := s.threads[tid].request;
      Run(c, steps + [Move(tid, child, i)]) ==
        (if r.id !in s.used && i.capacity && i.commits then Submitted(c, s, r, Created) else s)
        .(threads := s.threads[tid := SubmitUnlock])
  {
    var s := Run(c, steps);
    RunOk(c, steps);
    assert Witnessed(s, s.threads[tid].request.id);
    assert s.threads[tid].request.id !in s.used ==> CellIn(s, s.threads[tid].request.id).row.None?;
    MoveRuns(c, steps, tid, child, i);
    assert s.log + [] == s.log;
  }

  /** Then the policy's result decides where it goes. */
  lemma SubmissionPlaces(c: Config, steps: seq<Step>, tid: Tid, child: Tid, i: Input)
    requires CanMove(Run(c, steps), tid, child) && Run(c, steps).threads[tid].SubmitMove? && i.commits
    requires var s := Run(c, steps); var id := s.threads[tid].id;
      id in s.db.requests && s.db.requests[id].status == Created
    ensures var s := Run(c, steps); var id := s.threads[tid].id;
      Run(c, steps + [Move(tid, child, i)]) ==
        s.(db := SetRow(s.db, id, if s.db.requests[id].request.denied then PolicyRejected else Waiting),
           threads := s.threads[tid := SubmitUnlock])
  {
    var s := Run(c, steps);
    var t := s.threads[tid];
    RunOk(c, steps);
    assert ThreadOk(c, s, t);
    assert CellIn(s, t.id).row == Some(s.db.requests[t.id]);
    Stepped(c, steps, tid, child, i, Transition(t.id, if t.deny then PolicyRejected else Waiting, Some(Created)),
            SubmitUnlock, []);
    assert s.log + [] == s.log;
  }

  lemma SubmissionUnlocks(c: Config, steps: seq<Step>, tid: Tid, child: Tid, i: Input)
    requires CanMove(Run(c, steps), tid, child) && Run(c, steps).threads[tid].SubmitUnlock?
    ensures var s := Run(c, steps);
      Run(c, steps + [Move(tid, child, i)]) == s.(threads := s.threads - {tid}, submitLock := None)
  {
    MoveRuns(c, steps, tid, child, i);
    assert Run(c, steps).log + [] == Run(c, steps).log;
  }

  /** A submission with room, in any reachable state, is stored with its hash and waits for a
      decision, or is rejected if the policy denied it. */
  lemma SubmissionTakesEffect(c: Config, steps: seq<Step>, tid: Tid, child: Tid, r: Request, i: Input)
    requires var s := Run(c, steps);
      && s.phase.Serving? && tid !in s.threads && child !in s.threads && tid != child && s.submitLock.None?
      && r.id !in s.used && HasRoom(c, s.db, r.uid)
    requires i.capacity && i.commits && i.reported
    ensures var go := Move(tid, child, i);
      Run(c, steps + [CallSubmit(tid, r), go, go, go, go]) ==
        Submitted(c, Run(c, steps), r, if r.denied then PolicyRejected else Waiting)
  {
    var s := Run(c, steps);
    var call, go := CallSubmit(tid, r), Move(tid, child, i);
    SubmissionCounts(c, steps, tid, child, r, i);
    var counted := steps + [call, go];
    SubmissionInserts(c, counted, tid, child, i);
    SubmissionPlaces(c, counted + [go], tid, child, i);
    SubmissionUnlocks(c, counted + [go] + [go], tid, child, i);
    assert counted + [go] + [go] + [go] == steps + [call, go, go, go, go];
    SubmittedIs(c, s, r, tid);
  }

  lemma SubmittedIs(c: Config, s: System, r: Request, tid: Tid)
    requires tid !in s.threads
    ensures var status := if r.denied then PolicyRejected else Waiting;
      SetRow(Submitted(c, s, r, Created).db, r.id, status) == Submitted(c, s, r, status).db
    ensures
      s.threads[tid := SubmitInsert(r)][tid := SubmitMove(r.id, r.denied)][tid := SubmitUnlock] - {tid} == s.threads
  {}

  /** Without room nothing is stored. */
  lemma SubmissionIsRefused(c: Config, steps: seq<Step>, tid: Tid, child: Tid, r: Request, i: Input)
    requires var s := Run(c, steps);
      && s.phase.Serving? && tid !in s.threads && child !in s.threads && tid != child && s.submitLock.None?
      && !HasRoom(c, s.db, r.uid)
    ensures Run(c, steps + [CallSubmit(tid, r), Move(tid, child, i), Move(tid, child, i)]) == Run(c, steps)
  {
    var s := Run(c, steps);
    var call, go := CallSubmit(tid, r), Move(tid, child, i);
    SubmissionCounts(c, steps, tid, child, r, i);
    SubmissionUnlocks(c, steps + [call, go], tid, child, i);
    assert steps + [call, go] + [go] == steps + [call, go, go];
    Retires(s.threads, tid, SubmitUnlock, SubmitUnlock);
  }

  // ---------- pruning ----------

  /** A pass that selected prunable requests removes them, and nothing else. */
  lemma PruneTakesEffect(c: Config, steps: seq<Step>, tid: Tid, child: Tid, ids: set<RequestId>, i: Input)
    requires var s := Run(c, steps);
      && s.phase.Serving? && tid !in s.threads && child !in s.threads && tid != child
      && forall id <- ids :: Prunable(s.db, id)
    requires i.commits
    ensures var s := Run(c, steps); var s' := Run(c, steps + [SelectPrunable(tid, ids), Move(tid, child, i)]);
      && s' == s.(db := s'.db)
      && s'.db.requests == s.db.requests - ids && s'.db.approvals == s.db.approvals
      && s'.db.executions == s.db.executions && s'.db.localOnly == s.db.localOnly
      && forall id :: ChunksOf(s'.db, id) == ChunksOf(s.db, id)
  {
    var s := Run(c, steps);
    var call, go := SelectPrunable(tid, ids), Move(tid, child, i);
    RunNext(c, steps, call);
    assert Run(c, steps + [call]) == s.(threads := s.threads[tid := PruneDelete(ids)]);
    PruneDeletes(c, steps + [call], tid);
    MoveRuns(c, steps + [call], tid, child, i);
    assert steps + [call] + [go] == steps + [call, go];
    Retires(s.threads, tid, PruneDelete(ids), PruneDelete(ids));
    assert s.log + [] == s.log;
  }

  /** A pass whose transaction fails removes nothing. */
  lemma PruneFails(c: Config, steps: seq<Step>, tid: Tid, child: Tid, i: Input)
    requires CanMove(Run(c, steps), tid, child) && Run(c, steps).threads[tid].PruneDelete? && !i.commits
    ensures var s := Run(c, steps); Run(c, steps + [Move(tid, child, i)]) == s.(threads := s.threads - {tid})
  {
    MoveRuns(c, steps, tid, child, i);
    assert Run(c, steps).log + [] == Run(c, steps).log;
  }

  // ---------- expiring ----------

  /** A bulk expiry closes exactly the waiting and approved requests that are due. */
  lemma ExpiryTakesEffect(c: Config, steps: seq<Step>, now: int)
    requires Run(c, steps).phase.Serving?
    ensures var s := Run(c, steps);
      Run(c, steps + [ExpireNow(now)]) ==
        s.(db := s.db.(requests := map id <- s.db.requests ::
             var row := s.db.requests[id];
             if row.status in {Waiting, Approved} && row.request.expiresAt <= now
             then row.(status := Expired) else row))
  {
    var s := Run(c, steps);
    RunNext(c, steps, ExpireNow(now));
    forall id <- s.db.requests ensures s.db.requests[id].status !in {Queued, Synced} {
      TablesAgree(c, steps, id);
    }
  }
}
