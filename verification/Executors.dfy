/** The in-memory guard of `execute`: in one process, at most one goroutine at a time works on
    a request. */
module Executors {
  import opened Model
  import opened Cells
  import opened Protocol
  import opened Invariant
  import opened Safety

  /** The request a goroutine of `execute` holds in the guard set. */
  function Held(t: Thread): Option<RequestId> {
    match t
    case ExecGet(id) => Some(id)
    case ExecReject(id, _) => Some(id)
    case ExecFinish(id, _, _) => Some(id)
    case ExecDone(id) => Some(id)
    case ExecApproval(item) => Some(item.request.id)
    case ExecChecks(item) => Some(item.request.id)
    case ExecBegin(item) => Some(item.request.id)
    case _ => Owned(t)
  }

  ghost predicate GuardOk(s: System) {
    && (forall t <- s.threads :: Held(s.threads[t]).Some? ==> Held(s.threads[t]).value in s.executing)
    && (forall t, u :: t in s.threads && u in s.threads && t != u && Held(s.threads[t]).Some? ==>
          Held(s.threads[t]) != Held(s.threads[u]))
  }

  /** How a step hands the guard on. */
  ghost predicate Hands(executing: set<RequestId>, t: Thread, o: Out) {
    if Held(t).Some? then
      if o.next.Some? then Held(o.next.value) == Held(t) && o.executing == executing
      else o.executing == executing - {Held(t).value}
    else if o.next.Some? && Held(o.next.value).Some? then
      Held(o.next.value).value !in executing && o.executing == executing + {Held(o.next.value).value}
    else o.executing == executing
  }

  lemma RunHands(c: Config, s: System, t: Thread, i: Input)
    requires !IsSubmit(t) && !IsReview(t) && !IsPrepare(t)
    ensures Hands(s.executing, t, ActRun(c, s, t, i))
  {}

  lemma PrepareHands(c: Config, s: System, t: Thread, i: Input)
    requires IsPrepare(t)
    requires t.ExecGet? && Get(s.db, t.id).Some? ==> Get(s.db, t.id).value.request.id == t.id
    ensures Hands(s.executing, t, ActPrepare(c, s, t, i))
  {}

  lemma ActHands(c: Config, s: System, t: Thread, i: Input)
    requires t.ExecGet? && Get(s.db, t.id).Some? ==> Get(s.db, t.id).value.request.id == t.id
    ensures Hands(s.executing, t, Act(c, s, t, i))
  {
    if IsPrepare(t) {
      PrepareHands(c, s, t, i);
    } else if !IsSubmit(t) && !IsReview(t) {
      RunHands(c, s, t, i);
    }
  }

  lemma InstallGuard(s: System, tid: Tid, child: Tid, o: Out)
    requires GuardOk(s) && tid in s.threads && child !in s.threads && Hands(s.executing, s.threads[tid], o)
    ensures GuardOk(Install(s, tid, child, o))
  {}

  lemma MoveGuard(c: Config, s: System, tid: Tid, child: Tid, i: Input)
    requires Inv(c, s) && GuardOk(s) && tid in s.threads && child !in s.threads
    ensures GuardOk(MoveThread(c, s, tid, child, i))
  {
    var t := s.threads[tid];
    if t.ExecGet? {
      assert CellOk(c.hash, t.id, At(s.db, t.id));
    }
    ActHands(c, s, t, i);
    InstallGuard(s, tid, child, Act(c, s, t, i));
  }

  lemma NextGuard(c: Config, s: System, step: Step)
    requires Inv(c, s) && GuardOk(s)
    ensures GuardOk(Next(c, s, step))
  {
    if step.Move? {
      if Running(s.phase) && step.tid in s.threads && step.child !in s.threads {
        MoveGuard(c, s, step.tid, step.child, step.input);
      }
    } else {
      QuietGuard(c, s, step);
    }
  }

  lemma QuietGuard(c: Config, s: System, step: Step)
    requires GuardOk(s) && !step.Move?
    ensures GuardOk(Next(c, s, step))
  {}

  lemma {:induction false} RunGuard(c: Config, steps: seq<Step>)
    ensures GuardOk(Run(c, steps))
  {
    if steps != [] {
      var front := steps[..|steps| - 1];
      RunGuard(c, front);
      RunOk(c, front);
      NextGuard(c, Run(c, front), steps[|steps| - 1]);
    }
  }

  /** Past the guard, two goroutines never work on the same request at the same time. */
  lemma OneExecutorPerRequest(c: Config, steps: seq<Step>, t: Tid, u: Tid)
    requires t in Run(c, steps).threads && u in Run(c, steps).threads && t != u
    requires Held(Run(c, steps).threads[t]).Some?
    ensures Held(Run(c, steps).threads[t]) != Held(Run(c, steps).threads[u])
  {
    RunGuard(c, steps);
  }
}
