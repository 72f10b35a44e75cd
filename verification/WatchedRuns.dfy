/** A watcher beside the running daemon: the log it reads is the one that the daemon's own
    steps write, and it loses its connection when the process dies. */
module WatchedRuns {
  import opened Model
  import opened Tables
  import opened Cells
  import opened Safety
  import Protocol
  import Invariant
  import Watch
  import Endings

  function ViewOf(db: Db, id: RequestId): Watch.View {
    Watch.View(ChunksOf(db, id), if id in db.requests then Some(db.requests[id].status) else None)
  }

  lemma CellsEvolve(h: Request -> string, id: RequestId, db: Db, db': Db)
    requires CellOk(h, id, At(db, id)) && CellOk(h, id, At(db', id)) && CellStep(At(db, id), At(db', id))
    requires At(db, id).row.None? ==> At(db', id).row.None?
    ensures Watch.Evolves(ViewOf(db, id), ViewOf(db', id))
  {
    TableIsRanked();
    assert At(db, id).row.Some? <==> id in db.requests;
    assert At(db', id).row.Some? <==> id in db'.requests;
  }

  /** To a watcher of an issued request, every step of the daemon is an allowed change. */
  lemma DaemonStepsEvolve(c: Protocol.Config, steps: seq<Protocol.Step>, step: Protocol.Step, id: RequestId)
    requires id in Protocol.Run(c, steps).used
    ensures Watch.Evolves(ViewOf(Protocol.Run(c, steps).db, id), ViewOf(Protocol.Run(c, steps + [step]).db, id))
    ensures id in Protocol.Run(c, steps + [step]).used
  {
    var s, s' := Protocol.Run(c, steps), Protocol.Run(c, steps + [step]);
    RunNext(c, steps, step);
    RunOk(c, steps);
    NextKeeps(c, s, step);
    assert CellStep(At(s.db, id), At(s'.db, id));
    assert CellOk(c.hash, id, At(s.db, id)) && CellOk(c.hash, id, At(s'.db, id));
    assert Invariant.CellIn(s, id).row.None? ==> Invariant.CellIn(s', id).row.None?;
    CellsEvolve(c.hash, id, s.db, s'.db);
  }

  datatype JointStep = Daemon(step: Protocol.Step) | Watcher(move: Watch.Step)

  datatype Joint = Joint(steps: seq<Protocol.Step>, session: Watch.Session)

  function Next(c: Protocol.Config, j: Joint, id: RequestId, step: JointStep): Joint {
    match step
    case Watcher(move) => if move.Store? then j else j.(session := Watch.Next(j.session, move))
    case Daemon(d) =>
      var steps := j.steps + [d];
      var session := j.session.(view := ViewOf(Protocol.Run(c, steps).db, id));
      Joint(steps, if d.Die? then session.(connection := None) else session)
  }

  /** The daemon and one watcher of request `id`, from a daemon that has issued that id. */
  function Run(c: Protocol.Config, start: seq<Protocol.Step>, id: RequestId, joint: seq<JointStep>): Joint {
    if joint == [] then
      Joint(start, Watch.Session(ViewOf(Protocol.Run(c, start).db, id), 0, [], None, None))
    else Next(c, Run(c, start, id, joint[..|joint| - 1]), id, joint[|joint| - 1])
  }

  /** A step of the daemon changes only what the database shows; its death also breaks the
      connection, and leaves the client what it has. */
  lemma DaemonLeavesTheClient(c: Protocol.Config, j: Joint, id: RequestId, step: Protocol.Step)
    ensures var session := Next(c, j, id, Daemon(step)).session;
      && session.emitted == j.session.emitted && session.next == j.session.next && session.end == j.session.end
      && session.connection == (if step.Die? then None else j.session.connection)
      && session.view == ViewOf(Protocol.Run(c, j.steps + [step]).db, id)
  {}

  /** The database when the joint run stands after these steps. */
  function DbAfter(c: Protocol.Config, start: seq<Protocol.Step>, id: RequestId, joint: seq<JointStep>): Db {
    Protocol.Run(c, Run(c, start, id, joint).steps).db
  }

  // ---------- a joint run is a session ----------

  /** The session step that a joint step is: a death breaks the connection, and any other
      step of the daemon changes what the database shows. */
  function SessionStep(c: Protocol.Config, j: Joint, id: RequestId, step: JointStep): Watch.Step {
    match step
    case Watcher(move) => if move.Store? then Watch.Store(j.session.view) else move
    case Daemon(d) =>
      if d.Die? then Watch.Break else Watch.Store(ViewOf(Protocol.Run(c, j.steps + [d]).db, id))
  }

  function Trace(
    c: Protocol.Config, start: seq<Protocol.Step>, id: RequestId, joint: seq<JointStep>): seq<Watch.Step> {
    if joint == [] then [] else
    var front := joint[..|joint| - 1];
    Trace(c, start, id, front) + [SessionStep(c, Run(c, start, id, front), id, joint[|joint| - 1])]
  }

  ghost predicate JointInv(c: Protocol.Config, j: Joint, id: RequestId) {
    && id in Protocol.Run(c, j.steps).used
    && j.session.view == ViewOf(Protocol.Run(c, j.steps).db, id)
    && Increasing(j.session.view.chunks)
  }

  lemma DaemonTraced(c: Protocol.Config, j: Joint, id: RequestId, step: Protocol.Step)
    requires JointInv(c, j, id)
    ensures var j' := Next(c, j, id, Daemon(step));
      JointInv(c, j', id) && j'.session == Watch.Next(j.session, SessionStep(c, j, id, Daemon(step)))
  {
    DaemonStepsEvolve(c, j.steps, step, id);
    RunNext(c, j.steps, step);
  }

  lemma MoveKeepsView(s: Watch.Session, move: Watch.Step)
    requires !move.Store?
    ensures Watch.Next(s, move).view == s.view
  {}

  lemma StepTraced(c: Protocol.Config, j: Joint, id: RequestId, step: JointStep)
    requires JointInv(c, j, id)
    ensures var j' := Next(c, j, id, step);
      JointInv(c, j', id) && j'.session == Watch.Next(j.session, SessionStep(c, j, id, step))
  {
    match step
    case Watcher(move) =>
      if !move.Store? {
        MoveKeepsView(j.session, move);
      }
    case Daemon(d) => DaemonTraced(c, j, id, d);
  }

  lemma StartOk(c: Protocol.Config, start: seq<Protocol.Step>, id: RequestId)
    requires id in Protocol.Run(c, start).used
    ensures JointInv(c, Run(c, start, id, []), id)
  {
    RunOk(c, start);
    assert CellOk(c.hash, id, Invariant.CellIn(Protocol.Run(c, start), id));
  }

  lemma {:induction false} JointTraced(
    c: Protocol.Config, start: seq<Protocol.Step>, id: RequestId, joint: seq<JointStep>)
    requires id in Protocol.Run(c, start).used
    ensures var j := Run(c, start, id, joint); var trace := Trace(c, start, id, joint);
      && JointInv(c, j, id) && |trace| == |joint|
      && j.session == Watch.Run(ViewOf(Protocol.Run(c, start).db, id), trace)
  {
    if joint == [] {
      StartOk(c, start, id);
    } else {
      var front := joint[..|joint| - 1];
      JointTraced(c, start, id, front);
      StepTraced(c, Run(c, start, id, front), id, joint[|joint| - 1]);
      var trace := Trace(c, start, id, joint);
      assert trace[..|trace| - 1] == Trace(c, start, id, front);
    }
  }

  lemma {:induction false} TracePrefix(
    c: Protocol.Config, start: seq<Protocol.Step>, id: RequestId, joint: seq<JointStep>, k: nat)
    requires k <= |joint|
    ensures |Trace(c, start, id, joint)| == |joint|
    ensures Trace(c, start, id, joint[..k]) == Trace(c, start, id, joint)[..k]
    ensures k < |joint| ==>
      Trace(c, start, id, joint)[k] == SessionStep(c, Run(c, start, id, joint[..k]), id, joint[k])
  {
    if joint != [] {
      var front := joint[..|joint| - 1];
      TracePrefix(c, start, id, front, if k < |joint| then k else k - 1);
      assert k < |joint| ==> front[..k] == joint[..k];
      assert k == |joint| ==> joint[..k] == joint;
    }
  }

  // ---------- what the watcher gets ----------

  /** Step `m` of the joint run is a page read of the watcher's connection. */
  predicate PageReadAt(
    c: Protocol.Config, start: seq<Protocol.Step>, id: RequestId, joint: seq<JointStep>, m: nat) {
    && m < |joint| && joint[m].Watcher?
    && Watch.ReadsPage(Run(c, start, id, joint[..m]).session, joint[m].move)
  }

  predicate StatusReadAt(
    c: Protocol.Config, start: seq<Protocol.Step>, id: RequestId, joint: seq<JointStep>, m: nat) {
    && m < |joint| && joint[m].Watcher?
    && Watch.ReadsStatus(Run(c, start, id, joint[..m]).session, joint[m].move)
  }

  ghost predicate LastReads(
    c: Protocol.Config, start: seq<Protocol.Step>, id: RequestId, joint: seq<JointStep>, p: nat, q: nat) {
    && PageReadAt(c, start, id, joint, p) && (forall m: nat :: PageReadAt(c, start, id, joint, m) ==> m <= p)
    && StatusReadAt(c, start, id, joint, q) && (forall m: nat :: StatusReadAt(c, start, id, joint, m) ==> m <= q)
  }

  lemma PrefixTraced(
    c: Protocol.Config, start: seq<Protocol.Step>, id: RequestId, joint: seq<JointStep>, m: nat)
    requires id in Protocol.Run(c, start).used && m <= |joint|
    ensures var view, trace := ViewOf(Protocol.Run(c, start).db, id), Trace(c, start, id, joint);
      && |trace| == |joint|
      && Watch.Run(view, trace[..m]) == Run(c, start, id, joint[..m]).session
      && Watch.Run(view, trace[..m]).view == ViewOf(DbAfter(c, start, id, joint[..m]), id)
      && (m < |joint| ==> trace[m] == SessionStep(c, Run(c, start, id, joint[..m]), id, joint[m]))
  {
    TracePrefix(c, start, id, joint, m);
    JointTraced(c, start, id, joint[..m]);
  }

  lemma ReadAtTraced(
    c: Protocol.Config, start: seq<Protocol.Step>, id: RequestId, joint: seq<JointStep>, m: nat)
    requires id in Protocol.Run(c, start).used
    ensures var view, trace := ViewOf(Protocol.Run(c, start).db, id), Trace(c, start, id, joint);
      && PageReadAt(c, start, id, joint, m) == Endings.PageReadAt(view, trace, m)
      && StatusReadAt(c, start, id, joint, m) == Endings.StatusReadAt(view, trace, m)
      && (m <= |joint| ==>
            m <= |trace| && Watch.Run(view, trace[..m]).view == ViewOf(DbAfter(c, start, id, joint[..m]), id))
  {
    JointTraced(c, start, id, joint);
    if m <= |joint| {
      PrefixTraced(c, start, id, joint, m);
    }
    if m < |joint| {
      SameRead(c, Run(c, start, id, joint[..m]), id, joint[m]);
    }
  }

  lemma SameRead(c: Protocol.Config, j: Joint, id: RequestId, step: JointStep)
    ensures var move := SessionStep(c, j, id, step);
      && Watch.ReadsPage(j.session, move) == (step.Watcher? && Watch.ReadsPage(j.session, step.move))
      && Watch.ReadsStatus(j.session, move) == (step.Watcher? && Watch.ReadsStatus(j.session, step.move))
  {}

  /** Whatever the daemon does meanwhile, deaths and restarts included, the client has emitted
      a prefix of the request's stored chunks. */
  lemma WatcherSeesThePrefix(c: Protocol.Config, start: seq<Protocol.Step>, id: RequestId, joint: seq<JointStep>)
    requires id in Protocol.Run(c, start).used
    ensures var emitted := Run(c, start, id, joint).session.emitted;
      emitted <= ChunksOf(DbAfter(c, start, id, joint), id) && Increasing(emitted)
  {
    StartOk(c, start, id);
    JointTraced(c, start, id, joint);
    Watch.ClientEmitsAPrefix(ViewOf(Protocol.Run(c, start).db, id), Trace(c, start, id, joint));
  }

  lemma LastReadsTraced(
    c: Protocol.Config, start: seq<Protocol.Step>, id: RequestId, joint: seq<JointStep>, p: nat, q: nat)
    requires id in Protocol.Run(c, start).used
    ensures var view, trace := ViewOf(Protocol.Run(c, start).db, id), Trace(c, start, id, joint);
      LastReads(c, start, id, joint, p, q) <==>
        Endings.LastPageRead(view, trace, p) && Endings.LastStatusRead(view, trace, q)
  {
    var view, trace := ViewOf(Protocol.Run(c, start).db, id), Trace(c, start, id, joint);
    forall m: nat
      ensures PageReadAt(c, start, id, joint, m) == Endings.PageReadAt(view, trace, m)
      ensures StatusReadAt(c, start, id, joint, m) == Endings.StatusReadAt(view, trace, m)
    {
      ReadAtTraced(c, start, id, joint, m);
    }
  }

  /** Told the end, the watcher has made both reads; and it has all the request's chunks if
      and only if the daemon stored none between the last page read and the last status read,
      so surely when the request had ended before that page read. */
  lemma WatcherEndIsComplete(
    c: Protocol.Config, start: seq<Protocol.Step>, id: RequestId, joint: seq<JointStep>, p: nat, q: nat)
    requires id in Protocol.Run(c, start).used
    requires Run(c, start, id, joint).session.end.Some? && LastReads(c, start, id, joint, p, q)
    ensures p < q
    ensures
      var stored := ChunksOf(DbAfter(c, start, id, joint), id);
      var atPage, atStatus := DbAfter(c, start, id, joint[..p]), DbAfter(c, start, id, joint[..q]);
      && (Run(c, start, id, joint).session.emitted == stored <==> ChunksOf(atPage, id) == ChunksOf(atStatus, id))
      && (id in atPage.requests && Terminal(atPage.requests[id].status) ==>
            Run(c, start, id, joint).session.emitted == stored)
  {
    StartOk(c, start, id);
    JointTraced(c, start, id, joint);
    LastReadsTraced(c, start, id, joint, p, q);
    ReadAtTraced(c, start, id, joint, p);
    ReadAtTraced(c, start, id, joint, q);
    Endings.EndIsComplete(ViewOf(Protocol.Run(c, start).db, id), Trace(c, start, id, joint), p, q);
  }

  lemma WatcherEndHasReads(c: Protocol.Config, start: seq<Protocol.Step>, id: RequestId, joint: seq<JointStep>)
    requires id in Protocol.Run(c, start).used && Run(c, start, id, joint).session.end.Some?
    ensures exists p: nat, q: nat :: LastReads(c, start, id, joint, p, q)
  {
    var view, trace := ViewOf(Protocol.Run(c, start).db, id), Trace(c, start, id, joint);
    StartOk(c, start, id);
    JointTraced(c, start, id, joint);
    Endings.EndHasReads(view, trace);
    var p: nat, q: nat :| Endings.LastPageRead(view, trace, p) && Endings.LastStatusRead(view, trace, q);
    LastReadsTraced(c, start, id, joint, p, q);
  }
}
