/** A run of the daemon and a watcher in which the watcher is told the end without the last
    output: the last append and the end fall between the watcher's two reads. */
module MissedOutput {
  import opened Model
  import opened Tables
  import opened Protocol
  import opened Safety
  import opened Reachability
  import Output
  import Watch
  import WatchedRuns

  /** Some joint run from `start` ends with the daemon in `s` and the watcher in `w`. */
  ghost predicate Meets(c: Config, start: seq<Step>, id: RequestId, s: System, w: Watch.Session) {
    exists joint :: var j := WatchedRuns.Run(c, start, id, joint); Run(c, j.steps) == s && j.session == w
  }

  lemma JointNext(
    c: Config, start: seq<Step>, id: RequestId, joint: seq<WatchedRuns.JointStep>, step: WatchedRuns.JointStep)
    ensures WatchedRuns.Run(c, start, id, joint + [step]) ==
      WatchedRuns.Next(c, WatchedRuns.Run(c, start, id, joint), id, step)
  {
    assert (joint + [step])[..|joint|] == joint;
  }

  lemma DaemonMoves(c: Config, start: seq<Step>, id: RequestId, s: System, w: Watch.Session, step: Step)
    requires Meets(c, start, id, s, w) && !step.Die?
    ensures Meets(c, start, id, Next(c, s, step), w.(view := WatchedRuns.ViewOf(Next(c, s, step).db, id)))
  {
    var joint :| var j := WatchedRuns.Run(c, start, id, joint); Run(c, j.steps) == s && j.session == w;
    JointNext(c, start, id, joint, WatchedRuns.Daemon(step));
    RunNext(c, WatchedRuns.Run(c, start, id, joint).steps, step);
  }

  lemma WatcherMoves(c: Config, start: seq<Step>, id: RequestId, s: System, w: Watch.Session, move: Watch.Step)
    requires Meets(c, start, id, s, w) && !move.Store?
    ensures Meets(c, start, id, s, Watch.Next(w, move))
  {
    var joint :| var j := WatchedRuns.Run(c, start, id, joint); Run(c, j.steps) == s && j.session == w;
    JointNext(c, start, id, joint, WatchedRuns.Watcher(move));
  }

  // ---------- the daemon's part ----------

  const LAST: Chunk := Chunk(0, "stdout", [1])

  /** A read of one byte. */
  function OneByte(r: Request): Input {
    Smooth(r).(data := LAST.data, stream := LAST.stream, ends := false)
  }

  function ItemOf(c: Config, r: Request): Item {
    Item(r, c.hash(r), Approved)
  }

  function Reading(c: Config, r: Request): System {
    UnderWay(c, r, ExecRun(ItemOf(c, r), 0), true)
  }

  /** After the append, with `bytes` counted so far. */
  function Appended(c: Config, r: Request, bytes: int, t: Thread): System {
    UnderWay(c, r, t, true).(
      db := Db(map[r.id := Row(r, c.hash(r), Executing, bytes, false)],
               map[r.id := ApprovalRow(RootApproval(c, r), true)],
               map[r.id := STARTED], map[r.id := [LAST]], true))
  }

  function Ended(c: Config, r: Request): System {
    Finished(c, r).(
      db := Db(map[r.id := Row(r, c.hash(r), Succeeded, 1, false)],
               map[r.id := ApprovalRow(RootApproval(c, r), true)],
               map[r.id := Execution(true, Some(0), None)], map[r.id := [LAST]], true))
  }

  /** A step of the only thread that leaves no history: its operation, and what it becomes. */
  lemma ThreadMoves(c: Config, s: System, t: Thread, i: Input, op: Op, n: Thread)
    requires s.phase.Serving? && s.threads == map[1 := t] && !IsSubmit(t) && !IsReview(t) && !IsPrepare(t)
    requires ActRun(c, s, t, i) == Out(op, Some(n), None, s.executing, []) && !op.Insert?
    ensures Next(c, s, Move(1, 2, i)) == s.(db := Apply(s.db, op), threads := map[1 := n])
  {
    assert s.threads[1 := n] == map[1 := n];
    assert s.log + [] == s.log;
  }

  lemma Reads(c: Config, r: Request)
    requires c.outputCap > 0
    ensures Next(c, Reading(c, r), Move(1, 2, OneByte(r))) ==
      UnderWay(c, r, ExecInsert(ItemOf(c, r), 0, LAST.data, LAST.stream, false), true)
  {
    var n := ExecInsert(ItemOf(c, r), 0, LAST.data, LAST.stream, false);
    ThreadMoves(c, Reading(c, r), ExecRun(ItemOf(c, r), 0), OneByte(r), Nop, n);
  }

  lemma Inserts(c: Config, r: Request)
    ensures var t := ExecInsert(ItemOf(c, r), 0, LAST.data, LAST.stream, false);
      Next(c, UnderWay(c, r, t, true), Move(1, 2, OneByte(r))) ==
        Appended(c, r, 0, ExecCount(ItemOf(c, r), 0, 1, false))
  {
    var t := ExecInsert(ItemOf(c, r), 0, LAST.data, LAST.stream, false);
    var s := UnderWay(c, r, t, true);
    ThreadMoves(c, s, t, OneByte(r), AddChunk(r.id, LAST), ExecCount(ItemOf(c, r), 0, 1, false));
    assert InsertChunk([], LAST) == [LAST];
    assert Apply(s.db, AddChunk(r.id, LAST)) == Appended(c, r, 0, t).db;
  }

  lemma Counts(c: Config, r: Request)
    ensures Next(c, Appended(c, r, 0, ExecCount(ItemOf(c, r), 0, 1, false)), Move(1, 2, OneByte(r))) ==
      Appended(c, r, 1, ExecRun(ItemOf(c, r), 1))
  {
    var t := ExecCount(ItemOf(c, r), 0, 1, false);
    ThreadMoves(c, Appended(c, r, 0, t), t, OneByte(r), AddBytes(r.id, 1, false), ExecRun(ItemOf(c, r), 1));
  }

  lemma Exits(c: Config, r: Request)
    ensures Next(c, Appended(c, r, 1, ExecRun(ItemOf(c, r), 1)), Move(1, 2, Smooth(r))) ==
      Appended(c, r, 1, ExecFinish(r.id, Some(0), None))
  {
    var t := ExecRun(ItemOf(c, r), 1);
    ThreadMoves(c, Appended(c, r, 1, t), t, Smooth(r), Nop, ExecFinish(r.id, Some(0), None));
  }

  lemma FinishApplies(c: Config, r: Request, t: Thread)
    ensures Apply(Appended(c, r, 1, t).db, Finish(r.id, Some(0), None)) == Ended(c, r).db
  {}

  lemma Finishes(c: Config, r: Request)
    ensures Next(c, Appended(c, r, 1, ExecFinish(r.id, Some(0), None)), Move(1, 2, Smooth(r))) == Ended(c, r)
  {
    var t := ExecFinish(r.id, Some(0), None);
    ThreadMoves(c, Appended(c, r, 1, t), t, Smooth(r), Finish(r.id, Some(0), None), ExecDone(r.id));
    FinishApplies(c, r, t);
  }

  /** Five steps of the daemon store the last byte and end the request. */
  lemma DaemonEnds(c: Config, r: Request, start: seq<Step>, w: Watch.Session)
    requires c.outputCap > 0 && Meets(c, start, r.id, Reading(c, r), w)
    ensures Meets(c, start, r.id, Ended(c, r), w.(view := Watch.View([LAST], Some(Succeeded))))
  {
    var item := ItemOf(c, r);
    var insert, count := ExecInsert(item, 0, LAST.data, LAST.stream, false), ExecCount(item, 0, 1, false);
    var finish := ExecFinish(r.id, Some(0), None);
    var i, end := Move(1, 2, OneByte(r)), Move(1, 2, Smooth(r));
    Reads(c, r);
    Inserts(c, r);
    Counts(c, r);
    Exits(c, r);
    Finishes(c, r);
    DaemonMoves(c, start, r.id, Reading(c, r), w, i);
    var w1 := w.(view := WatchedRuns.ViewOf(UnderWay(c, r, insert, true).db, r.id));
    DaemonMoves(c, start, r.id, UnderWay(c, r, insert, true), w1, i);
    var w2 := w.(view := WatchedRuns.ViewOf(Appended(c, r, 0, count).db, r.id));
    DaemonMoves(c, start, r.id, Appended(c, r, 0, count), w2, i);
    var w3 := w.(view := WatchedRuns.ViewOf(Appended(c, r, 1, ExecRun(item, 1)).db, r.id));
    DaemonMoves(c, start, r.id, Appended(c, r, 1, ExecRun(item, 1)), w3, end);
    var w4 := w.(view := WatchedRuns.ViewOf(Appended(c, r, 1, finish).db, r.id));
    DaemonMoves(c, start, r.id, Appended(c, r, 1, finish), w4, end);
  }

  // ---------- the watcher's part ----------

  /** Connected, and past a page read of the empty log. */
  function Waiting(view: Watch.View): Watch.Session {
    Watch.Session(view, 0, [], Some(Watch.Connection(Watch.Asking(0), [], 0, 0)), None)
  }

  lemma WatcherReads()
    ensures var view := Watch.View([], Some(Executing));
      Watch.Next(Watch.Next(Watch.Session(view, 0, [], None, None), Watch.Connect(0)), Watch.ReadPage(0)) ==
        Waiting(view)
  {
    var view := Watch.View([], Some(Executing));
    var w := Watch.Next(Watch.Session(view, 0, [], None, None), Watch.Connect(0));
    var c := Watch.Connection(Watch.Reading(0), [], 0, 0);
    assert w.connection == Some(c);
    var rows := Output.From(view.chunks, 0);
    assert rows == [] && Output.Page(rows, 0) == [];
    assert c.wire + Watch.Sent(Output.Page(rows, 0)) == [];
  }

  lemma WatcherEnds()
    ensures var view := Watch.View([LAST], Some(Succeeded));
      Watch.Next(Watch.Next(Waiting(view), Watch.ReadStatus), Watch.Receive) ==
        Watch.Session(view, 0, [], None, Some(Watch.End(Succeeded)))
  {}

  /** The unconditional claim is false of the daemon: from the empty store, any request that
      can succeed can do so in a run whose watcher is told the end with nothing received,
      although output is stored. */
  lemma EndCanMissOutput(c: Config, r: Request)
    requires c.maxPendingPerUid > 0 && c.maxPendingTotal > 0 && c.outputCap > 0
    requires !r.denied && r.id != "" && c.hash(r) != ""
    ensures exists start, joint ::
      var w := WatchedRuns.Run(c, start, r.id, joint).session;
      && r.id in Run(c, start).used
      && w.end == Some(Watch.End(Succeeded)) && w.emitted == []
      && ChunksOf(WatchedRuns.DbAfter(c, start, r.id, joint), r.id) == [LAST]
  {
    Decides(c, r);
    Spawns(c, r);
    var start :| Run(c, start) == Reading(c, r) && forall step <- start :: Calm(step);
    var running, done := Watch.View([], Some(Executing)), Watch.View([LAST], Some(Succeeded));
    var w0 := Watch.Session(running, 0, [], None, None);
    assert WatchedRuns.ViewOf(Reading(c, r).db, r.id) == running;
    assert WatchedRuns.Run(c, start, r.id, []) == WatchedRuns.Joint(start, w0);
    assert Meets(c, start, r.id, Reading(c, r), w0);
    WatcherMoves(c, start, r.id, Reading(c, r), w0, Watch.Connect(0));
    WatcherMoves(c, start, r.id, Reading(c, r), Watch.Next(w0, Watch.Connect(0)), Watch.ReadPage(0));
    WatcherReads();
    DaemonEnds(c, r, start, Waiting(running));
    WatcherMoves(c, start, r.id, Ended(c, r), Waiting(done), Watch.ReadStatus);
    WatcherMoves(c, start, r.id, Ended(c, r), Watch.Next(Waiting(done), Watch.ReadStatus), Watch.Receive);
    WatcherEnds();
    var w := Watch.Session(done, 0, [], None, Some(Watch.End(Succeeded)));
    var joint :| var j := WatchedRuns.Run(c, start, r.id, joint); Run(c, j.steps) == Ended(c, r) && j.session == w;
    assert WatchedRuns.DbAfter(c, start, r.id, joint) == Ended(c, r).db;
  }
}
