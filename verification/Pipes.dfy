/** The pipes between a command and the drains. `execute` calls Wait before it waits for the
    drains, and Wait closes the read ends once the process has exited, so what a drain has not
    read by then is lost. */
module Pipes {
  import opened Model
  import opened Tables
  import opened Output
  import Protocol
  import Safety
  import CapturedRuns
  import Reachability

  datatype Stream = Out | Err

  function Name(s: Stream): string {
    if s == Out then "stdout" else "stderr"
  }

  datatype Pipe = Pipe(written: Bytes, unread: Bytes)

  /** Both pipes, the blocks that the drains read so far, and whether Wait has closed the
      read ends. */
  datatype World = World(stdout: Pipe, stderr: Pipe, offers: seq<Offer>, closed: bool)

  const BUFFER := 32 * 1024

  datatype Step =
    | Write(stream: Stream, data: Bytes)
    | Read(stream: Stream, n: nat, capacity: bool)
    | Wait

  function PipeOf(w: World, s: Stream): Pipe {
    if s == Out then w.stdout else w.stderr
  }

  function WithPipe(w: World, s: Stream, p: Pipe): World {
    if s == Out then w.(stdout := p) else w.(stderr := p)
  }

  /** One step; on closed pipes, and for a read of nothing, it changes nothing. */
  function Next(w: World, step: Step): World {
    if w.closed then w else
    match step
    case Write(s, data) =>
      var p := PipeOf(w, s);
      WithPipe(w, s, Pipe(p.written + data, p.unread + data))
    case Read(s, n, capacity) =>
      var p := PipeOf(w, s);
      if 0 < n <= |p.unread| && n <= BUFFER then
        WithPipe(w, s, p.(unread := p.unread[n..])).(offers := w.offers + [Offer(Name(s), p.unread[..n], capacity)])
      else w
    case Wait => w.(closed := true)
  }

  function Run(steps: seq<Step>): World {
    if steps == [] then World(Pipe([], []), Pipe([], []), [], false)
    else Next(Run(steps[..|steps| - 1]), steps[|steps| - 1])
  }

  // ---------- one stream at a time ----------

  /** What the drains read from one stream. */
  function ReadOf(offers: seq<Offer>, s: Stream): Bytes {
    if offers == [] then [] else
    var last := offers[|offers| - 1];
    ReadOf(offers[..|offers| - 1], s) + if last.stream == Name(s) then last.data else []
  }

  /** What the stored chunks hold of one stream. */
  function StoredOf(chunks: seq<Chunk>, s: Stream): Bytes {
    if chunks == [] then [] else
    var last := chunks[|chunks| - 1];
    StoredOf(chunks[..|chunks| - 1], s) + if last.stream == Name(s) then last.data else []
  }

  predicate Named(offers: seq<Offer>) {
    forall o <- offers :: o.stream == Name(Out) || o.stream == Name(Err)
  }

  lemma ReadGrows(offers: seq<Offer>, o: Offer, s: Stream)
    ensures ReadOf(offers + [o], s) == ReadOf(offers, s) + if o.stream == Name(s) then o.data else []
  {
    assert (offers + [o])[..|offers|] == offers;
  }

  lemma {:induction false} ReadSizes(offers: seq<Offer>)
    requires Named(offers)
    ensures |ReadOf(offers, Out)| + |ReadOf(offers, Err)| == |Offered(offers)|
  {
    if offers != [] {
      ReadSizes(offers[..|offers| - 1]);
    }
  }

  lemma {:induction false} StoredSizes(chunks: seq<Chunk>)
    ensures |StoredOf(chunks, Out)| + |StoredOf(chunks, Err)| <= |Contents(chunks)|
  {
    if chunks != [] {
      StoredSizes(chunks[..|chunks| - 1]);
    }
  }

  // ---------- conservation ----------

  /** Nothing is lost or reordered on the way to the drains: what was read and what is still
      unread make up what was written, stream by stream. */
  predicate Conserved(w: World) {
    && NonEmpty(w.offers) && Named(w.offers)
    && forall s :: ReadOf(w.offers, s) + PipeOf(w, s).unread == PipeOf(w, s).written
  }

  lemma WriteConserves(w: World, s: Stream, data: Bytes)
    requires Conserved(w) && !w.closed
    ensures Conserved(Next(w, Write(s, data)))
  {
    var p := PipeOf(w, s);
    assert ReadOf(w.offers, s) + (p.unread + data) == p.written + data;
  }

  lemma Shift(read: Bytes, unread: Bytes, n: nat)
    requires n <= |unread|
    ensures (read + unread[..n]) + unread[n..] == read + unread
  {
    assert unread[..n] + unread[n..] == unread;
  }

  lemma ReadMoves(w: World, s: Stream, n: nat, capacity: bool, u: Stream)
    requires !w.closed && 0 < n <= |PipeOf(w, s).unread| && n <= BUFFER
    requires ReadOf(w.offers, u) + PipeOf(w, u).unread == PipeOf(w, u).written
    ensures var w' := Next(w, Read(s, n, capacity));
      ReadOf(w'.offers, u) + PipeOf(w', u).unread == PipeOf(w', u).written
  {
    var p := PipeOf(w, s);
    ReadGrows(w.offers, Offer(Name(s), p.unread[..n], capacity), u);
    Shift(ReadOf(w.offers, s), p.unread, n);
    assert ReadOf(w.offers, u) + [] == ReadOf(w.offers, u);
  }

  lemma OffersGrow(offers: seq<Offer>, o: Offer)
    requires NonEmpty(offers) && Named(offers) && o.data != [] && (o.stream == Name(Out) || o.stream == Name(Err))
    ensures NonEmpty(offers + [o]) && Named(offers + [o])
  {}

  lemma ReadConserves(w: World, s: Stream, n: nat, capacity: bool)
    requires Conserved(w) && !w.closed && 0 < n <= |PipeOf(w, s).unread| && n <= BUFFER
    ensures Conserved(Next(w, Read(s, n, capacity)))
  {
    OffersGrow(w.offers, Offer(Name(s), PipeOf(w, s).unread[..n], capacity));
    var w' := Next(w, Read(s, n, capacity));
    forall u ensures ReadOf(w'.offers, u) + PipeOf(w', u).unread == PipeOf(w', u).written {
      ReadMoves(w, s, n, capacity, u);
    }
  }

  lemma {:induction false} RunConserves(steps: seq<Step>)
    ensures Conserved(Run(steps))
  {
    if steps != [] {
      var w, step := Run(steps[..|steps| - 1]), steps[|steps| - 1];
      RunConserves(steps[..|steps| - 1]);
      if !w.closed {
        match step
        case Write(s, data) => WriteConserves(w, s, data);
        case Read(s, n, capacity) =>
          if 0 < n <= |PipeOf(w, s).unread| && n <= BUFFER {
            ReadConserves(w, s, n, capacity);
          }
        case Wait =>
      }
    }
  }

  /** After Wait nothing moves any more. */
  lemma {:induction false} WaitIsLast(steps: seq<Step>, k: nat)
    requires k < |steps| && steps[k].Wait?
    ensures Run(steps) == Run(steps[..k]).(closed := true)
  {
    var n := |steps| - 1;
    if k == n {
      assert steps[..n] == steps[..k];
    } else {
      WaitIsLast(steps[..n], k);
      assert steps[..n][..k] == steps[..k];
    }
  }

  // ---------- what is stored ----------

  /** The chunks are the blocks, one for one. */
  predicate SameBlocks(offers: seq<Offer>, chunks: seq<Chunk>) {
    && |chunks| == |offers|
    && forall k :: 0 <= k < |chunks| ==> chunks[k].stream == offers[k].stream && chunks[k].data == offers[k].data
  }

  lemma BlocksGrow(offers: seq<Offer>, chunks: seq<Chunk>, o: Offer, chunk: Chunk)
    requires SameBlocks(offers, chunks) && chunk.stream == o.stream && chunk.data == o.data
    ensures SameBlocks(offers + [o], chunks + [chunk])
  {}

  lemma UncutStep(before: Capture, offers: seq<Offer>, o: Offer, cap: int)
    requires CaptureOk(before, offers, cap) && SameBlocks(offers, before.chunks) && o.data != []
    requires !before.truncated && !Append(before, |offers|, o, cap).truncated
    ensures SameBlocks(offers + [o], Append(before, |offers|, o, cap).chunks)
  {
    assert forall c <- before.chunks :: c.sequence < |offers|;
    AppendStores(before, |offers|, o, cap);
    BlocksGrow(offers, before.chunks, o, Chunk(|offers|, o.stream, o.data));
  }

  lemma UncutBefore(offers: seq<Offer>, cap: int)
    requires offers != [] && !Drain(offers, cap).truncated
    ensures var n := |offers| - 1; var before := Drain(offers[..n], cap);
      !before.truncated && Drain(offers, cap) == Append(before, n, offers[n], cap)
  {}

  lemma UncutGrows(offers: seq<Offer>, o: Offer, cap: int)
    requires NonEmpty(offers) && o.data != [] && SameBlocks(offers, Drain(offers, cap).chunks)
    requires !Drain(offers, cap).truncated && !Append(Drain(offers, cap), |offers|, o, cap).truncated
    ensures SameBlocks(offers + [o], Append(Drain(offers, cap), |offers|, o, cap).chunks)
  {
    DrainKeepsAPrefix(offers, cap);
    UncutStep(Drain(offers, cap), offers, o, cap);
  }

  /** A capture that lost nothing holds the blocks as they were read. */
  lemma {:induction false} UncutIsExact(offers: seq<Offer>, cap: int)
    requires NonEmpty(offers) && !Drain(offers, cap).truncated
    ensures SameBlocks(offers, Drain(offers, cap).chunks)
  {
    if offers != [] {
      var n := |offers| - 1;
      UncutBefore(offers, cap);
      UncutIsExact(offers[..n], cap);
      UncutGrows(offers[..n], offers[n], cap);
      assert offers[..n] + [offers[n]] == offers;
    }
  }

  lemma {:induction false} BlocksAreRead(offers: seq<Offer>, chunks: seq<Chunk>, s: Stream)
    requires SameBlocks(offers, chunks)
    ensures StoredOf(chunks, s) == ReadOf(offers, s)
  {
    if chunks != [] {
      BlocksAreRead(offers[..|offers| - 1], chunks[..|chunks| - 1], s);
    }
  }

  /** Whether the stored output is all that the command wrote, on both streams. */
  ghost predicate Complete(chunks: seq<Chunk>, w: World) {
    forall s :: StoredOf(chunks, s) == PipeOf(w, s).written
  }

  lemma UncutIsComplete(w: World, cap: int)
    requires Conserved(w) && !Drain(w.offers, cap).truncated
    ensures Complete(Drain(w.offers, cap).chunks, w) <==> forall s :: PipeOf(w, s).unread == []
  {
    UncutIsExact(w.offers, cap);
    forall s ensures StoredOf(Drain(w.offers, cap).chunks, s) == PipeOf(w, s).written <==> PipeOf(w, s).unread == [] {
      BlocksAreRead(w.offers, Drain(w.offers, cap).chunks, s);
      assert |ReadOf(w.offers, s) + PipeOf(w, s).unread| == |PipeOf(w, s).written|;
    }
  }

  lemma CompleteIsUncut(w: World, cap: int)
    requires Conserved(w) && Complete(Drain(w.offers, cap).chunks, w)
    ensures !Drain(w.offers, cap).truncated
  {
    var chunks := Drain(w.offers, cap).chunks;
    DrainKeepsAPrefix(w.offers, cap);
    StoredSizes(chunks);
    ReadSizes(w.offers);
    assert |ReadOf(w.offers, Out)| <= |PipeOf(w, Out).written| == |StoredOf(chunks, Out)|;
    assert |ReadOf(w.offers, Err)| <= |PipeOf(w, Err).written| == |StoredOf(chunks, Err)|;
  }

  /** All that a command wrote is stored, stream by stream, if and only if the capture was not
      cut and both pipes were empty when Wait closed them. */
  lemma WrittenIsStored(steps: seq<Step>, k: nat, cap: int)
    requires k < |steps| && steps[k].Wait?
    ensures Complete(Drain(Run(steps).offers, cap).chunks, Run(steps)) <==>
      !Drain(Run(steps).offers, cap).truncated && forall s :: PipeOf(Run(steps[..k]), s).unread == []
  {
    RunConserves(steps);
    WaitIsLast(steps, k);
    forall s ensures PipeOf(Run(steps), s) == PipeOf(Run(steps[..k]), s) {}
    if Complete(Drain(Run(steps).offers, cap).chunks, Run(steps)) {
      CompleteIsUncut(Run(steps), cap);
    }
    if !Drain(Run(steps).offers, cap).truncated {
      UncutIsComplete(Run(steps), cap);
    }
  }

  /** The same in a run of the daemon: `io` is what happened on the pipes of the one execution
      of request `id`, and the blocks its drains read are those that the run appended. */
  lemma CommandOutputIsStored(
    c: Protocol.Config, run: seq<Protocol.Step>, id: RequestId, io: seq<Step>, k: nat)
    requires CapturedRuns.Clean(c, run, id)
    requires id in Protocol.Run(c, run).db.executions && Completed(Protocol.Run(c, run).db.executions[id])
    requires k < |io| && io[k].Wait? && CapturedRuns.OffersOf(c, run, id) == Run(io).offers
    ensures id in Protocol.Run(c, run).db.requests
    ensures var db := Protocol.Run(c, run).db;
      Complete(ChunksOf(db, id), Run(io)) <==>
        !db.requests[id].truncated && forall s :: PipeOf(Run(io[..k]), s).unread == []
  {
    CapturedRuns.FinishedIsDrained(c, run, id);
    WrittenIsStored(io, k, c.outputCap);
  }

  /** Output that the drain reads before Wait is stored: a short text on either stream. */
  lemma ShortOutputIsStored(s: Stream, data: Bytes, cap: int)
    requires 0 < |data| <= cap && |data| <= 32768
    ensures var w := Run([Write(s, data), Read(s, |data|, true), Wait]);
      && PipeOf(w, s) == Pipe(data, []) && w.offers == [Offer(Name(s), data, true)] && w.closed
      && Drain(w.offers, cap) == Capture([Chunk(0, Name(s), data)], |data|, false)
  {
    var steps := [Write(s, data), Read(s, |data|, true), Wait];
    RunThree(steps);
    var w := Next(Next(Run([]), steps[0]), steps[1]);
    assert data[..|data|] == data && [] + data == data;
    assert PipeOf(w, s) == Pipe(data, []);
    assert w.offers == [Offer(Name(s), data, true)];
    var offers := w.offers;
    assert offers[..0] == [];
    assert Drain(offers, cap) == Append(NO_CAPTURE, 0, offers[0], cap);
    assert InsertChunk([], Chunk(0, Name(s), data)) == [Chunk(0, Name(s), data)];
  }

  lemma RunThree(steps: seq<Step>)
    requires |steps| == 3
    ensures Run(steps) == Next(Next(Next(Run([]), steps[0]), steps[1]), steps[2])
  {
    assert steps[..2][..1] == steps[..1] && steps[..1][..0] == [];
    assert Run(steps[..1]) == Next(Run([]), steps[0]);
    assert Run(steps[..2]) == Next(Run(steps[..1]), steps[1]);
  }

  /** A byte that is written just before the exit can be lost without a trace: nothing is
      stored and the capture does not count as cut. */
  lemma TailCanBeLost(cap: int)
    ensures exists steps: seq<Step>, k: nat ::
      && k < |steps| && steps[k].Wait?
      && PipeOf(Run(steps), Out).written == [1] && Run(steps).offers == []
      && Drain(Run(steps).offers, cap) == NO_CAPTURE && !NO_CAPTURE.truncated
  {
    var steps := [Write(Out, [1]), Wait];
    assert steps[..1][..0] == [] && steps[..1][0] == Write(Out, [1]);
    assert Run(steps[..1]) == Next(Run([]), Write(Out, [1]));
    assert steps[1].Wait? && steps[..2] == steps;
  }

  lemma {:induction false} CalmRunsAreClean(c: Protocol.Config, run: seq<Protocol.Step>, id: RequestId)
    requires forall step <- run :: Reachability.Calm(step)
    ensures CapturedRuns.Clean(c, run, id) && CapturedRuns.OffersOf(c, run, id) == []
  {
    if run != [] {
      CalmRunsAreClean(c, run[..|run| - 1], id);
      assert Reachability.Calm(run[|run| - 1]);
    }
  }

  /** A run whose request succeeds, with nothing stored and no flag, although its command
      wrote a byte on the pipes before Wait closed them. */
  ghost predicate Loses(c: Protocol.Config, run: seq<Protocol.Step>, id: RequestId, io: seq<Step>, k: nat) {
    var db := Protocol.Run(c, run).db;
    && CapturedRuns.Clean(c, run, id) && CapturedRuns.OffersOf(c, run, id) == Run(io).offers
    && k < |io| && io[k].Wait? && PipeOf(Run(io), Out).written == [1]
    && id in db.requests && db.requests[id].status == Succeeded && !db.requests[id].truncated
    && ChunksOf(db, id) == []
  }

  lemma CalmSuccess(c: Protocol.Config, run: seq<Protocol.Step>, id: RequestId)
    requires forall step <- run :: Reachability.Calm(step)
    requires var db := Protocol.Run(c, run).db; id in db.requests && db.requests[id].status == Succeeded
    ensures CapturedRuns.Clean(c, run, id) && CapturedRuns.OffersOf(c, run, id) == []
    ensures ChunksOf(Protocol.Run(c, run).db, id) == [] && !Protocol.Run(c, run).db.requests[id].truncated
  {
    CalmRunsAreClean(c, run, id);
    Safety.TablesAgree(c, run, id);
    CapturedRuns.FinishedIsDrained(c, run, id);
  }

  /** So the daemon can report success and complete output although a byte was lost: from the
      empty store, any request that can succeed can do so in such a run. */
  lemma SuccessCanLoseOutput(c: Protocol.Config, r: Request)
    requires c.maxPendingPerUid > 0 && c.maxPendingTotal > 0 && !r.denied && r.id != "" && c.hash(r) != ""
    ensures exists run, io, k: nat :: Loses(c, run, r.id, io, k)
  {
    Reachability.EveryRequestCanSucceed(c, r);
    var run :|
      && (forall step <- run :: Reachability.Calm(step))
      && r.id in Protocol.Run(c, run).db.requests && Protocol.Run(c, run).db.requests[r.id].status == Succeeded
      && Protocol.Spawned(r.id, r.executable, r.argv, r.cwd) in Protocol.Run(c, run).log;
    CalmSuccess(c, run, r.id);
    TailCanBeLost(c.outputCap);
    var io: seq<Step>, k: nat :|
      && k < |io| && io[k].Wait? && PipeOf(Run(io), Out).written == [1] && Run(io).offers == []
      && Drain(Run(io).offers, c.outputCap) == NO_CAPTURE && !NO_CAPTURE.truncated;
    assert Loses(c, run, r.id, io, k);
  }
}
