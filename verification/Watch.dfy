/** Watching a request: the server streams pages of a growing log, the connection may break
    after any message, and the client reconnects from the number it wants next. */
module Watch {
  import opened Model
  import opened Tables
  import opened Output

  /** What the database shows a watcher: the chunks, and the status while the row exists. */
  datatype View = View(chunks: seq<Chunk>, status: Option<Status>)

  predicate Finished(v: View) {
    v.status.Some? && Terminal(v.status.value)
  }

  /** How the database may change under a watcher. */
  predicate Evolves(v: View, v': View) {
    && v.chunks <= v'.chunks && Increasing(v'.chunks)
    && (Finished(v) ==> v'.chunks == v.chunks && (v'.status == v.status || v'.status.None?))
    && (v.status.None? ==> v' == v)
  }

  datatype Message = Data(chunk: Chunk) | End(status: Status)

  /** The server side of one connection: its next read, and its `after` variable. */
  datatype Server =
    | Reading(after: nat)
    | Asking(after: nat)
    | Closed

  /** `from` counts the chunks before the first message in flight, `sent` those before the
      first chunk not yet read by the server. */
  datatype Connection = Connection(server: Server, wire: seq<Message>, from: nat, sent: nat)

  datatype Session = Session(
    view: View, next: nat, emitted: seq<Chunk>, connection: Option<Connection>, end: Option<Message>)

  datatype Step =
    | Store(view: View)
    | Connect(after: nat)
    | ReadPage(limit: int)
    | ReadStatus
    | Receive
    | Break

  function Sent(chunks: seq<Chunk>): (m: seq<Message>)
    ensures |m| == |chunks| && forall k :: 0 <= k < |m| ==> m[k] == Data(chunks[k])
  {
    seq(|chunks|, k requires 0 <= k < |chunks| => Data(chunks[k]))
  }

  function Below(chunks: seq<Chunk>, after: nat): nat {
    if chunks == [] || chunks[0].sequence >= after then 0 else 1 + Below(chunks[1..], after)
  }

  function PageStep(s: Session, c: Connection, limit: int): Session
    requires c.server.Reading?
  {
    var rows := From(s.view.chunks, c.server.after);
    var page := Page(rows, limit);
    var after := if page == [] then c.server.after else page[|page| - 1].sequence + 1;
    var server := if |page| < |rows| then Reading(after) else Asking(after);
    s.(connection := Some(c.(server := server, wire := c.wire + Sent(page), sent := c.sent + |page|)))
  }

  function StatusStep(s: Session, c: Connection): Session
    requires c.server.Asking?
  {
    if s.view.status.None? then s.(connection := Some(c.(server := Closed)))
    else if !Terminal(s.view.status.value) then s.(connection := Some(c.(server := Reading(c.server.after))))
    else s.(connection := Some(c.(server := Closed, wire := c.wire + [End(s.view.status.value)])))
  }

  function ReceiveStep(s: Session, c: Connection): Session
    requires c.wire != []
  {
    match c.wire[0]
    case End(_) => s.(connection := None, end := Some(c.wire[0]))
    case Data(chunk) =>
      var rest := Some(c.(wire := c.wire[1..], from := c.from + 1));
      if chunk.sequence < s.next then s.(connection := rest)
      else s.(connection := rest, emitted := s.emitted + [chunk], next := chunk.sequence + 1)
  }

  /** The step is a page read that a connected server makes. */
  predicate ReadsPage(s: Session, step: Step) {
    step.ReadPage? && s.connection.Some? && s.connection.value.server.Reading?
  }

  predicate ReadsStatus(s: Session, step: Step) {
    step.ReadStatus? && s.connection.Some? && s.connection.value.server.Asking?
  }

  /** One step; a step that is not enabled changes nothing. The client asks for the number it
      wants next; any earlier number would do as well. */
  function Next(s: Session, step: Step): Session {
    match step
    case Store(v) => if Evolves(s.view, v) then s.(view := v) else s
    case Connect(after) =>
      if s.connection.None? && s.end.None? && after <= s.next then
        var n := Below(s.view.chunks, after);
        s.(connection := Some(Connection(Reading(after), [], n, n)))
      else s
    case Break => s.(connection := None)
    case ReadPage(limit) =>
      if ReadsPage(s, step) then PageStep(s, s.connection.value, limit) else s
    case ReadStatus =>
      if ReadsStatus(s, step) then StatusStep(s, s.connection.value) else s
    case Receive =>
      if s.connection.Some? && s.connection.value.wire != [] then ReceiveStep(s, s.connection.value) else s
  }

  /** A session on a log that starts as `view`, with a client that has emitted nothing. */
  function Run(view: View, steps: seq<Step>): Session {
    if steps == [] then Session(view, 0, [], None, None)
    else Next(Run(view, steps[..|steps| - 1]), steps[|steps| - 1])
  }

  // ---------- invariant ----------

  function After(chunks: seq<Chunk>): nat {
    if chunks == [] then 0 else chunks[|chunks| - 1].sequence + 1
  }

  /** `after` separates the first `n` chunks from the rest, now and after any growth. */
  predicate Separates(chunks: seq<Chunk>, after: nat, n: nat) {
    && n <= |chunks|
    && (forall k :: 0 <= k < n ==> chunks[k].sequence < after)
    && (forall k :: n <= k < |chunks| ==> chunks[k].sequence >= after)
    && (n == |chunks| ==> after <= After(chunks))
  }

  predicate ConnectionOk(s: Session, c: Connection) {
    && c.from <= c.sent <= |s.view.chunks| && c.from <= |s.emitted|
    && (!c.server.Closed? ==> Separates(s.view.chunks, c.server.after, c.sent))
    && (c.server.Asking? ==> |s.emitted| <= c.sent)
    && c.sent - c.from <= |c.wire| <= c.sent - c.from + 1
    && (forall k :: 0 <= k < c.sent - c.from ==> c.wire[k] == Data(s.view.chunks[c.from + k]))
    && (|c.wire| == c.sent - c.from + 1 ==>
          c.server.Closed? && |s.emitted| <= c.sent && EndOk(s.view, c.wire[c.sent - c.from]))
  }

  /** The log keeps the chunks it has. */
  predicate Settled(v: View) {
    Finished(v) || v.status.None?
  }

  predicate EndOk(v: View, m: Message) {
    m.End? && Settled(v)
  }

  predicate SessionOk(s: Session) {
    && Increasing(s.view.chunks)
    && s.emitted <= s.view.chunks
    && s.next == After(s.emitted)
    && (s.connection.Some? ==> ConnectionOk(s, s.connection.value))
    && (s.end.Some? ==> s.connection.None? && EndOk(s.view, s.end.value))
  }

  lemma PrefixSeparates(chunks: seq<Chunk>, more: seq<Chunk>, after: nat, n: nat)
    requires Separates(chunks, after, n) && chunks <= more && Increasing(more)
    ensures Separates(more, after, n)
  {
    if |chunks| > 0 {
      assert chunks[|chunks| - 1] == more[|chunks| - 1];
    }
  }

  lemma StoreKeeps(s: Session, v: View)
    requires SessionOk(s) && Evolves(s.view, v)
    ensures SessionOk(s.(view := v))
  {
    if s.connection.Some? {
      var c := s.connection.value;
      if !c.server.Closed? {
        PrefixSeparates(s.view.chunks, v.chunks, c.server.after, c.sent);
      }
    }
  }

  lemma {:induction false} BelowSeparates(chunks: seq<Chunk>, after: nat)
    requires Increasing(chunks)
    ensures var n := Below(chunks, after);
      && n <= |chunks|
      && (forall k :: 0 <= k < n ==> chunks[k].sequence < after)
      && (forall k :: n <= k < |chunks| ==> chunks[k].sequence >= after)
  {
    if chunks != [] && chunks[0].sequence < after {
      BelowSeparates(chunks[1..], after);
    }
  }

  lemma ConnectKeeps(s: Session, after: nat)
    requires SessionOk(s)
    ensures SessionOk(Next(s, Connect(after)))
  {
    if s.connection.None? && s.end.None? && after <= s.next {
      var n := Below(s.view.chunks, after);
      BelowSeparates(s.view.chunks, after);
      var e := |s.emitted|;
      assert e > 0 ==> s.emitted[e - 1] == s.view.chunks[e - 1];
      assert e < |s.view.chunks| ==> s.next <= s.view.chunks[e].sequence;
    }
  }

  /** Just above the last of the first `n` chunks is where the rest begins. */
  lemma CutSeparates(chunks: seq<Chunk>, n: nat)
    requires Increasing(chunks) && 0 < n <= |chunks|
    ensures Separates(chunks, chunks[n - 1].sequence + 1, n)
  {}

  /** A page is the next part of the log. */
  lemma PageIsPart(chunks: seq<Chunk>, after: nat, sent: nat, limit: int)
    requires Separates(chunks, after, sent)
    ensures var page := Page(From(chunks, after), limit); var n := sent + |page|;
      n <= |chunks| && page == chunks[sent..n] && (|page| == |From(chunks, after)| <==> n == |chunks|)
  {
    FromIsSuffix(chunks, after, sent);
  }

  lemma PageSeparates(chunks: seq<Chunk>, after: nat, sent: nat, limit: int)
    requires Increasing(chunks) && Separates(chunks, after, sent)
    ensures var page := Page(From(chunks, after), limit); var n := sent + |page|;
      && n <= |chunks| && page == chunks[sent..n] && (|page| == |From(chunks, after)| <==> n == |chunks|)
      && Separates(chunks, if page == [] then after else page[|page| - 1].sequence + 1, n)
  {
    PageIsPart(chunks, after, sent, limit);
    var page := Page(From(chunks, after), limit);
    if page != [] {
      CutSeparates(chunks, sent + |page|);
    }
  }

  /** Sending the next part of the log extends what is in flight. */
  lemma SentExtends(chunks: seq<Chunk>, wire: seq<Message>, from: nat, sent: nat, n: nat)
    requires from <= sent <= n <= |chunks| && |wire| == sent - from
    requires forall k :: 0 <= k < |wire| ==> wire[k] == Data(chunks[from + k])
    ensures var wire' := wire + Sent(chunks[sent..n]);
      |wire'| == n - from && forall k :: 0 <= k < |wire'| ==> wire'[k] == Data(chunks[from + k])
  {}

  lemma ExtendKeeps(s: Session, c: Connection, server: Server, n: nat)
    requires ConnectionOk(s, c) && c.server.Reading? && c.sent <= n <= |s.view.chunks|
    requires !server.Closed? && Separates(s.view.chunks, server.after, n) && (server.Asking? ==> |s.emitted| <= n)
    ensures ConnectionOk(s, c.(server := server, wire := c.wire + Sent(s.view.chunks[c.sent..n]), sent := n))
  {
    assert |c.wire| == c.sent - c.from;
    SentExtends(s.view.chunks, c.wire, c.from, c.sent, n);
  }

  lemma PageKeeps(s: Session, limit: int)
    requires SessionOk(s) && s.connection.Some? && s.connection.value.server.Reading?
    ensures SessionOk(PageStep(s, s.connection.value, limit))
  {
    var c := s.connection.value;
    PageSeparates(s.view.chunks, c.server.after, c.sent, limit);
    var c' := PageStep(s, c, limit).connection.value;
    ExtendKeeps(s, c, c'.server, c'.sent);
    Reconnected(s, c');
  }

  lemma Reconnected(s: Session, c: Connection)
    requires SessionOk(s) && s.connection.Some? && ConnectionOk(s, c)
    ensures SessionOk(s.(connection := Some(c)))
  {}

  /** An end message goes onto the wire after all the data. */
  lemma EndingKeeps(s: Session, c: Connection, m: Message)
    requires ConnectionOk(s, c) && c.server.Asking? && EndOk(s.view, m)
    ensures ConnectionOk(s, c.(server := Closed, wire := c.wire + [m]))
  {}

  lemma StatusKeeps(s: Session)
    requires SessionOk(s) && s.connection.Some? && s.connection.value.server.Asking?
    ensures SessionOk(StatusStep(s, s.connection.value))
  {
    var c := s.connection.value;
    if Finished(s.view) {
      EndingKeeps(s, c, End(s.view.status.value));
    }
  }

  /** A chunk already seen is at a place already emitted; a new one is the next in the log. */
  lemma ArrivesInOrder(s: Session, c: Connection)
    requires SessionOk(s) && ConnectionOk(s, c) && c.from < c.sent
    ensures c.wire[0] == Data(s.view.chunks[c.from])
    ensures if s.view.chunks[c.from].sequence < s.next then c.from < |s.emitted| else c.from == |s.emitted|
  {
    var e := |s.emitted|;
    assert c.wire[0] == Data(s.view.chunks[c.from]);
    assert e > 0 ==> s.emitted[e - 1] == s.view.chunks[e - 1];
  }

  lemma ReceiveKeeps(s: Session)
    requires SessionOk(s) && s.connection.Some? && s.connection.value.wire != []
    ensures SessionOk(ReceiveStep(s, s.connection.value))
  {
    var c := s.connection.value;
    if c.from < c.sent {
      ArrivesInOrder(s, c);
    }
  }

  lemma NextKeeps(s: Session, step: Step)
    requires SessionOk(s)
    ensures SessionOk(Next(s, step))
  {
    match step
    case Store(v) =>
      if Evolves(s.view, v) {
        StoreKeeps(s, v);
      }
    case Connect(after) => ConnectKeeps(s, after);
    case Break =>
    case ReadPage(limit) =>
      if ReadsPage(s, step) {
        PageKeeps(s, limit);
      }
    case ReadStatus =>
      if ReadsStatus(s, step) {
        StatusKeeps(s);
      }
    case Receive =>
      if s.connection.Some? && s.connection.value.wire != [] {
        ReceiveKeeps(s);
      }
  }

  lemma {:induction false} SessionsAreOk(view: View, steps: seq<Step>)
    requires Increasing(view.chunks)
    ensures SessionOk(Run(view, steps))
  {
    if steps != [] {
      SessionsAreOk(view, steps[..|steps| - 1]);
      NextKeeps(Run(view, steps[..|steps| - 1]), steps[|steps| - 1]);
    }
  }

  // ---------- the client's receive loop ----------

  /** The chunks in a stream up to its end message, without those below `next`. */
  function Fresh(stream: seq<Message>, next: nat): seq<Chunk> {
    if stream == [] || stream[0].End? then []
    else if stream[0].chunk.sequence < next then Fresh(stream[1..], next)
    else [stream[0].chunk] + Fresh(stream[1..], stream[0].chunk.sequence + 1)
  }

  function FirstEnd(stream: seq<Message>): Option<Message> {
    if stream == [] then None else if stream[0].End? then Some(stream[0]) else FirstEnd(stream[1..])
  }

  method ReceiveAll(stream: seq<Message>, nextSequence: nat)
    returns (emitted: seq<Chunk>, next: nat, end: Option<Message>)
    ensures emitted == Fresh(stream, nextSequence)
    ensures next == if emitted == [] then nextSequence else After(emitted)
    ensures end == FirstEnd(stream)
  {
    emitted, next, end := [], nextSequence, None;
    var i := 0;
    while i < |stream|
      invariant 0 <= i <= |stream| && end.None?
      invariant Fresh(stream, nextSequence) == emitted + Fresh(stream[i..], next)
      invariant FirstEnd(stream) == FirstEnd(stream[i..])
      invariant next == if emitted == [] then nextSequence else After(emitted)
    {
      var event := stream[i];
      assert stream[i..][0] == event && stream[i..][1..] == stream[i + 1..];
      if event.Data? {
        if event.chunk.sequence >= next {
          next := event.chunk.sequence + 1;
          emitted := emitted + [event.chunk];
        }
      } else {
        end := Some(event);
        return;
      }
      i := i + 1;
    }
  }

  lemma SentSplits(chunks: seq<Chunk>, tail: seq<Message>)
    requires chunks != []
    ensures Sent(chunks) + tail == [Data(chunks[0])] + (Sent(chunks[1..]) + tail)
  {}

  lemma FreshStep(chunk: Chunk, rest: seq<Message>, next: nat)
    ensures Fresh([Data(chunk)] + rest, next) ==
      if chunk.sequence < next then Fresh(rest, next) else [chunk] + Fresh(rest, chunk.sequence + 1)
  {
    assert ([Data(chunk)] + rest)[1..] == rest;
  }

  lemma {:induction false} FreshAll(chunks: seq<Chunk>, tail: seq<Message>, next: nat)
    requires Increasing(chunks) && (tail == [] || tail[0].End?)
    requires forall c <- chunks :: c.sequence >= next
    ensures Fresh(Sent(chunks) + tail, next) == chunks
  {
    if chunks == [] {
      assert Sent(chunks) + tail == tail;
    } else {
      SentSplits(chunks, tail);
      FreshStep(chunks[0], Sent(chunks[1..]) + tail, next);
      FreshAll(chunks[1..], tail, chunks[0].sequence + 1);
    }
  }

  /** On a stream in sequence order, skipping what was already seen is selecting from `next`. */
  lemma {:induction false} FreshIsFrom(chunks: seq<Chunk>, tail: seq<Message>, next: nat)
    requires Increasing(chunks) && (tail == [] || tail[0].End?)
    ensures Fresh(Sent(chunks) + tail, next) == From(chunks, next)
  {
    if chunks != [] && chunks[0].sequence < next {
      SentSplits(chunks, tail);
      FreshStep(chunks[0], Sent(chunks[1..]) + tail, next);
      FreshIsFrom(chunks[1..], tail, next);
    } else {
      FreshAll(chunks, tail, next);
      FromAll(chunks, next);
    }
  }

  // ---------- what the client gets ----------

  /** Over any number of disconnections, each delivering any prefix of its stream, the client
      emits each stored chunk at most once and in order: a prefix of the stored chunks. */
  lemma ClientEmitsAPrefix(view: View, steps: seq<Step>)
    requires Increasing(view.chunks)
    ensures var s := Run(view, steps); s.emitted <= s.view.chunks && Increasing(s.emitted)
  {
    SessionsAreOk(view, steps);
  }
}
