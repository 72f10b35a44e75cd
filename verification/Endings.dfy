/** What a watcher that was told the end has received: decided by what the database showed at
    the last page read and at the last status read. */
module Endings {
  import opened Model
  import opened Tables
  import opened Output
  import opened Watch

  // ---------- the last reads ----------

  predicate PageReadAt(view: View, steps: seq<Step>, m: nat) {
    m < |steps| && ReadsPage(Run(view, steps[..m]), steps[m])
  }

  predicate StatusReadAt(view: View, steps: seq<Step>, m: nat) {
    m < |steps| && ReadsStatus(Run(view, steps[..m]), steps[m])
  }

  ghost predicate LastPageRead(view: View, steps: seq<Step>, p: nat) {
    PageReadAt(view, steps, p) && forall m: nat :: PageReadAt(view, steps, m) ==> m <= p
  }

  ghost predicate LastStatusRead(view: View, steps: seq<Step>, q: nat) {
    StatusReadAt(view, steps, q) && forall m: nat :: StatusReadAt(view, steps, m) ==> m <= q
  }

  /** A read: at which step, and what the database showed then. */
  datatype Look = Look(at: nat, view: View)

  /** The last page read and the last status read of a session, with the number of its steps. */
  datatype Looks = Looks(steps: nat, page: Option<Look>, status: Option<Look>)

  function NextLooks(s: Session, l: Looks, step: Step): Looks {
    Looks(
      l.steps + 1,
      if ReadsPage(s, step) then Some(Look(l.steps, s.view)) else l.page,
      if ReadsStatus(s, step) then Some(Look(l.steps, s.view)) else l.status)
  }

  function LooksOf(view: View, steps: seq<Step>): Looks {
    if steps == [] then Looks(0, None, None)
    else NextLooks(Run(view, steps[..|steps| - 1]), LooksOf(view, steps[..|steps| - 1]), steps[|steps| - 1])
  }

  lemma ReadAtStays(view: View, steps: seq<Step>, step: Step, m: nat)
    requires m < |steps|
    ensures PageReadAt(view, steps + [step], m) == PageReadAt(view, steps, m)
    ensures StatusReadAt(view, steps + [step], m) == StatusReadAt(view, steps, m)
    ensures (steps + [step])[..m] == steps[..m]
  {
    assert (steps + [step])[..m] == steps[..m];
  }

  lemma ReadAtLast(view: View, steps: seq<Step>, step: Step)
    ensures PageReadAt(view, steps + [step], |steps|) == ReadsPage(Run(view, steps), step)
    ensures StatusReadAt(view, steps + [step], |steps|) == ReadsStatus(Run(view, steps), step)
    ensures (steps + [step])[..|steps|] == steps
  {
    assert (steps + [step])[..|steps|] == steps;
  }

  /** What a look says of the steps. */
  ghost predicate IsLastPage(view: View, steps: seq<Step>, l: Option<Look>) {
    if l.None? then forall m: nat :: !PageReadAt(view, steps, m)
    else LastPageRead(view, steps, l.value.at) && l.value.view == Run(view, steps[..l.value.at]).view
  }

  ghost predicate IsLastStatus(view: View, steps: seq<Step>, l: Option<Look>) {
    if l.None? then forall m: nat :: !StatusReadAt(view, steps, m)
    else LastStatusRead(view, steps, l.value.at) && l.value.view == Run(view, steps[..l.value.at]).view
  }

  lemma LastPageStays(view: View, steps: seq<Step>, step: Step, l: Option<Look>)
    requires IsLastPage(view, steps, l)
    ensures IsLastPage(view, steps + [step],
                       if ReadsPage(Run(view, steps), step) then Some(Look(|steps|, Run(view, steps).view)) else l)
  {
    ReadAtLast(view, steps, step);
    forall m: nat | m < |steps|
      ensures PageReadAt(view, steps + [step], m) == PageReadAt(view, steps, m) && (steps + [step])[..m] == steps[..m]
    {
      ReadAtStays(view, steps, step, m);
    }
  }

  lemma LastStatusStays(view: View, steps: seq<Step>, step: Step, l: Option<Look>)
    requires IsLastStatus(view, steps, l)
    ensures IsLastStatus(view, steps + [step],
                         if ReadsStatus(Run(view, steps), step) then Some(Look(|steps|, Run(view, steps).view)) else l)
  {
    ReadAtLast(view, steps, step);
    forall m: nat | m < |steps|
      ensures StatusReadAt(view, steps + [step], m) == StatusReadAt(view, steps, m)
      ensures (steps + [step])[..m] == steps[..m]
    {
      ReadAtStays(view, steps, step, m);
    }
  }

  lemma {:induction false} LooksAreLast(view: View, steps: seq<Step>)
    ensures var l := LooksOf(view, steps);
      l.steps == |steps| && IsLastPage(view, steps, l.page) && IsLastStatus(view, steps, l.status)
  {
    if steps != [] {
      var front, step := steps[..|steps| - 1], steps[|steps| - 1];
      assert front + [step] == steps;
      LooksAreLast(view, front);
      LastPageStays(view, front, step, LooksOf(view, front).page);
      LastStatusStays(view, front, step, LooksOf(view, front).status);
    }
  }

  // ---------- what the last reads decide ----------

  /** The last page read took the log as it was, up to its first `n` chunks. */
  predicate Covers(v: View, l: Looks, n: nat) {
    && l.page.Some? && l.page.value.at < l.steps
    && n == |l.page.value.view.chunks| && l.page.value.view.chunks <= v.chunks
    && (Finished(l.page.value.view) ==> v.chunks == l.page.value.view.chunks && Settled(v))
  }

  /** After the status read that found the end, the log stays as that read saw it. */
  predicate EndCovers(v: View, l: Looks, m: Message, n: nat) {
    && Covers(v, l, n) && Settled(v)
    && l.status.Some? && l.page.value.at < l.status.value.at < l.steps
    && l.status.value.view.chunks == v.chunks
    && Finished(l.status.value.view) && m == End(l.status.value.view.status.value)
  }

  predicate LooksOk(s: Session, l: Looks) {
    && (s.connection.Some? ==>
          var c := s.connection.value;
          && (c.server.Asking? ==> Covers(s.view, l, c.sent))
          && (c.wire != [] && c.wire[|c.wire| - 1].End? ==>
                c.server.Closed? && EndCovers(s.view, l, c.wire[|c.wire| - 1], c.sent)))
    && (s.end.Some? ==> EndCovers(s.view, l, s.end.value, |s.emitted|))
  }

  lemma LastIsEnd(s: Session, c: Connection)
    requires ConnectionOk(s, c) && c.wire != []
    ensures c.wire[|c.wire| - 1].End? <==> |c.wire| == c.sent - c.from + 1
    ensures c.wire[0].End? ==> |c.wire| == 1 && |s.emitted| == c.sent
  {
    if |c.wire| == c.sent - c.from {
      assert c.wire[|c.wire| - 1] == Data(s.view.chunks[c.from + |c.wire| - 1]);
    }
    if c.sent > c.from {
      assert c.wire[0] == Data(s.view.chunks[c.from]);
    }
  }

  lemma StoreLooks(s: Session, l: Looks, v: View)
    requires SessionOk(s) && LooksOk(s, l) && Evolves(s.view, v)
    ensures LooksOk(s.(view := v), l.(steps := l.steps + 1))
  {}

  lemma PageLooks(s: Session, l: Looks, limit: int)
    requires SessionOk(s) && LooksOk(s, l) && ReadsPage(s, ReadPage(limit))
    ensures LooksOk(PageStep(s, s.connection.value, limit), NextLooks(s, l, ReadPage(limit)))
  {
    var c := s.connection.value;
    PageSeparates(s.view.chunks, c.server.after, c.sent, limit);
    if c.wire != [] {
      LastIsEnd(s, c);
    }
  }

  lemma StatusLooks(s: Session, l: Looks)
    requires SessionOk(s) && LooksOk(s, l) && ReadsStatus(s, ReadStatus)
    ensures LooksOk(StatusStep(s, s.connection.value), NextLooks(s, l, ReadStatus))
  {
    var c := s.connection.value;
    if c.wire != [] {
      LastIsEnd(s, c);
    }
  }

  lemma ReceiveLooks(s: Session, l: Looks)
    requires SessionOk(s) && LooksOk(s, l) && s.connection.Some? && s.connection.value.wire != []
    ensures LooksOk(ReceiveStep(s, s.connection.value), l.(steps := l.steps + 1))
  {
    LastIsEnd(s, s.connection.value);
  }

  lemma NextLooksOk(s: Session, l: Looks, step: Step)
    requires SessionOk(s) && LooksOk(s, l)
    ensures LooksOk(Next(s, step), NextLooks(s, l, step))
  {
    match step
    case Store(v) =>
      if Evolves(s.view, v) {
        StoreLooks(s, l, v);
      }
    case Connect(_) =>
    case Break =>
    case ReadPage(limit) =>
      if ReadsPage(s, step) {
        PageLooks(s, l, limit);
      }
    case ReadStatus =>
      if ReadsStatus(s, step) {
        StatusLooks(s, l);
      }
    case Receive =>
      if s.connection.Some? && s.connection.value.wire != [] {
        ReceiveLooks(s, l);
      }
  }

  lemma {:induction false} LooksAreOk(view: View, steps: seq<Step>)
    requires Increasing(view.chunks)
    ensures LooksOk(Run(view, steps), LooksOf(view, steps))
  {
    if steps != [] {
      var front := steps[..|steps| - 1];
      LooksAreOk(view, front);
      SessionsAreOk(view, front);
      NextLooksOk(Run(view, front), LooksOf(view, front), steps[|steps| - 1]);
    }
  }

  // ---------- what the client has at the end ----------

  /** A client is told the end only after a page read and then a status read. */
  lemma EndHasReads(view: View, steps: seq<Step>)
    requires Increasing(view.chunks) && Run(view, steps).end.Some?
    ensures exists p: nat, q: nat :: LastPageRead(view, steps, p) && LastStatusRead(view, steps, q)
  {
    LooksAreOk(view, steps);
    LooksAreLast(view, steps);
  }

  /** A client that was told the end has everything if and only if no chunk was stored between
      the last page read and the last status read; so it surely does when the request had
      ended before that page read. The end it is told is the one that status read saw. */
  lemma EndIsComplete(view: View, steps: seq<Step>, p: nat, q: nat)
    requires Increasing(view.chunks) && Run(view, steps).end.Some?
    requires LastPageRead(view, steps, p) && LastStatusRead(view, steps, q)
    ensures p < q
    ensures var s := Run(view, steps); var atPage, atStatus := Run(view, steps[..p]).view, Run(view, steps[..q]).view;
      && (s.emitted == s.view.chunks <==> atPage.chunks == atStatus.chunks)
      && (Finished(atPage) ==> s.emitted == s.view.chunks)
      && Finished(atStatus) && s.end.value == End(atStatus.status.value)
  {
    RunDecides(view, steps);
    LooksAt(view, steps, p, q);
  }

  lemma LooksAt(view: View, steps: seq<Step>, p: nat, q: nat)
    requires LastPageRead(view, steps, p) && LastStatusRead(view, steps, q)
    ensures LooksOf(view, steps).page == Some(Look(p, Run(view, steps[..p]).view))
    ensures LooksOf(view, steps).status == Some(Look(q, Run(view, steps[..q]).view))
  {
    LooksAreLast(view, steps);
    assert PageReadAt(view, steps, p) && StatusReadAt(view, steps, q);
    var l := LooksOf(view, steps);
    assert l.page.Some? && l.status.Some?;
    assert l.page.value.at == p && l.status.value.at == q;
  }

  /** The end of a session, in terms of its last looks. */
  ghost predicate Decided(s: Session, l: Looks) {
    && s.end.Some? && l.page.Some? && l.status.Some? && l.page.value.at < l.status.value.at
    && var atPage, atStatus := l.page.value.view, l.status.value.view;
       && (s.emitted == s.view.chunks <==> atPage.chunks == atStatus.chunks)
       && (Finished(atPage) ==> s.emitted == s.view.chunks)
       && Finished(atStatus) && s.end.value == End(atStatus.status.value)
  }

  lemma RunDecides(view: View, steps: seq<Step>)
    requires Increasing(view.chunks) && Run(view, steps).end.Some?
    ensures Decided(Run(view, steps), LooksOf(view, steps))
  {
    SessionsAreOk(view, steps);
    LooksAreOk(view, steps);
    EndDecides(Run(view, steps), LooksOf(view, steps));
  }

  lemma EndDecides(s: Session, l: Looks)
    requires SessionOk(s) && LooksOk(s, l) && s.end.Some?
    ensures Decided(s, l)
  {}

  // ---------- delivery ----------

  /** What a status read does: a row that is gone closes the stream, a terminal status is sent
      as the end, any other makes the server read on. */
  lemma StatusReadDecides(s: Session)
    requires ReadsStatus(s, ReadStatus)
    ensures var c := s.connection.value;
      Next(s, ReadStatus) == s.(connection := Some(
        match s.view.status
        case None => c.(server := Closed)
        case Some(status) =>
          if status in {PolicyRejected, Denied, Expired, Succeeded, Failed, Cancelled}
          then c.(server := Closed, wire := c.wire + [End(status)])
          else c.(server := Reading(c.server.after))))
  {}

  /** The client receives the messages in flight one by one. */
  function Receives(n: nat): seq<Step> {
    seq(n, _ => Receive)
  }

  function Continue(s: Session, steps: seq<Step>): Session
    decreases |steps|
  {
    if steps == [] then s else Continue(Next(s, steps[0]), steps[1..])
  }

  /** A connection of a closed stream whose wire holds the rest of the log and the end. */
  predicate Delivers(s: Session, n: nat) {
    && SessionOk(s) && s.end.None? && Finished(s.view) && s.connection.Some?
    && n <= |s.view.chunks| && s.emitted == s.view.chunks[..n]
    && var c := s.connection.value;
       && c.from == n && c.sent == |s.view.chunks|
       && c.wire == Sent(s.view.chunks[n..]) + [End(s.view.status.value)]
  }

  lemma ReceiveOne(s: Session, n: nat)
    requires Delivers(s, n) && n < |s.view.chunks|
    ensures Delivers(Next(s, Receive), n + 1) && Next(s, Receive).view == s.view
  {
    var c := s.connection.value;
    var chunks := s.view.chunks;
    ReceiveKeeps(s);
    ArrivesInOrder(s, c);
    assert c.wire[1..] == Sent(chunks[n + 1..]) + [End(s.view.status.value)];
    assert chunks[..n + 1] == chunks[..n] + [chunks[n]];
  }

  lemma {:induction false} ReceivesAll(s: Session, n: nat)
    requires Delivers(s, n)
    ensures var s' := Continue(s, Receives(|s.view.chunks| - n + 1));
      s'.emitted == s.view.chunks && s'.end == Some(End(s.view.status.value)) && s'.view == s.view
    decreases |s.view.chunks| - n
  {
    var steps := Receives(|s.view.chunks| - n + 1);
    assert steps[0] == Receive && steps[1..] == Receives(|s.view.chunks| - n);
    if n < |s.view.chunks| {
      ReceiveOne(s, n);
      ReceivesAll(Next(s, Receive), n + 1);
    } else {
      assert s.view.chunks[n..] == [] && s.connection.value.wire == [End(s.view.status.value)];
      assert s.view.chunks[..n] == s.view.chunks;
      assert steps[1..] == [];
    }
  }

  /** Connecting from the number it wants next, the client stands at the first chunk that it
      does not have. */
  lemma ConnectsAtNext(s: Session)
    requires SessionOk(s) && s.connection.None? && s.end.None?
    ensures var n := |s.emitted|;
      && Next(s, Connect(s.next)) == s.(connection := Some(Connection(Reading(s.next), [], n, n)))
      && n <= |s.view.chunks| && Separates(s.view.chunks, s.next, n)
  {
    var n := |s.emitted|;
    ConnectKeeps(s, s.next);
    BelowSeparates(s.view.chunks, s.next);
    assert n > 0 ==> s.emitted[n - 1] == s.view.chunks[n - 1];
    assert Below(s.view.chunks, s.next) == n;
  }

  lemma ReadsAll(s: Session, n: nat)
    requires SessionOk(s) && s.connection == Some(Connection(Reading(s.next), [], n, n))
    requires Separates(s.view.chunks, s.next, n)
    ensures var s' := Next(s, ReadPage(0));
      && s' == s.(connection := s'.connection) && s'.connection.Some? && s'.connection.value.server.Asking?
      && s'.connection.value.wire == Sent(s.view.chunks[n..])
      && s'.connection.value.from == n && s'.connection.value.sent == |s.view.chunks|
  {
    FromIsSuffix(s.view.chunks, s.next, n);
    PageIsGreedy(From(s.view.chunks, s.next), 0);
    assert [] + Sent(s.view.chunks[n..]) == Sent(s.view.chunks[n..]);
  }

  lemma AsksAndEnds(s: Session, n: nat)
    requires SessionOk(s) && s.end.None? && Finished(s.view) && n == |s.emitted| && ReadsStatus(s, ReadStatus)
    requires var c := s.connection.value;
      c.from == n && c.sent == |s.view.chunks| && c.wire == Sent(s.view.chunks[n..])
    ensures Delivers(Next(s, ReadStatus), n) && Next(s, ReadStatus).view == s.view
  {
    StatusKeeps(s);
    assert s.emitted == s.view.chunks[..n];
  }

  lemma ConnectsAndReads(s: Session)
    requires SessionOk(s) && s.connection.None? && s.end.None? && Finished(s.view)
    ensures var n, s' := |s.emitted|, Next(Next(s, Connect(s.next)), ReadPage(0));
      && SessionOk(s') && s' == s.(connection := s'.connection) && ReadsStatus(s', ReadStatus)
      && var c := s'.connection.value;
         c.from == n && c.sent == |s.view.chunks| && c.wire == Sent(s.view.chunks[n..])
  {
    var s1 := Next(s, Connect(s.next));
    ConnectsAtNext(s);
    ConnectKeeps(s, s.next);
    ReadsAll(s1, |s.emitted|);
    Watch.NextKeeps(s1, ReadPage(0));
  }

  /** A client that connects to a request that has ended, and is not interrupted, gets every
      chunk it does not have, and the end. */
  lemma EndedIsDelivered(s: Session)
    requires SessionOk(s) && s.connection.None? && s.end.None? && Finished(s.view)
    ensures |s.emitted| <= |s.view.chunks|
    ensures
      var asked := Next(Next(Next(s, Connect(s.next)), ReadPage(0)), ReadStatus);
      var s' := Continue(asked, Receives(|s.view.chunks| - |s.emitted| + 1));
      s'.emitted == s.view.chunks && s'.end == Some(End(s.view.status.value)) && s'.view == s.view
  {
    ConnectsAndReads(s);
    var s2 := Next(Next(s, Connect(s.next)), ReadPage(0));
    AsksAndEnds(s2, |s.emitted|);
    ReceivesAll(Next(s2, ReadStatus), |s.emitted|);
  }
}
