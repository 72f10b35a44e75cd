/** Captured output: the capped log that the drains fill, and its reading in pages. */
module Output {
  import opened Tables

  // ---------- appending ----------

  /** What the store keeps about the output of one request. */
  datatype Capture = Capture(chunks: seq<Chunk>, bytes: int, truncated: bool)

  const NO_CAPTURE := Capture([], 0, false)

  datatype Offer = Offer(stream: string, data: Bytes, capacity: bool)

  /** One AppendOutput call without an SQL error. */
  function Append(s: Capture, sequence: nat, o: Offer, cap: int): Capture {
    if s.truncated then s else
    var stored := Keep(o.data, cap - s.bytes, o.capacity);
    Capture(
      if stored == [] then s.chunks else InsertChunk(s.chunks, Chunk(sequence, o.stream, stored)),
      s.bytes + |stored|,
      |stored| < |o.data|)
  }

  /** All the calls of an execution, numbered in the order of the capture lock. */
  function Drain(offers: seq<Offer>, cap: int): Capture {
    if offers == [] then NO_CAPTURE
    else Append(Drain(offers[..|offers| - 1], cap), |offers| - 1, offers[|offers| - 1], cap)
  }

  function Offered(offers: seq<Offer>): Bytes {
    if offers == [] then [] else Offered(offers[..|offers| - 1]) + offers[|offers| - 1].data
  }

  function Contents(chunks: seq<Chunk>): Bytes {
    if chunks == [] then [] else Contents(chunks[..|chunks| - 1]) + chunks[|chunks| - 1].data
  }

  function Max(a: int, b: int): int {
    if a < b then b else a
  }

  function Min(a: int, b: int): int {
    if a < b then a else b
  }

  /** The drains offer only the non-empty blocks that a read returned. */
  predicate NonEmpty(offers: seq<Offer>) {
    forall o <- offers :: o.data != []
  }

  ghost predicate CaptureOk(s: Capture, offers: seq<Offer>, cap: int) {
    && Contents(s.chunks) <= Offered(offers)
    && s.bytes == |Contents(s.chunks)| <= Max(cap, 0)
    && (forall k :: 0 <= k < |s.chunks| ==> s.chunks[k].sequence == k)
    && (s.truncated <==> Contents(s.chunks) != Offered(offers))
    && (!s.truncated ==> |s.chunks| == |offers|)
    && |s.chunks| <= |offers|
  }

  lemma ContentsGrow(chunks: seq<Chunk>, chunk: Chunk)
    ensures Contents(chunks + [chunk]) == Contents(chunks) + chunk.data
  {
    assert (chunks + [chunk])[..|chunks|] == chunks;
  }

  lemma OfferedGrows(offers: seq<Offer>, o: Offer)
    ensures Offered(offers + [o]) == Offered(offers) + o.data
  {
    assert (offers + [o])[..|offers|] == offers;
  }

  /** One call on a capture that has lost nothing so far. */
  lemma AppendStores(s: Capture, sequence: nat, o: Offer, cap: int)
    requires !s.truncated && o.data != [] && s.bytes == |Contents(s.chunks)| <= Max(cap, 0)
    requires forall c <- s.chunks :: c.sequence < sequence
    ensures var r := Append(s, sequence, o, cap); var stored := Keep(o.data, cap - s.bytes, o.capacity);
      && Contents(r.chunks) == Contents(s.chunks) + stored
      && r.chunks == (if stored == [] then s.chunks else s.chunks + [Chunk(sequence, o.stream, stored)])
      && stored <= o.data && |Contents(s.chunks) + stored| <= Max(cap, 0)
      && (o.capacity ==> |Contents(s.chunks) + stored| == Min(Max(cap, 0), |Contents(s.chunks) + o.data|))
      && (r.truncated <==> stored != o.data)
  {
    var stored := Keep(o.data, cap - s.bytes, o.capacity);
    if stored != [] {
      InsertChunkAppends(s.chunks, Chunk(sequence, o.stream, stored));
      ContentsGrow(s.chunks, Chunk(sequence, o.stream, stored));
    }
  }

  lemma AppendKeeps(s: Capture, offers: seq<Offer>, o: Offer, cap: int)
    requires CaptureOk(s, offers, cap) && o.data != []
    ensures CaptureOk(Append(s, |offers|, o, cap), offers + [o], cap)
  {
    OfferedGrows(offers, o);
    if !s.truncated {
      assert Contents(s.chunks) == Offered(offers);
      AppendStores(s, |offers|, o, cap);
    }
  }

  /** The stored output is a prefix of what was offered, within the cap, numbered from zero
      without gaps, and flagged exactly when something was lost. */
  lemma {:induction false} DrainKeepsAPrefix(offers: seq<Offer>, cap: int)
    requires NonEmpty(offers)
    ensures CaptureOk(Drain(offers, cap), offers, cap)
  {
    if offers != [] {
      var front := offers[..|offers| - 1];
      DrainKeepsAPrefix(front, cap);
      AppendKeeps(Drain(front, cap), front, offers[|offers| - 1], cap);
      assert front + [offers[|offers| - 1]] == offers;
    }
  }

  /** Unless the storage refuses a block, exactly the first `cap` bytes are kept. */
  lemma {:induction false} DrainFillsTheCap(offers: seq<Offer>, cap: int)
    requires NonEmpty(offers) && forall o <- offers :: o.capacity
    ensures |Contents(Drain(offers, cap).chunks)| == Min(Max(cap, 0), |Offered(offers)|)
  {
    if offers != [] {
      var front, o := offers[..|offers| - 1], offers[|offers| - 1];
      DrainFillsTheCap(front, cap);
      DrainKeepsAPrefix(front, cap);
      if !Drain(front, cap).truncated {
        AppendStores(Drain(front, cap), |front|, o, cap);
      }
    }
  }

  /** Once truncated, the capture never changes again. */
  lemma {:induction false} TruncationLatches(offers: seq<Offer>, more: seq<Offer>, cap: int)
    requires Drain(offers, cap).truncated
    ensures Drain(offers + more, cap) == Drain(offers, cap)
  {
    if more == [] {
      assert offers + more == offers;
    } else {
      var n := |more| - 1;
      TruncationLatches(offers, more[..n], cap);
      assert (offers + more)[..|offers + more| - 1] == offers + more[..n];
    }
  }

  // ---------- paging ----------

  /** The rows of `SELECT ... WHERE sequence >= after ORDER BY sequence`. */
  function From(chunks: seq<Chunk>, after: nat): seq<Chunk> {
    if chunks == [] then []
    else (if chunks[0].sequence >= after then [chunks[0]] else []) + From(chunks[1..], after)
  }

  function Size(chunks: seq<Chunk>): nat {
    if chunks == [] then 0 else Size(chunks[..|chunks| - 1]) + |chunks[|chunks| - 1].data|
  }

  predicate Full(rows: seq<Chunk>, n: nat, limit: int)
    requires n < |rows|
  {
    limit > 0 && n > 0 && Size(rows[..n + 1]) > limit
  }

  /** How many rows fit in one page, `n` being already taken. */
  function Fit(rows: seq<Chunk>, n: nat, limit: int): nat
    requires n <= |rows|
    decreases |rows| - n
  {
    if n == |rows| || Full(rows, n, limit) then n else Fit(rows, n + 1, limit)
  }

  function Page(rows: seq<Chunk>, limit: int): (page: seq<Chunk>)
    ensures page <= rows
  {
    PageBounds(rows, 0, limit);
    rows[..Fit(rows, 0, limit)]
  }

  lemma {:induction false} PageBounds(rows: seq<Chunk>, n: nat, limit: int)
    requires n <= |rows|
    ensures n <= Fit(rows, n, limit) <= |rows|
    ensures Fit(rows, n, limit) < |rows| ==> Full(rows, Fit(rows, n, limit), limit)
    ensures forall k :: n <= k < Fit(rows, n, limit) ==> !Full(rows, k, limit)
    decreases |rows| - n
  {
    if n < |rows| && !Full(rows, n, limit) {
      PageBounds(rows, n + 1, limit);
    }
  }

  /** A page is never empty while rows remain, never longer than the limit or its first
      chunk, and stops only when the next row would not fit. */
  lemma PageIsGreedy(rows: seq<Chunk>, limit: int)
    ensures var p := Page(rows, limit);
      && (rows != [] ==> p != [])
      && (limit > 0 && p != [] ==> Size(p) <= Max(limit, |p[0].data|))
      && (|p| < |rows| ==> limit > 0 && Size(rows[..|p| + 1]) > limit)
      && (limit <= 0 ==> p == rows)
  {
    PageBounds(rows, 0, limit);
    var n := Fit(rows, 0, limit);
    if n > 1 {
      assert !Full(rows, n - 1, limit);
    } else if n == 1 {
      assert rows[..1][..0] == [];
    }
  }

  /** The loop over the selected rows. */
  method ScanRows(rows: seq<Chunk>, maxBytes: int) returns (result: seq<Chunk>, more: bool)
    ensures result == Page(rows, maxBytes)
    ensures more <==> |result| < |rows|
  {
    var total := 0;
    result := [];
    while |result| < |rows|
      invariant result <= rows && total == Size(result)
      invariant Fit(rows, 0, maxBytes) == Fit(rows, |result|, maxBytes)
    {
      var chunk := rows[|result|];
      assert result == rows[..|result|];
      SizeGrows(rows, |result|);
      if maxBytes > 0 && |result| > 0 && total + |chunk.data| > maxBytes {
        return result, true;
      }
      result := result + [chunk];
      total := total + |chunk.data|;
    }
    more := false;
  }

  lemma SizeGrows(rows: seq<Chunk>, n: nat)
    requires n < |rows|
    ensures Size(rows[..n] + [rows[n]]) == Size(rows[..n + 1]) == Size(rows[..n]) + |rows[n].data|
  {
    assert rows[..n] + [rows[n]] == rows[..n + 1];
    assert rows[..n + 1][..n] == rows[..n];
  }

  lemma {:induction false} FromAll(chunks: seq<Chunk>, after: nat)
    requires forall c <- chunks :: c.sequence >= after
    ensures From(chunks, after) == chunks
  {
    if chunks != [] {
      FromAll(chunks[1..], after);
    }
  }

  /** In an ordered log the selected rows are a suffix. */
  lemma {:induction false} FromIsSuffix(chunks: seq<Chunk>, after: nat, i: nat)
    requires i <= |chunks|
    requires forall k :: 0 <= k < i ==> chunks[k].sequence < after
    requires forall k :: i <= k < |chunks| ==> chunks[k].sequence >= after
    ensures From(chunks, after) == chunks[i..]
  {
    if i == 0 {
      assert chunks[0..] == chunks;
      FromAll(chunks, after);
    } else {
      FromIsSuffix(chunks[1..], after, i - 1);
    }
  }

  lemma FindCut(chunks: seq<Chunk>, after: nat) returns (i: nat)
    requires Increasing(chunks)
    ensures i <= |chunks|
    ensures forall k :: 0 <= k < i ==> chunks[k].sequence < after
    ensures forall k :: i <= k < |chunks| ==> chunks[k].sequence >= after
  {
    i := 0;
    while i < |chunks| && chunks[i].sequence < after
      invariant i <= |chunks| && forall k :: 0 <= k < i ==> chunks[k].sequence < after
    {
      i := i + 1;
    }
  }

  /** Selecting from a later number leaves out exactly the rows already read. */
  lemma FromSplits(chunks: seq<Chunk>, after: nat, n: nat)
    requires Increasing(chunks) && 0 < n <= |From(chunks, after)|
    ensures From(chunks, From(chunks, after)[n - 1].sequence + 1) == From(chunks, after)[n..]
  {
    var i := FindCut(chunks, after);
    FromIsSuffix(chunks, after, i);
    assert From(chunks, after)[n - 1] == chunks[i + n - 1];
    FromIsSuffix(chunks, chunks[i + n - 1].sequence + 1, i + n);
    assert chunks[i..][n..] == chunks[i + n..];
  }

  /** Watch's inner loop over a log that does not change: it ends, and its pages together
      are one full read. */
  method ReadPages(chunks: seq<Chunk>, start: nat, limit: int) returns (sent: seq<Chunk>, after: nat)
    requires Increasing(chunks)
    ensures sent == From(chunks, start)
    ensures From(chunks, after) == []
  {
    sent, after := [], start;
    var more := true;
    while more
      invariant sent + From(chunks, after) == From(chunks, start)
      invariant !more ==> From(chunks, after) == []
      decreases more, |From(chunks, after)|
    {
      var rows := From(chunks, after);
      var page;
      page, more := ScanRows(rows, limit);
      PageIsGreedy(rows, limit);
      sent := sent + page;
      if page != [] {
        FromSplits(chunks, after, |page|);
        after := page[|page| - 1].sequence + 1;
      }
    }
  }
}
