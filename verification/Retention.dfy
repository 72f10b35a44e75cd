/** Which unapproved requests a pruning pass removes. */
module Retention {
  import opened Model
  import opened Tables
  import opened Timestamps

  /** One row of the pruning SELECT. */
  datatype Listed = Listed(id: RequestId, createdAt: string)

  /** The rows of the SELECT: every prunable request once, the latest text first. Among equal
      texts the order is SQLite's choice. */
  ghost predicate IsSelection(db: Db, rows: seq<Listed>) {
    && (forall k :: 0 <= k < |rows| ==>
          Prunable(db, rows[k].id) && rows[k].createdAt == db.requests[rows[k].id].request.createdAt)
    && (forall id :: Prunable(db, id) ==> exists k :: 0 <= k < |rows| && rows[k].id == id)
    && (forall i, j :: 0 <= i < j < |rows| ==>
          rows[i].id != rows[j].id && !Less(rows[i].createdAt, rows[j].createdAt))
  }

  /** A row survives when it is among the first `retain`, its time parses, and the time is
      not before the cutoff. */
  predicate Kept(rows: seq<Listed>, k: nat, olderThan: int, retain: int, parse: string -> Option<int>)
    requires k < |rows|
  {
    var created := parse(rows[k].createdAt);
    k < retain && created.Some? && created.value >= olderThan
  }

  method SelectDoomed(rows: seq<Listed>, olderThan: int, retain: int, parse: string -> Option<int>)
    returns (ids: seq<RequestId>)
    ensures Doomed(rows, ids, olderThan, retain, parse)
    ensures forall k :: 0 <= k < |rows| ==>
      var created := parse(rows[k].createdAt);
      k >= retain || created.None? || created.value < olderThan ==> rows[k].id in ids
    ensures forall id <- ids ::
      (exists k :: 0 <= k < |rows| && rows[k].id == id
                   && (k >= retain || parse(rows[k].createdAt).None? || parse(rows[k].createdAt).value < olderThan))
  {
    ids := [];
    var index := 0;
    while index < |rows|
      invariant 0 <= index <= |rows|
      invariant forall id :: id in ids <==>
        exists k :: 0 <= k < index && rows[k].id == id && !Kept(rows, k, olderThan, retain, parse)
    {
      var created := parse(rows[index].createdAt);
      if index >= retain || created.None? || created.value < olderThan {
        ids := ids + [rows[index].id];
      }
      index := index + 1;
    }
  }

  function IdSet(ids: seq<RequestId>): set<RequestId> {
    set id | id in ids
  }

  lemma IdSetGrows(ids: seq<RequestId>, i: nat)
    requires i < |ids|
    ensures IdSet(ids[..i + 1]) == IdSet(ids[..i]) + {ids[i]}
  {
    assert ids[..i + 1] == ids[..i] + [ids[i]];
  }

  /** Deleting one more id of a list that went through so far. */
  lemma DeleteNext(db: Db, ids: seq<RequestId>, i: nat, now: Db)
    requires i < |ids| && Unreferenced(db, IdSet(ids[..i])) && now == Without(db, IdSet(ids[..i]))
    ensures if ids[i] in now.requests && ids[i] in now.approvals then !Unreferenced(db, IdSet(ids))
      else Unreferenced(db, IdSet(ids[..i + 1])) && Without(db, IdSet(ids[..i + 1])) == Without(now, {ids[i]})
  {
    IdSetGrows(ids, i);
    assert ids[i] in IdSet(ids);
    var all := IdSet(ids[..i]);
    assert db.chunks - all - {ids[i]} == db.chunks - (all + {ids[i]});
    assert db.executions - all - {ids[i]} == db.executions - (all + {ids[i]});
    assert db.requests - all - {ids[i]} == db.requests - (all + {ids[i]});
  }

  ghost predicate Doomed(
    rows: seq<Listed>, ids: seq<RequestId>, olderThan: int, retain: int, parse: string -> Option<int>) {
    forall id :: id in ids <==>
      exists k :: 0 <= k < |rows| && rows[k].id == id && !Kept(rows, k, olderThan, retain, parse)
  }

  lemma DoomedArePrunable(
    db: Db, rows: seq<Listed>, ids: seq<RequestId>, olderThan: int, retain: int, parse: string -> Option<int>)
    requires IsSelection(db, rows) && Doomed(rows, ids, olderThan, retain, parse)
    ensures forall id :: id in ids ==> Prunable(db, id)
    ensures Commits(db, Delete(IdSet(ids)))
  {
    forall id | id in ids ensures Prunable(db, id) {
      var k :| 0 <= k < |rows| && rows[k].id == id;
    }
  }

  /** In an undisturbed pass the surviving prunable rows are exactly the kept ones. */
  lemma SurvivorsAreKept(
    db: Db, rows: seq<Listed>, ids: seq<RequestId>, olderThan: int, retain: int, parse: string -> Option<int>)
    requires IsSelection(db, rows) && Doomed(rows, ids, olderThan, retain, parse)
    ensures var db' := Apply(db, Delete(IdSet(ids)));
      && (forall id :: Prunable(db', id) <==>
            exists k :: 0 <= k < |rows| && rows[k].id == id && Kept(rows, k, olderThan, retain, parse))
      && db.requests.Keys - db'.requests.Keys == IdSet(ids)
  {
    DoomedArePrunable(db, rows, ids, olderThan, retain, parse);
    var db' := Apply(db, Delete(IdSet(ids)));
    forall id ensures Prunable(db', id) <==>
      exists k :: 0 <= k < |rows| && rows[k].id == id && Kept(rows, k, olderThan, retain, parse)
    {
      assert Prunable(db', id) <==> Prunable(db, id) && id !in ids;
    }
  }

  function Survivors(db: Db): set<RequestId> {
    set id <- db.requests | Prunable(db, id)
  }

  lemma {:induction false} FewIds(rows: seq<Listed>, ids: set<RequestId>)
    requires forall id <- ids :: exists k :: 0 <= k < |rows| && rows[k].id == id
    ensures |ids| <= |rows|
  {
    if rows == [] {
      assert ids == {};
    } else {
      var n := |rows| - 1;
      var rest := ids - {rows[n].id};
      forall id <- rest ensures exists k :: 0 <= k < n && rows[..n][k].id == id {
        var k :| 0 <= k < |rows| && rows[k].id == id;
        assert rows[..n][k].id == id;
      }
      FewIds(rows[..n], rest);
      assert ids <= rest + {rows[n].id};
      assert |rest + {rows[n].id}| <= |rest| + 1;
      SubsetSize(ids, rest + {rows[n].id});
    }
  }

  lemma SubsetSize<T>(a: set<T>, b: set<T>)
    requires a <= b
    ensures |a| <= |b|
  {
    assert b == a + (b - a);
  }

  /** After an undisturbed pass at most `retain` requests that may be pruned are left, and
      each was created, as far as its text parses, at or after the cutoff. */
  lemma FewAndRecentSurvive(
    db: Db, rows: seq<Listed>, ids: seq<RequestId>, olderThan: int, retain: int, parse: string -> Option<int>)
    requires IsSelection(db, rows) && Doomed(rows, ids, olderThan, retain, parse) && retain >= 0
    ensures var db' := Apply(db, Delete(IdSet(ids)));
      && |Survivors(db')| <= retain
      && forall id :: Prunable(db', id) ==>
           var created := parse(db'.requests[id].request.createdAt); created.Some? && created.value >= olderThan
  {
    var db' := Apply(db, Delete(IdSet(ids)));
    SurvivorsAreKept(db, rows, ids, olderThan, retain, parse);
    var n := if retain < |rows| then retain else |rows|;
    forall id | Prunable(db', id)
      ensures exists k :: 0 <= k < n && rows[..n][k].id == id
      ensures var created := parse(db'.requests[id].request.createdAt); created.Some? && created.value >= olderThan
    {
      var k :| 0 <= k < |rows| && rows[k].id == id && Kept(rows, k, olderThan, retain, parse);
      assert rows[..n][k].id == id;
      assert db'.requests[id] == db.requests[id];
    }
    FewIds(rows[..n], Survivors(db'));
  }

  /** What a pass leaves: at most `retain` requests that may be pruned, each created, as its
      text parses, at or after the cutoff; and it took only requests that stood beyond the
      limit, did not parse, or were older. */
  ghost predicate Pruned(
    db: Db, db': Db, rows: seq<Listed>, olderThan: int, retain: int, parse: string -> Option<int>) {
    && |Survivors(db')| <= retain
    && (forall id :: Prunable(db', id) ==>
          var created := parse(db'.requests[id].request.createdAt); created.Some? && created.value >= olderThan)
    && (forall id <- db.requests :: id !in db'.requests ==>
          && Prunable(db, id)
          && exists k :: 0 <= k < |rows| && rows[k].id == id
               && (k >= retain || parse(rows[k].createdAt).None? || parse(rows[k].createdAt).value < olderThan))
    && (forall k :: 0 <= k < |rows| && k < retain ==>
          var created := parse(rows[k].createdAt);
          created.Some? && created.value >= olderThan ==> rows[k].id in db'.requests)
    && db' == Apply(db, Delete(db.requests.Keys - db'.requests.Keys))
    && (forall id <- db'.requests :: id in db.requests && db'.requests[id] == db.requests[id])
  }

  lemma PassPrunes(
    db: Db, rows: seq<Listed>, ids: seq<RequestId>, olderThan: int, retain: int, parse: string -> Option<int>)
    requires IsSelection(db, rows) && Doomed(rows, ids, olderThan, retain, parse) && retain >= 0
    ensures Pruned(db, Apply(db, Delete(IdSet(ids))), rows, olderThan, retain, parse)
  {
    var db' := Apply(db, Delete(IdSet(ids)));
    FewAndRecentSurvive(db, rows, ids, olderThan, retain, parse);
    DoomedArePrunable(db, rows, ids, olderThan, retain, parse);
    SurvivorsAreKept(db, rows, ids, olderThan, retain, parse);
    forall k | 0 <= k < |rows| && Kept(rows, k, olderThan, retain, parse) ensures rows[k].id in db'.requests {
      assert Prunable(db', rows[k].id);
    }
  }

  // ---------- are the latest kept? ----------

  /** The stored texts are those of these moments, and the parser reads them in order. */
  ghost predicate Stamped(rows: seq<Listed>, st: seq<Stamp>, parse: string -> Option<int>) {
    && |st| == |rows|
    && (forall k :: 0 <= k < |st| ==>
          Valid(st[k]) && rows[k].createdAt == Text(st[k]) && parse(rows[k].createdAt).Some?)
    && (forall i, j :: 0 <= i < |st| && 0 <= j < |st| ==>
          (parse(rows[i].createdAt).value < parse(rows[j].createdAt).value <==> Earlier(st[i], st[j])))
  }

  /** Two moments in one second, the fraction of `a` written as the beginning of that of `b`. */
  predicate Begins(a: Stamp, b: Stamp) {
    a.second == b.second && Trim(a.nanos) < Trim(b.nanos)
  }

  /** The pass deletes row `j` although it is later than row `i`, which it keeps. */
  predicate Misplaced(
    rows: seq<Listed>, st: seq<Stamp>, olderThan: int, retain: int, parse: string -> Option<int>, i: nat, j: nat)
    requires |st| == |rows|
  {
    && i < |rows| && j < |rows| && Earlier(st[i], st[j])
    && Kept(rows, i, olderThan, retain, parse) && !Kept(rows, j, olderThan, retain, parse)
  }

  lemma UnconfusedTexts(a: Stamp, b: Stamp)
    requires Valid(a) && Valid(b) && !Begins(a, b) && !Begins(b, a)
    ensures Less(Text(a), Text(b)) <==> Earlier(a, b)
  {
    TextOrderIsChronological(a, b);
    if a.second == b.second && Trim(a.nanos) == Trim(b.nanos) {
      TrimDetermines(a.nanos, b.nanos);
    }
  }

  /** A misplaced row has the earlier one before it in the list, across the limit. */
  lemma MisplacedIsConfused(
    db: Db, rows: seq<Listed>, st: seq<Stamp>, olderThan: int, retain: int, parse: string -> Option<int>,
    i: nat, j: nat)
    requires IsSelection(db, rows) && Stamped(rows, st, parse)
    requires Misplaced(rows, st, olderThan, retain, parse, i, j)
    ensures Begins(st[i], st[j])
  {
    assert parse(rows[i].createdAt).value < parse(rows[j].createdAt).value;
    assert i < retain <= j;
    if !Begins(st[i], st[j]) {
      if Begins(st[j], st[i]) {
        PrefixesAreReversed(st[j], st[i]);
      } else {
        UnconfusedTexts(st[i], st[j]);
      }
    }
  }

  /** Conversely a limit just after the earlier one misplaces the later one. */
  lemma ConfusedIsMisplaced(
    db: Db, rows: seq<Listed>, st: seq<Stamp>, parse: string -> Option<int>, i: nat, j: nat)
    requires IsSelection(db, rows) && Stamped(rows, st, parse)
    requires i < |rows| && j < |rows| && Begins(st[i], st[j])
    ensures Misplaced(rows, st, parse(rows[i].createdAt).value, i + 1, parse, i, j)
  {
    PrefixesAreReversed(st[i], st[j]);
    assert Less(rows[j].createdAt, rows[i].createdAt);
    assert i < j;
  }

  /** Every pass over a selection keeps the latest requests, whatever its limit and cutoff, if
      and only if no two of the times fall in one second with one written fraction the
      beginning of the other. */
  lemma LatestAreKept(db: Db, rows: seq<Listed>, st: seq<Stamp>, parse: string -> Option<int>)
    requires IsSelection(db, rows) && Stamped(rows, st, parse)
    ensures
      (forall olderThan, retain, i: nat, j: nat :: !Misplaced(rows, st, olderThan, retain, parse, i, j)) <==>
      (forall i, j :: 0 <= i < |st| && 0 <= j < |st| ==> !Begins(st[i], st[j]))
  {
    forall olderThan, retain, i: nat, j: nat | Misplaced(rows, st, olderThan, retain, parse, i, j)
      ensures Begins(st[i], st[j])
    {
      MisplacedIsConfused(db, rows, st, olderThan, retain, parse, i, j);
    }
    forall i, j | 0 <= i < |st| && 0 <= j < |st| && Begins(st[i], st[j])
      ensures Misplaced(rows, st, parse(rows[i].createdAt).value, i + 1, parse, i, j)
    {
      ConfusedIsMisplaced(db, rows, st, parse, i, j);
    }
  }
}
