/** The store as the daemon drives it: tables updated statement by statement, transactions
    that roll back. Each method is one atomic operation on the tables as a value. */
module Store {
  import opened Model
  import opened Tables
  import opened Output
  import opened Retention
  import Timestamps

  /** Expiry takes the outstanding requests that are due, except CREATED and EXECUTING ones. */
  lemma ExpiredMeans(row: Row, now: int)
    ensures row.(status := ExpiredStatus(row, now)) ==
      if row.status !in {Created, Executing} && !Terminal(row.status) && row.request.expiresAt <= now
      then row.(status := Expired) else row
  {
    OutstandingStatus(row.status);
  }

  class Store {
    var requests: map<RequestId, Row>
    var approvals: map<RequestId, ApprovalRow>
    var executions: map<RequestId, Execution>
    var chunks: map<RequestId, seq<Chunk>>
    var localOnly: bool

    function Db(): Tables.Db
      reads this
    {
      Tables.Db(requests, approvals, executions, chunks, localOnly)
    }

    constructor ()
      ensures Db() == EMPTY_DB
    {
      requests, approvals, executions, chunks, localOnly := map[], map[], map[], map[], false;
    }

    /** Undo the statements of a transaction. */
    method Rollback(saved: Tables.Db)
      modifies this
      ensures Db() == saved
    {
      requests, approvals, executions, chunks, localOnly :=
        saved.requests, saved.approvals, saved.executions, saved.chunks, saved.localOnly;
    }

    method Create(r: Request, hash: string, capacity: bool) returns (ok: bool)
      modifies this
      ensures ok <==> capacity && r.id !in old(requests)
      ensures ok ==> requests == old(requests)[r.id := Row(r, hash, Created, 0, false)]
      ensures ok <==> capacity && Commits(old(Db()), Insert(r, hash))
      ensures Db() == if capacity then Apply(old(Db()), Insert(r, hash)) else old(Db())
    {
      if !capacity || r.id in requests {
        return false;
      }
      requests := requests[r.id := Row(r, hash, Created, 0, false)];
      ok := true;
    }

    /** The status change used inside the transactions. */
    method MoveStatus(id: RequestId, next: Status, expected: Option<Status>) returns (ok: bool)
      modifies this`requests
      ensures ok <==>
        && id in old(requests) && (expected == None || expected == Some(old(requests)[id].status))
        && Edge(old(requests)[id].status, next)
      ensures requests ==
        if ok then old(requests)[id := old(requests)[id].(status := next)] else old(requests)
      ensures ok <==> CanTransition(old(Db()), id, next, expected)
      ensures Db() == if ok then SetStatus(old(Db()), id, next) else old(Db())
    {
      if id !in requests {
        return false;
      }
      var current := requests[id].status;
      if expected.Some? && current != expected.value {
        return false;
      }
      if !Edge(current, next) {
        return false;
      }
      requests := requests[id := requests[id].(status := next)];
      ok := true;
    }

    method Transition(id: RequestId, next: Status, expected: Option<Status>) returns (ok: bool)
      modifies this
      ensures ok <==> Commits(old(Db()), Op.Transition(id, next, expected))
      ensures Db() == Apply(old(Db()), Op.Transition(id, next, expected))
    {
      ok := MoveStatus(id, next, expected);
    }

    method AcceptApproval(a: Approval) returns (ok: bool)
      modifies this
      ensures ok <==>
        && a.version == 1 && a.approvalId != "" && a.requestId != "" && a.requestHash != "" && a.subject != ""
        && (forall id <- old(approvals) :: old(approvals)[id].approval.approvalId != a.approvalId)
        && a.requestId !in old(approvals) && a.requestId in old(requests)
        && old(requests)[a.requestId].status == Waiting
      ensures ok ==>
        && approvals == old(approvals)[a.requestId := ApprovalRow(a, false)]
        && requests == old(requests)[a.requestId := old(requests)[a.requestId].(
             status := if a.decision == Deny then Denied else Approved)]
      ensures ok <==> Commits(old(Db()), Accept(a))
      ensures Db() == Apply(old(Db()), Accept(a))
    {
      if !WellFormed(a) {
        return false;
      }
      var saved := Db();
      if (exists id <- approvals :: approvals[id].approval.approvalId == a.approvalId)
         || a.requestId in approvals || a.requestId !in requests {
        return false;
      }
      approvals := approvals[a.requestId := ApprovalRow(a, false)];
      var next := Denied;
      if a.decision == Approve {
        next := Approved;
      }
      ok := MoveStatus(a.requestId, next, Some(Waiting));
      if !ok {
        Rollback(saved);
      }
    }

    method BeginExecution(id: RequestId, expected: Status) returns (ok: bool)
      modifies this
      ensures ok <==>
        && id in old(requests) && old(requests)[id].status == expected && expected in {Created, Approved}
        && id !in old(executions)
        && (expected == Approved ==> id in old(approvals) && !old(approvals)[id].consumed)
      ensures ok ==>
        && requests == old(requests)[id := old(requests)[id].(status := Executing)]
        && executions == old(executions)[id := Execution(false, None, None)]
        && approvals == if expected == Approved then old(approvals)[id := old(approvals)[id].(consumed := true)]
                        else old(approvals)
      ensures ok <==> Commits(old(Db()), Begin(id, expected))
      ensures Db() == Apply(old(Db()), Begin(id, expected))
    {
      var saved := Db();
      ok := MoveStatus(id, Executing, Some(expected));
      if !ok {
        return;
      }
      if id in executions {
        Rollback(saved);
        return false;
      }
      executions := executions[id := STARTED];
      if expected == Approved {
        if id !in approvals || approvals[id].consumed {
          Rollback(saved);
          return false;
        }
        approvals := approvals[id := approvals[id].(consumed := true)];
      }
    }

    method FinishExecution(id: RequestId, exitCode: Option<int>, signal: Option<string>) returns (ok: bool)
      modifies this
      ensures ok <==> id in old(requests) && old(requests)[id].status == Executing
      ensures ok ==>
        && requests == old(requests)[id := old(requests)[id].(
             status := if exitCode == Some(0) then Succeeded else Failed)]
        && (id in old(executions) ==> executions == old(executions)[id := Execution(true, exitCode, signal)])
      ensures ok <==> Commits(old(Db()), Finish(id, exitCode, signal))
      ensures Db() == Apply(old(Db()), Finish(id, exitCode, signal))
    {
      var next := Failed;
      if exitCode.Some? && exitCode.value == 0 {
        next := Succeeded;
      }
      ok := MoveStatus(id, next, Some(Executing));
      if ok && id in executions {
        executions := executions[id := Execution(true, exitCode, signal)];
      }
    }

    method ExpireOutstanding(now: int)
      modifies this`requests
      ensures Db() == Apply(old(Db()), Expire(now))
      ensures requests.Keys == old(requests.Keys)
      ensures forall id <- requests ::
        var row := old(requests[id]);
        requests[id] ==
          if row.status !in {Created, Executing} && !Terminal(row.status) && row.request.expiresAt <= now
          then row.(status := Expired) else row
    {
      forall id <- requests {
        ExpiredMeans(requests[id], now);
      }
      requests := map id <- requests :: requests[id].(status := ExpiredStatus(requests[id], now));
    }

    /** The first statement of recovery: nothing stays EXECUTING. */
    method RecoverStatuses()
      modifies this`requests
      ensures Db() == Apply(old(Db()), Op.RecoverStatuses)
      ensures requests.Keys == old(requests.Keys)
      ensures forall id <- requests ::
        var row := old(requests[id]);
        requests[id] == if row.status == Executing then row.(status := Failed) else row
    {
      requests := map id <- requests :: requests[id].(status := RecoveredStatus(requests[id]));
    }

    /** The second: every execution is finished, and those that were keep their result. */
    method RecoverExecutions()
      modifies this`executions
      ensures Db() == Apply(old(Db()), Op.RecoverExecutions)
      ensures executions.Keys == old(executions.Keys)
      ensures forall id <- executions ::
        && executions[id].finished && executions[id].exitCode == old(executions[id]).exitCode
        && (old(executions[id]).finished ==> executions[id] == old(executions[id]))
        && (!old(executions[id]).finished ==> executions[id].signal == Some("DAEMON_RESTART"))
    {
      executions := map id <- executions :: RecoveredExecution(executions[id]);
    }

    /** What Open runs first; a death between the two statements leaves the first one done. */
    method RecoverInterrupted()
      modifies this`requests, this`executions
      ensures Db() == Apply(Apply(old(Db()), Op.RecoverStatuses), Op.RecoverExecutions)
      ensures (forall id <- requests :: requests[id].status != Executing)
      ensures (forall id <- executions :: executions[id].finished)
    {
      RecoverStatuses();
      RecoverExecutions();
    }

    method MigrateLocalOnly()
      modifies this`requests, this`localOnly
      ensures Db() == Apply(old(Db()), Migrate)
      ensures localOnly && requests.Keys == old(requests.Keys) && (old(localOnly) ==> requests == old(requests))
      ensures !old(localOnly) ==>
        forall id <- requests ::
          var row := old(requests[id]);
          requests[id] ==
            if row.status in {Queued, Synced, Waiting, Approved} then row.(status := PolicyRejected) else row
    {
      if localOnly {
        return;
      }
      requests := map id <- requests :: requests[id].(status := MigratedStatus(requests[id]));
      localOnly := true;
    }

    method OutstandingCounts(uid: nat) returns (perUid: nat, total: nat)
      ensures perUid == |OutstandingOf(Db(), uid)| && total == |Outstanding(Db())|
      ensures perUid <= total
    {
      var statuses := {Created, Queued, Synced, Waiting, Approved, Executing};
      var all := set id <- requests | requests[id].status in statuses;
      var own := set id <- all | requests[id].request.uid == uid;
      perUid, total := |own|, |all|;
      forall id <- requests {
        OutstandingStatus(requests[id].status);
      }
      assert all == Outstanding(Db());
      assert own == OutstandingOf(Db(), uid);
      assert all == own + (all - own);
    }

    function Captured(id: RequestId): Capture
      requires id in requests
      reads this
    {
      Capture(ChunksOf(Db(), id), requests[id].outputBytes, requests[id].truncated)
    }

    /** The INSERT of an append; a number that is already taken fails. */
    method InsertOutput(id: RequestId, sequence: nat, stream: string, stored: Bytes) returns (ok: bool)
      requires id in requests
      modifies this`chunks
      ensures ok <==> Commits(old(Db()), AddChunk(id, Chunk(sequence, stream, stored)))
      ensures Db() == Apply(old(Db()), AddChunk(id, Chunk(sequence, stream, stored)))
    {
      if exists c <- ChunksOf(Db(), id) :: c.sequence == sequence {
        return false;
      }
      chunks := chunks[id := InsertChunk(ChunksOf(Db(), id), Chunk(sequence, stream, stored))];
      ok := true;
    }

    /** The UPDATE of an append. */
    method CountOutput(id: RequestId, count: int, truncated: bool)
      requires id in requests
      modifies this`requests
      ensures Db() == Apply(old(Db()), AddBytes(id, count, truncated))
    {
      var current := requests[id];
      requests := requests[id := current.(outputBytes := current.outputBytes + count, truncated := truncated)];
    }

    /** One block of output: a SELECT, an INSERT unless nothing is left to store, an UPDATE. */
    method AppendOutput(id: RequestId, sequence: nat, stream: string, data: Bytes, cap: int, capacity: bool)
      returns (ok: bool, truncated: bool, stored: Bytes)
      modifies this`requests, this`chunks
      ensures id !in old(requests) ==> !ok
      ensures id in old(requests) ==>
        var row := old(requests[id]);
        var keep := if row.truncated then [] else Keep(data, cap - row.outputBytes, capacity);
        && (ok <==> keep == [] || forall c <- ChunksOf(old(Db()), id) :: c.sequence != sequence)
        && (ok ==> stored == keep && truncated == (row.truncated || |keep| < |data|))
        && (ok && !row.truncated ==>
              var insert := if keep == [] then Nop else AddChunk(id, Chunk(sequence, stream, keep));
              Db() == Apply(Apply(old(Db()), insert), AddBytes(id, |keep|, truncated)))
        && (row.truncated ==> Db() == old(Db()))
      ensures !ok ==> Db() == old(Db()) && stored == [] && !truncated
      ensures ok ==>
        id in requests && Captured(id) == Append(old(Captured(id)), sequence, Offer(stream, data, capacity), cap)
    {
      stored := [];
      if id !in requests {
        return false, false, stored;
      }
      var current := requests[id];
      if current.truncated {
        return true, true, stored;
      }
      var remaining := cap - current.outputBytes;
      if remaining < 0 {
        remaining := 0;
      }
      stored := data;
      if |stored| > remaining {
        stored := stored[..remaining];
      }
      if !capacity {
        stored := [];
      }
      truncated := |stored| < |data|;
      if |stored| > 0 {
        var inserted := InsertOutput(id, sequence, stream, stored);
        if !inserted {
          return false, false, [];
        }
      }
      CountOutput(id, |stored|, truncated);
      ok := true;
    }

    method OutputAfter(id: RequestId, after: nat, maxBytes: int) returns (page: seq<Chunk>, more: bool)
      ensures page == Page(From(ChunksOf(Db(), id), after), maxBytes)
      ensures more <==> |page| < |From(ChunksOf(Db(), id), after)|
    {
      page, more := ScanRows(From(ChunksOf(Db(), id), after), maxBytes);
    }

    /** The three DELETE statements for one request; the last one fails on a foreign key. */
    method DeleteRows(id: RequestId) returns (ok: bool)
      modifies this
      ensures ok <==> !(id in old(requests) && id in old(approvals))
      ensures ok ==> Db() == Without(old(Db()), {id})
    {
      chunks := chunks - {id};
      executions := executions - {id};
      if id in requests && id in approvals {
        return false;
      }
      requests := requests - {id};
      ok := true;
    }

    /** The pruning transaction: rows go one by one, and a row that an approval refers to
        undoes them all. */
    method DeleteAll(ids: seq<RequestId>) returns (ok: bool)
      modifies this
      ensures ok <==> Unreferenced(old(Db()), IdSet(ids))
      ensures Db() == if ok then Without(old(Db()), IdSet(ids)) else old(Db())
    {
      var saved := Db();
      var i := 0;
      assert Without(saved, IdSet(ids[..0])) == saved;
      while i < |ids|
        invariant 0 <= i <= |ids|
        invariant Unreferenced(saved, IdSet(ids[..i]))
        invariant Db() == Without(saved, IdSet(ids[..i]))
      {
        DeleteNext(saved, ids, i, Db());
        var deleted := DeleteRows(ids[i]);
        if !deleted {
          Rollback(saved);
          return false;
        }
        i := i + 1;
      }
      assert ids[..i] == ids;
      ok := true;
    }

    /** The transaction is left out when nothing is to be deleted. */
    method DeleteDoomed(ids: seq<RequestId>)
      requires Commits(Db(), Delete(IdSet(ids)))
      modifies this
      ensures Db() == Apply(old(Db()), Delete(IdSet(ids)))
    {
      if |ids| == 0 {
        assert Apply(Db(), Delete(IdSet(ids))) == Db();
        return;
      }
      var ok := DeleteAll(ids);
    }

    /** A pruning pass that nothing disturbs. `rows` is what its SELECT returned. */
    method PruneUnapproved(rows: seq<Listed>, olderThan: int, retain: int, parse: string -> Option<int>)
      returns (ok: bool)
      requires IsSelection(Db(), rows)
      modifies this
      ensures ok <==> retain >= 0
      ensures if ok then Pruned(old(Db()), Db(), rows, olderThan, retain, parse) else Db() == old(Db())
    {
      if retain < 0 {
        return false;
      }
      var ids := SelectDoomed(rows, olderThan, retain, parse);
      DoomedArePrunable(Db(), rows, ids, olderThan, retain, parse);
      PassPrunes(Db(), rows, ids, olderThan, retain, parse);
      DeleteDoomed(ids);
      ok := true;
    }
  }

  /** A database of two requests that the policy rejected. */
  function TwoRejected(first: Request, second: Request): Tables.Db {
    EMPTY_DB.(requests := map[
                first.id := Row(first, "", PolicyRejected, 0, false),
                second.id := Row(second, "", PolicyRejected, 0, false)])
  }

  method RejectTwo(first: Request, second: Request) returns (store: Store)
    requires first.id != second.id
    ensures fresh(store) && store.Db() == TwoRejected(first, second)
  {
    store := new Store();
    var ok := store.Create(first, "", true);
    ok := store.Transition(first.id, PolicyRejected, Some(Created));
    assert store.requests == map[first.id := Row(first, "", PolicyRejected, 0, false)];
    ok := store.Create(second, "", true);
    ok := store.Transition(second.id, PolicyRejected, Some(Created));
  }

  lemma TwoAreSelected(first: Request, second: Request)
    requires first.id != second.id && !Timestamps.Less(first.createdAt, second.createdAt)
    ensures IsSelection(
              TwoRejected(first, second), [Listed(first.id, first.createdAt), Listed(second.id, second.createdAt)])
  {
    var rows := [Listed(first.id, first.createdAt), Listed(second.id, second.createdAt)];
    assert rows[0].id == first.id && rows[1].id == second.id;
  }

  lemma OneSurvives(first: Request, second: Request, db: Tables.Db)
    requires first.id != second.id && |Survivors(db)| <= 1 && first.id in db.requests
    requires var before := TwoRejected(first, second);
      db.approvals == before.approvals
      && forall id <- db.requests :: id in before.requests && db.requests[id] == before.requests[id]
    ensures db.requests.Keys == {first.id}
  {
    assert first.id in Survivors(db);
    if second.id in db.requests {
      assert {first.id, second.id} <= Survivors(db);
      SubsetSize({first.id, second.id}, Survivors(db));
    }
  }

  /** Two rejected requests, half a second apart, and a pass that may keep one: it keeps the
      earlier one and deletes the later one. */
  method PruneTheLatest() returns (first: Request, second: Request, survivors: set<RequestId>)
    ensures first.id != second.id
    ensures first.createdAt == Timestamps.Text(Timestamps.NOON)
    ensures second.createdAt == Timestamps.Text(Timestamps.PAST_NOON)
    ensures survivors == {first.id}
  {
    Timestamps.SameSecondCounterexample();
    var noon, later := Timestamps.Text(Timestamps.NOON), Timestamps.Text(Timestamps.PAST_NOON);
    first := Request("first", 1000, "/bin/true", [], "/", true, noon, 0);
    second := Request("second", 1000, "/bin/true", [], "/", true, later, 0);
    var rows := [Listed(first.id, noon), Listed(second.id, later)];
    var parse := (text: string) => Some(if text == noon then 0 else 1);
    var store := RejectTwo(first, second);
    TwoAreSelected(first, second);
    var ok := store.PruneUnapproved(rows, 0, 1, parse);
    assert rows[0].id == first.id && parse(rows[0].createdAt) == Some(0);
    OneSurvives(first, second, store.Db());
    survivors := store.requests.Keys;
  }
}
