/** The end of a request is final: no late thread, restart or retry reopens it. */
module Finality {
  import opened Model
  import opened Tables
  import opened Cells
  import opened Protocol
  import opened Invariant
  import opened Preservation
  import opened Safety
  import opened CapturedRuns
  import opened Expiry

  /** No event from place `n` on is a spawn of the request. */
  predicate QuietFrom(log: seq<Event>, n: nat, id: RequestId) {
    forall k :: n <= k < |log| ==> !(log[k].Spawned? && log[k].id == id)
  }

  /** A spawn comes from a thread that owns an EXECUTING request. */
  lemma StepIsQuiet(c: Config, s: System, step: Step, id: RequestId)
    requires Inv(c, s) && !IsExecuting(CellIn(s, id))
    ensures s.log <= Next(c, s, step).log && QuietFrom(Next(c, s, step).log, |s.log|, id)
  {
    var log := Next(c, s, step).log;
    if Enabled(s, step) {
      var t := s.threads[step.tid];
      assert OwnerOk(s, t);
      SpawnsOwn(c, s, t, step.input);
      assert log == s.log + Act(c, s, t, step.input).events;
      forall k | |s.log| <= k < |log| ensures !(log[k].Spawned? && log[k].id == id) {
        assert log[k] in Act(c, s, t, step.input).events;
      }
    } else {
      IdleIsSilent(c, s, step);
      forall k | |s.log| <= k < |log| ensures !log[k].Spawned? {
        assert log[k] in log[|s.log|..];
      }
    }
  }

  /** What one step can still do to a request that has ended: remove its row. */
  lemma StepIsFinal(c: Config, s: System, step: Step, id: RequestId)
    requires Inv(c, s) && id in s.used && !Live(CellIn(s, id))
    ensures var x, x' := CellIn(s, id), CellIn(Next(c, s, step), id);
      && x'.chunks == x.chunks && !Live(x') && id in Next(c, s, step).used
      && (x'.row.Some? ==> x.row.Some? && x'.row.value.status == x.row.value.status)
  {
    NextKeeps(c, s, step);
    var s' := Next(c, s, step);
    assert CellStep(At(s.db, id), At(s'.db, id)) && CellOk(c.hash, id, CellIn(s, id));
    assert CellIn(s, id).row.None? ==> CellIn(s', id).row.None?;
    TableIsRanked();
  }

  lemma {:induction false} EndedStays(c: Config, steps: seq<Step>, more: seq<Step>, id: RequestId)
    requires id in Run(c, steps).used && !Live(CellIn(Run(c, steps), id))
    ensures var s, s' := Run(c, steps), Run(c, steps + more);
      && id in s'.used && !Live(CellIn(s', id)) && CellIn(s', id).chunks == CellIn(s, id).chunks
      && (CellIn(s', id).row.Some? ==>
            CellIn(s, id).row.Some? && CellIn(s', id).row.value.status == CellIn(s, id).row.value.status)
      && |s.log| <= |s'.log| && QuietFrom(s'.log, |s.log|, id)
  {
    var n := |more|;
    if n == 0 {
      assert steps + more == steps;
    } else {
      var front := steps + more[..n - 1];
      assert steps + more == front + [more[n - 1]];
      EndedStays(c, steps, more[..n - 1], id);
      RunOk(c, front);
      RunNext(c, front, more[n - 1]);
      StepIsFinal(c, Run(c, front), more[n - 1], id);
      StepIsQuiet(c, Run(c, front), more[n - 1], id);
    }
  }

  /** Once a request is terminal, its status and its output never change again and it is
      never spawned, however the run goes on; at most, pruning removes it. */
  lemma TerminalIsFinal(c: Config, steps: seq<Step>, more: seq<Step>, id: RequestId)
    requires id in Run(c, steps).db.requests && Terminal(Run(c, steps).db.requests[id].status)
    ensures var s, s' := Run(c, steps), Run(c, steps + more);
      && (id in s'.db.requests ==> s'.db.requests[id].status == s.db.requests[id].status)
      && ChunksOf(s'.db, id) == ChunksOf(s.db, id)
      && |s.log| <= |s'.log|
      && forall k :: |s.log| <= k < |s'.log| ==> !(s'.log[k].Spawned? && s'.log[k].id == id)
  {
    RunOk(c, steps);
    assert Witnessed(Run(c, steps), id);
    EndedStays(c, steps, more, id);
    assert CellIn(Run(c, steps + more), id).row.Some? <==> id in Run(c, steps + more).db.requests;
  }
}
