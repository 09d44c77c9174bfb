/** The methods of packages/backend/src/eval/eval-execution.service.ts and eval-case.service.ts that
    write runs and snapshots, statement by statement, proved against `SnapshotCache`. A list fetched
    from the database is a parameter: its order is not ours to choose. */
module SnapshotService {
  import opened Common
  import opened Tally
  import opened Benchmark
  import opened SnapshotCache
  import BenchmarkService

  class Service {
    var runs: seq<EvalRun>
    var cases: set<nat>
    var snapshots: map<nat, EvalBenchmark>

    ghost function State(): Store
      reads this
    {
      Store(runs, cases, snapshots)
    }

    constructor ()
      ensures State() == EMPTY_STORE
    {
      runs, cases, snapshots := [], {}, map[];
    }

    method CreateEvalCase(evalId: nat)
      modifies this`cases
      ensures State() == Step(old(State()), CreateCase(evalId))
    {
      cases := cases + {evalId};
    }

    method CreateEvalRun(r: EvalRun)
      modifies this`runs
      ensures runs == old(runs) + [r]
    {
      runs := runs + [r];
    }

    /** INSERT ... ON CONFLICT (skill, version) DO UPDATE. */
    method SaveBenchmarkSnapshot(b: EvalBenchmark, version: Option<nat>)
      modifies this`snapshots
      ensures snapshots == old(snapshots)[SlotOf(version) := b]
    {
      snapshots := snapshots[SlotOf(version) := b];
    }

    method PersistBenchmarks(existingRuns: seq<EvalRun>, newRuns: seq<EvalRun>, skillVersion: nat)
      requires skillVersion >= 1
      modifies this`snapshots
      ensures snapshots == Persisted(old(snapshots), existingRuns + newRuns, skillVersion)
    {
      var allEvalRuns := existingRuns + newRuns;
      var benchmark := BenchmarkService.ComputeBenchmark(allEvalRuns, None);
      SaveBenchmarkSnapshot(benchmark, None);
      var versionBenchmark := BenchmarkService.ComputeBenchmark(allEvalRuns, Some(skillVersion));
      SaveBenchmarkSnapshot(versionBenchmark, Some(skillVersion));
      PersistedAs(old(snapshots), allEvalRuns, skillVersion, benchmark, versionBenchmark);
    }

    /** Save the results in completion order, stamped with the version and the iteration. */
    method SaveRuns(results: seq<EvalRun>, skillVersion: nat, iteration: nat) returns (saved: seq<EvalRun>)
      modifies this`runs
      ensures saved == Stamped(results, skillVersion, iteration) && runs == old(runs) + saved
    {
      saved := [];
      for i := 0 to |results|
        invariant saved == Stamped(results[..i], skillVersion, iteration) && runs == old(runs) + saved
      {
        var evalRun := results[i].(version := Some(skillVersion), iteration := Some(iteration));
        CreateEvalRun(evalRun);
        assert results[..i + 1] == results[..i] + [results[i]];
        saved := saved + [evalRun];
      }
      assert results[..|results|] == results;
    }

    method RunEvals(skillVersion: nat, results: seq<EvalRun>, existingRuns: seq<EvalRun>)
      requires skillVersion >= 1
      modifies this
      ensures State() == SnapshotCache.RunEvals(old(State()), skillVersion, results, existingRuns)
    {
      var currentIteration := MaxIteration(existingRuns) + 1;
      var saved := SaveRuns(results, skillVersion, currentIteration);
      PersistBenchmarks(existingRuns, saved, skillVersion);
      assert State() == RunsSaved(old(State()), saved, skillVersion, existingRuns);
    }

    /** Cancelled inside a batch: the error skips everything after the saved runs. */
    method RunEvalsCancelled(skillVersion: nat, savedResults: seq<EvalRun>, existingRuns: seq<EvalRun>)
      modifies this
      ensures State() == AbortRun(old(State()), skillVersion, savedResults, existingRuns)
    {
      var currentIteration := MaxIteration(existingRuns) + 1;
      var saved := SaveRuns(savedResults, skillVersion, currentIteration);
    }

    method DeleteEvalRun(runId: nat) returns (found: bool)
      modifies this
      ensures found == DeleteRun(old(State()), runId).Some?
      ensures State() == Step(old(State()), RemoveRun(runId))
    {
      found := exists r <- runs :: r.id == runId;
      if !found { return; }
      runs := Filter(runs, OtherRun(runId));
      snapshots := map[];
    }

    method DeleteEvalCase(evalId: nat) returns (found: bool)
      modifies this
      ensures found == DeleteCase(old(State()), evalId).Some?
      ensures State() == Step(old(State()), RemoveCase(evalId))
    {
      found := evalId in cases;
      if !found { return; }
      cases := cases - {evalId};
      runs := Filter(runs, OtherCase(evalId));
      snapshots := map[];
    }

    method GetBenchmark(version: Option<nat>, fetched: seq<EvalRun>) returns (r: EvalBenchmark)
      modifies this`snapshots
      ensures (r, State()) == SnapshotCache.GetBenchmark(old(State()), version, fetched)
    {
      var slot := SlotOf(version);
      if slot in snapshots {
        r := snapshots[slot];
        var byIteration := Normalise(r.byIteration);
        r := r.(byIteration := byIteration);
        return;
      }
      r := BenchmarkService.ComputeBenchmark(fetched, version);
      SaveBenchmarkSnapshot(r, version);
    }

    method Normalise(byIteration: seq<IterationStats>) returns (r: seq<IterationStats>)
      ensures r == Keys(byIteration, NormalIteration)
    {
      r := byIteration;
      for i := 0 to |byIteration|
        invariant |r| == |byIteration|
        invariant forall j | 0 <= j < |r| :: r[j] == if j < i then NormalIteration(byIteration[j]) else byIteration[j]
      {
        if r[i].skillVersion == 0 { r := r[i := r[i].(skillVersion := 1)]; }
      }
    }
  }
}
