/** The stored benchmark snapshots of one skill, and the operations that refresh, drop and read them
    (packages/backend/src/eval/eval-execution.service.ts, eval-case.service.ts). Operations do not
    overlap, and a write that is attempted succeeds. */
module SnapshotCache {
  import opened Common
  import opened Tally
  import opened Benchmark
  import opened BenchmarkOrder
  import opened BenchmarkLabels

  /** Snapshot slots: 0 for the benchmark over all versions, otherwise the version. */
  datatype Store = Store(runs: seq<EvalRun>, cases: set<nat>, snapshots: map<nat, EvalBenchmark>)

  const EMPTY_STORE := Store([], {}, map[])

  function Scope(slot: nat): Option<nat> { if slot == 0 then None else Some(slot) }

  function SlotOf(version: Option<nat>): nat { if version.Some? then version.value else 0 }

  /** Versions in requests are at least 1. */
  predicate ValidVersion(version: Option<nat>) { version.Some? ==> version.value >= 1 }

  // ---------------------------------------------------------------------- operations

  function MaxIteration(runs: seq<EvalRun>): (m: nat)
    ensures forall r <- runs :: r.iteration.Some? ==> r.iteration.value <= m
  {
    if runs == [] then 0
    else var m := MaxIteration(runs[1..]); if IterationOf()(runs[0]) > m then IterationOf()(runs[0]) else m
  }

  /** What one execution yields, stamped with the run's version and iteration. */
  function Stamp(version: nat, iteration: nat): EvalRun -> EvalRun {
    (r: EvalRun) => r.(version := Some(version), iteration := Some(iteration))
  }

  function Stamped(results: seq<EvalRun>, version: nat, iteration: nat): seq<EvalRun> {
    Keys(results, Stamp(version, iteration))
  }

  /** The global snapshot and that of one version are recomputed from the same runs. */
  ghost function Persisted(m: map<nat, EvalBenchmark>, all: seq<EvalRun>, version: nat): map<nat, EvalBenchmark> {
    Rewritten(m, {0, version}, FreshIn(all))
  }

  function Rewritten<B>(m: map<nat, B>, slots: set<nat>, f: nat -> B): map<nat, B> {
    map slot | slot in m.Keys + slots :: if slot in slots then f(slot) else m[slot]
  }

  /** The benchmark that belongs in a slot. */
  ghost function FreshIn(all: seq<EvalRun>): nat -> EvalBenchmark { (slot: nat) => ComputeBenchmark(all, Scope(slot)) }

  ghost function RunsSaved(st: Store, new_: seq<EvalRun>, version: nat, fetched: seq<EvalRun>): Store {
    Store(st.runs + new_, st.cases, Persisted(st.snapshots, fetched + new_, version))
  }

  /** A run that finishes: all results are saved, then the global and that version's snapshot are
      recomputed from the runs fetched beforehand plus the new ones. */
  ghost function RunEvals(st: Store, version: nat, results: seq<EvalRun>, fetched: seq<EvalRun>): Store {
    RunsSaved(st, Stamped(results, version, MaxIteration(fetched) + 1), version, fetched)
  }

  /** A run cancelled inside a batch: what was saved stays, no snapshot is refreshed. */
  function AbortRun(st: Store, version: nat, saved: seq<EvalRun>, fetched: seq<EvalRun>): Store {
    st.(runs := st.runs + Stamped(saved, version, MaxIteration(fetched) + 1))
  }

  function OtherRun(id: nat): EvalRun -> bool { (r: EvalRun) => r.id != id }

  function OtherCase(evalId: nat): EvalRun -> bool { (r: EvalRun) => r.evalId != evalId }

  /** `None` reports a missing run. */
  function DeleteRun(st: Store, id: nat): Option<Store> {
    if exists r <- st.runs :: r.id == id
    then Some(st.(runs := Filter(st.runs, OtherRun(id)), snapshots := map[]))
    else None
  }

  /** Runs go with their case, by the cascading foreign key. */
  function DeleteCase(st: Store, evalId: nat): Option<Store> {
    if evalId in st.cases then Some(Store(Filter(st.runs, OtherCase(evalId)), st.cases - {evalId}, map[])) else None
  }

  /** Legacy rows recorded version 0 for what is version 1. */
  function NormalIteration(s: IterationStats): IterationStats {
    if s.skillVersion == 0 then s.(skillVersion := 1) else s
  }

  function Normalised(b: EvalBenchmark): EvalBenchmark {
    b.(byIteration := Keys(b.byIteration, NormalIteration))
  }

  ghost function GetBenchmark(st: Store, version: Option<nat>, fetched: seq<EvalRun>): (EvalBenchmark, Store) {
    if SlotOf(version) in st.snapshots then (Normalised(st.snapshots[SlotOf(version)]), st)
    else
      var b := ComputeBenchmark(fetched, version);
      (b, st.(snapshots := st.snapshots[SlotOf(version) := b]))
  }

  datatype Op =
    | CreateCase(evalId: nat)
    | Evaluate(version: nat, results: seq<EvalRun>, fetched: seq<EvalRun>)
    | RemoveRun(id: nat)
    | RemoveCase(evalId: nat)
    | Read(scope: Option<nat>, fetched: seq<EvalRun>)

  /** A fetch returns the stored runs, in an order of the database's choosing. */
  ghost predicate Legal(st: Store, op: Op) {
    match op
    case Evaluate(version, _, fetched) => version >= 1 && Permuted(fetched, st.runs)
    case Read(scope, fetched) => ValidVersion(scope) && Permuted(fetched, st.runs)
    case _ => true
  }

  ghost function Step(st: Store, op: Op): Store {
    match op
    case CreateCase(evalId) => st.(cases := st.cases + {evalId})
    case Evaluate(version, results, fetched) => RunEvals(st, version, results, fetched)
    case RemoveRun(id) => var r := DeleteRun(st, id); if r.Some? then r.value else st
    case RemoveCase(evalId) => var r := DeleteCase(st, evalId); if r.Some? then r.value else st
    case Read(scope, fetched) => GetBenchmark(st, scope, fetched).1
  }

  ghost predicate LegalRun(st: Store, ops: seq<Op>)
    decreases |ops|
  {
    ops == [] || (Legal(st, ops[0]) && LegalRun(Step(st, ops[0]), ops[1..]))
  }

  ghost function Run(st: Store, ops: seq<Op>): Store
    decreases |ops|
  {
    if ops == [] then st else Run(Step(st, ops[0]), ops[1..])
  }

  // ----------------------------------------------------------------------- invariant

  /** The snapshot is a benchmark of the stored runs, listed in some order. */
  ghost predicate Current(b: EvalBenchmark, runs: seq<EvalRun>, version: Option<nat>) {
    exists order :: Permuted(order, runs) && b == ComputeBenchmark(order, version)
  }

  ghost predicate Versioned(runs: seq<EvalRun>) {
    VersionsUniform(runs) && forall r <- runs :: r.version != Some(0)
  }

  ghost predicate Coherent(st: Store) {
    forall slot <- st.snapshots :: Current(st.snapshots[slot], st.runs, Scope(slot))
  }

  ghost predicate Inv(st: Store) {
    Versioned(st.runs) && Coherent(st)
  }

  lemma CurrentAs(order: seq<EvalRun>, runs: seq<EvalRun>, version: Option<nat>)
    requires Permuted(order, runs)
    ensures Current(ComputeBenchmark(order, version), runs, version)
  {
  }

  lemma AppendPermuted<T>(a: seq<T>, b: seq<T>, s: seq<T>)
    requires Permuted(a, b)
    ensures Permuted(a + s, b + s)
  {
  }

  lemma StampedFields(results: seq<EvalRun>, version: nat, iteration: nat)
    ensures forall r <- Stamped(results, version, iteration) ::
             r.version == Some(version)
             && r.iteration == Some(iteration)
  {
  }

  /** New runs belong to a fresh iteration, so iterations keep one version each. */
  lemma StampedVersioned(runs: seq<EvalRun>, results: seq<EvalRun>, version: nat, fetched: seq<EvalRun>)
    requires Versioned(runs) && Permuted(fetched, runs) && version >= 1
    ensures Versioned(runs + Stamped(results, version, MaxIteration(fetched) + 1))
  {
    var k := MaxIteration(fetched) + 1;
    var new_ := Stamped(results, version, k);
    StampedFields(results, version, k);
    PermutedMembers(fetched, runs);
    forall r <- runs + new_, s <- runs + new_ | r.iteration.Some? && r.iteration == s.iteration
      ensures VersionOrOne(r) == VersionOrOne(s)
    {
      assert r in runs || r in new_;
      assert s in runs || s in new_;
    }
  }

  lemma ScopedAppend(a: seq<EvalRun>, b: seq<EvalRun>, version: Option<nat>)
    ensures Scoped(a + b, version) == Scoped(a, version) + Scoped(b, version)
  {
    FilterAppend(a, b, IsQuality());
    FilterAppend(Filter(a, IsQuality()), Filter(b, IsQuality()), InScope(version));
  }

  lemma SameScope(a: seq<EvalRun>, b: seq<EvalRun>, version: Option<nat>)
    requires Scoped(a, version) == Scoped(b, version)
    ensures ComputeBenchmark(a, version) == ComputeBenchmark(b, version)
  {
    BenchmarkIsOfScoped(a, version);
    BenchmarkIsOfScoped(b, version);
  }

  lemma ScopedExtended(a: seq<EvalRun>, b: seq<EvalRun>, version: Option<nat>)
    requires Scoped(b, version) == []
    ensures Scoped(a + b, version) == Scoped(a, version)
  {
    ScopedAppend(a, b, version);
  }

  /** Runs of one version leave the benchmark of every other version alone. */
  lemma OtherVersionUnaffected(order: seq<EvalRun>, new_: seq<EvalRun>, version: nat, other: nat)
    requires other != version && forall r <- new_ :: r.version == Some(version)
    ensures ComputeBenchmark(order + new_, Some(other)) == ComputeBenchmark(order, Some(other))
  {
    FilterNone(Filter(new_, IsQuality()), InScope(Some(other)));
    ScopedExtended(order, new_, Some(other));
    SameScope(order + new_, order, Some(other));
  }

  lemma StaysCurrent(b: EvalBenchmark, runs: seq<EvalRun>, new_: seq<EvalRun>, version: nat, other: nat)
    requires Current(b, runs, Some(other)) && other != version && forall r <- new_ :: r.version == Some(version)
    ensures Current(b, runs + new_, Some(other))
  {
    var order :| Permuted(order, runs) && b == ComputeBenchmark(order, Some(other));
    OtherVersionUnaffected(order, new_, version, other);
    AppendPermuted(order, runs, new_);
    CurrentAs(order + new_, runs + new_, Some(other));
  }

  ghost predicate CoherentExcept(m: map<nat, EvalBenchmark>, runs: seq<EvalRun>, except: set<nat>) {
    forall slot <- m :: slot in except || Current(m[slot], runs, Scope(slot))
  }

  lemma SnapshotsStayCurrent(m: map<nat, EvalBenchmark>, runs: seq<EvalRun>, new_: seq<EvalRun>, version: nat)
    requires CoherentExcept(m, runs, {}) && forall r <- new_ :: r.version == Some(version)
    ensures CoherentExcept(m, runs + new_, {0, version})
  {
    forall slot <- m | slot !in {0, version} ensures Current(m[slot], runs + new_, Scope(slot)) {
      StaysCurrent(m[slot], runs, new_, version, slot);
    }
  }

  lemma PersistedKeeps(m: map<nat, EvalBenchmark>, runs: seq<EvalRun>, all: seq<EvalRun>, version: nat)
    requires CoherentExcept(m, runs, {0, version}) && Permuted(all, runs) && version >= 1
    ensures CoherentExcept(Persisted(m, all, version), runs, {})
  {
    CurrentAs(all, runs, Scope(0));
    CurrentAs(all, runs, Scope(version));
    RewrittenKeeps(m, runs, {0, version}, FreshIn(all));
  }

  lemma RewrittenKeeps(m: map<nat, EvalBenchmark>, runs: seq<EvalRun>, slots: set<nat>, f: nat -> EvalBenchmark)
    requires CoherentExcept(m, runs, slots) && forall slot <- slots :: Current(f(slot), runs, Scope(slot))
    ensures CoherentExcept(Rewritten(m, slots, f), runs, {})
  {
  }

  lemma SavedKeeps(st: Store, new_: seq<EvalRun>, version: nat, fetched: seq<EvalRun>)
    requires Coherent(st) && version >= 1 && Permuted(fetched, st.runs)
        && forall r <- new_ :: r.version == Some(version)
    ensures Coherent(RunsSaved(st, new_, version, fetched))
  {
    SnapshotsStayCurrent(st.snapshots, st.runs, new_, version);
    AppendPermuted(fetched, st.runs, new_);
    PersistedKeeps(st.snapshots, st.runs + new_, fetched + new_, version);
  }

  lemma RunEvalsVersioned(st: Store, version: nat, results: seq<EvalRun>, fetched: seq<EvalRun>)
    requires Versioned(st.runs) && version >= 1 && Permuted(fetched, st.runs)
    ensures Versioned(RunEvals(st, version, results, fetched).runs)
  {
    StampedVersioned(st.runs, results, version, fetched);
  }

  /** A run rewrites two slots only, yet every other slot stays current. */
  lemma RunEvalsCoherent(st: Store, version: nat, results: seq<EvalRun>, fetched: seq<EvalRun>)
    requires Coherent(st) && version >= 1 && Permuted(fetched, st.runs)
    ensures Coherent(RunEvals(st, version, results, fetched))
  {
    StampedCoherent(st, version, results, fetched, MaxIteration(fetched) + 1);
  }

  lemma StampedCoherent(st: Store, version: nat, results: seq<EvalRun>, fetched: seq<EvalRun>, k: nat)
    requires Coherent(st) && version >= 1 && Permuted(fetched, st.runs)
    ensures Coherent(RunsSaved(st, Stamped(results, version, k), version, fetched))
  {
    StampedFields(results, version, k);
    SavedKeeps(st, Stamped(results, version, k), version, fetched);
  }

  lemma TwoWrites<B>(m: map<nat, B>, a: nat, b: nat, f: nat -> B)
    ensures m[a := f(a)][b := f(b)] == Rewritten(m, {a, b}, f)
  {
  }

  /** The two writes, one after the other. */
  lemma PersistedAs(m: map<nat, EvalBenchmark>, all: seq<EvalRun>, version: nat, global: EvalBenchmark,
      scoped: EvalBenchmark)
    requires version >= 1 && global == ComputeBenchmark(all, Scope(0))
        && scoped == ComputeBenchmark(all, Scope(version))
    ensures m[0 := global][version := scoped] == Persisted(m, all, version)
  {
    TwoWrites(m, 0, version, FreshIn(all));
  }

  lemma FilteredVersioned(runs: seq<EvalRun>, p: EvalRun -> bool)
    requires Versioned(runs)
    ensures Versioned(Filter(runs, p))
  {
  }

  lemma StoredKeeps(st: Store, slot: nat, b: EvalBenchmark)
    requires Inv(st) && Current(b, st.runs, Scope(slot))
    ensures Inv(st.(snapshots := st.snapshots[slot := b]))
  {
  }

  lemma ReadKeeps(st: Store, version: Option<nat>, fetched: seq<EvalRun>)
    requires Inv(st) && ValidVersion(version) && Permuted(fetched, st.runs)
    ensures Inv(GetBenchmark(st, version, fetched).1)
  {
    assert Scope(SlotOf(version)) == version;
    if SlotOf(version) !in st.snapshots {
      CurrentAs(fetched, st.runs, version);
      StoredKeeps(st, SlotOf(version), ComputeBenchmark(fetched, version));
    }
  }

  lemma StepKeeps(st: Store, op: Op)
    requires Inv(st) && Legal(st, op)
    ensures Inv(Step(st, op))
  {
    match op
    case CreateCase(_) =>
    case Evaluate(version, results, fetched) =>
      RunEvalsVersioned(st, version, results, fetched);
      RunEvalsCoherent(st, version, results, fetched);
    case RemoveRun(id) => FilteredVersioned(st.runs, OtherRun(id));
    case RemoveCase(evalId) => FilteredVersioned(st.runs, OtherCase(evalId));
    case Read(scope, fetched) => ReadKeeps(st, scope, fetched);
  }

  /** After any sequence of operations every stored snapshot is a benchmark of the stored runs. */
  lemma {:induction false} RunKeeps(st: Store, ops: seq<Op>)
    requires Inv(st) && LegalRun(st, ops)
    ensures Inv(Run(st, ops))
    decreases |ops|
  {
    if ops != [] {
      StepKeeps(st, ops[0]);
      RunKeeps(Step(st, ops[0]), ops[1..]);
    }
  }

  // ------------------------------------------------------------- what a reader is told

  /** Equal up to the discrimination labels of types. */
  ghost predicate SameButLabels(b: EvalBenchmark, c: EvalBenchmark) {
    b.(byType := Unlabelled(b.byType)) == c.(byType := Unlabelled(c.byType))
  }

  lemma UniformAgrees(a: seq<EvalRun>, b: seq<EvalRun>, version: Option<nat>)
    requires Permuted(a, b) && VersionsUniform(a)
    ensures SameButLabels(ComputeBenchmark(a, version), ComputeBenchmark(b, version))
    ensures LabelsStable(Scoped(a, version)) ==> ComputeBenchmark(a, version) == ComputeBenchmark(b, version)
  {
    OrderIndependent(a, b, version);
    BenchmarkIsOfScoped(a, version);
    BenchmarkIsOfScoped(b, version);
    FilterPermuted(a, b, IsQuality());
    FilterPermuted(Filter(a, IsQuality()), Filter(b, IsQuality()), InScope(version));
    var x, y := Scoped(a, version), Scoped(b, version);
    assert VersionsUniform(x);
    OrderIndependentExactly(a, version);
    PermutedMembers(x, y);
    TimelinePermuted(x, y);
    var p, q := BenchmarkOf(x), BenchmarkOf(y);
    assert p.byIteration == q.byIteration;
    assert p.(byType := Unlabelled(p.byType)) == NumbersOf(p).(byIteration := p.byIteration);
    assert q.(byType := Unlabelled(q.byType)) == NumbersOf(q).(byIteration := q.byIteration);
  }

  /** A snapshot in the store agrees with a benchmark computed afresh from the runs in any order;
      only the label of a type whose runs disagree on it may differ. */
  lemma SnapshotIsFresh(st: Store, slot: nat, order: seq<EvalRun>)
    requires Inv(st) && slot in st.snapshots && Permuted(order, st.runs)
    ensures SameButLabels(st.snapshots[slot], ComputeBenchmark(order, Scope(slot)))
    ensures LabelsStable(Scoped(order, Scope(slot))) ==> st.snapshots[slot] == ComputeBenchmark(order, Scope(slot))
  {
    var o :| Permuted(o, st.runs) && st.snapshots[slot] == ComputeBenchmark(o, Scope(slot));
    PermutedMembers(order, st.runs);
    assert VersionsUniform(order);
    UniformAgrees(order, o, Scope(slot));
  }

  /** A snapshot agrees with recomputation in whatever order the runs are fetched if and only if no
      order of the runs changes the label of a type. */
  lemma SnapshotIsFreshExactly(st: Store, slot: nat)
    requires Inv(st) && slot in st.snapshots
    ensures (forall order | Permuted(st.runs, order) :: st.snapshots[slot] == ComputeBenchmark(order, Scope(slot)))
       <==> LabelsStable(Scoped(st.runs, Scope(slot)))
  {
    var o :| Permuted(o, st.runs) && st.snapshots[slot] == ComputeBenchmark(o, Scope(slot));
    OrderIndependentExactly(st.runs, Scope(slot));
    assert Permuted(st.runs, o) && Permuted(st.runs, st.runs);
    assert VersionsUniform(Scoped(st.runs, Scope(slot)));
  }

  lemma {:induction false} ChainVersions(runs: seq<EvalRun>, ks: seq<nat>, prev: Option<IterationStats>)
    requires forall r <- runs :: r.version != Some(0)
    ensures forall s <- IterationChain(runs, ks, prev) :: s.skillVersion >= 1
    decreases |ks|
  {
    if ks != [] {
      var iterRuns := RunsOfIteration(runs, ks[0]);
      if iterRuns != [] { assert iterRuns[0] in iterRuns; }
      ChainVersions(runs, ks[1..], Some(IterationStatsOf(ks[0], iterRuns, prev)));
    }
  }

  lemma NormalChain(c: seq<IterationStats>)
    requires forall s <- c :: s.skillVersion >= 1
    ensures Keys(c, NormalIteration) == c
  {
    assert forall i | 0 <= i < |c| :: c[i] in c && NormalIteration(c[i]) == c[i];
  }

  lemma TimelineVersions(runs: seq<EvalRun>, version: Option<nat>)
    requires forall r <- runs :: r.version != Some(0)
    ensures forall s <- ComputeBenchmark(runs, version).byIteration :: s.skillVersion >= 1
  {
    BenchmarkIsOfScoped(runs, version);
    var x := Scoped(runs, version);
    if x != [] { ChainVersions(x, Sorted(Iterations(x)), None); }
  }

  lemma NormalAlready(runs: seq<EvalRun>, version: Option<nat>)
    requires forall r <- runs :: r.version != Some(0)
    ensures Normalised(ComputeBenchmark(runs, version)) == ComputeBenchmark(runs, version)
  {
    TimelineVersions(runs, version);
    NormalChain(ComputeBenchmark(runs, version).byIteration);
  }

  lemma CachedIsNormal(st: Store, slot: nat)
    requires Inv(st) && slot in st.snapshots
    ensures Normalised(st.snapshots[slot]) == st.snapshots[slot]
  {
    var o :| Permuted(o, st.runs) && st.snapshots[slot] == ComputeBenchmark(o, Scope(slot));
    PermutedMembers(o, st.runs);
    NormalAlready(o, Scope(slot));
  }

  /** A read answers, from the cache or not, what recomputation over the fetched runs would answer. */
  lemma ReadIsFresh(st: Store, version: Option<nat>, fetched: seq<EvalRun>)
    requires Inv(st) && ValidVersion(version) && Permuted(fetched, st.runs)
    ensures SameButLabels(GetBenchmark(st, version, fetched).0, ComputeBenchmark(fetched, version))
    ensures LabelsStable(Scoped(fetched, version))
        ==> GetBenchmark(st, version, fetched).0 == ComputeBenchmark(fetched, version)
  {
    var slot := SlotOf(version);
    assert Scope(slot) == version;
    if slot in st.snapshots {
      CachedIsNormal(st, slot);
      SnapshotIsFresh(st, slot, fetched);
    }
  }

  /** From an empty store, after any operations. */
  lemma ReachableReads(ops: seq<Op>, version: Option<nat>, fetched: seq<EvalRun>)
    requires LegalRun(EMPTY_STORE, ops) && ValidVersion(version)
    requires Permuted(fetched, Run(EMPTY_STORE, ops).runs)
    ensures SameButLabels(GetBenchmark(Run(EMPTY_STORE, ops), version, fetched).0, ComputeBenchmark(fetched, version))
    ensures LabelsStable(Scoped(fetched, version)) ==>
      GetBenchmark(Run(EMPTY_STORE, ops), version, fetched).0 == ComputeBenchmark(fetched, version)
  {
    RunKeeps(EMPTY_STORE, ops);
    ReadIsFresh(Run(EMPTY_STORE, ops), version, fetched);
  }

  // -------------------------------------------------------------------- cancelled runs

  lemma TotalRunsOf(runs: seq<EvalRun>, version: Option<nat>)
    ensures ComputeBenchmark(runs, version).totalRuns == |Scoped(runs, version)|
  {
    BenchmarkIsOfScoped(runs, version);
  }

  lemma ScopedLengthPermuted(a: seq<EvalRun>, b: seq<EvalRun>, version: Option<nat>)
    requires Permuted(a, b)
    ensures |Scoped(a, version)| == |Scoped(b, version)|
  {
    FilterPermuted(a, b, IsQuality());
    FilterPermuted(Filter(a, IsQuality()), Filter(b, IsQuality()), InScope(version));
    PermutedMembers(Scoped(a, version), Scoped(b, version));
  }

  /** Saved results that count make a stored benchmark of their scope out of date. */
  lemma OutOfDate(b: EvalBenchmark, runs: seq<EvalRun>, new_: seq<EvalRun>, version: Option<nat>)
    requires Current(b, runs, version) && Scoped(new_, version) != []
    ensures !Current(b, runs + new_, version)
  {
    var o :| Permuted(o, runs) && b == ComputeBenchmark(o, version);
    TotalRunsOf(o, version);
    ScopedLengthPermuted(o, runs, version);
    ScopedAppend(runs, new_, version);
    forall order | Permuted(order, runs + new_) ensures b != ComputeBenchmark(order, version) {
      TotalRunsOf(order, version);
      ScopedLengthPermuted(order, runs + new_, version);
    }
  }

  lemma StillCurrent(b: EvalBenchmark, runs: seq<EvalRun>, new_: seq<EvalRun>, version: Option<nat>)
    requires Current(b, runs, version) && Scoped(new_, version) == []
    ensures Current(b, runs + new_, version)
  {
    var o :| Permuted(o, runs) && b == ComputeBenchmark(o, version);
    ScopedExtended(o, new_, version);
    SameScope(o + new_, o, version);
    AppendPermuted(o, runs, new_);
    CurrentAs(o + new_, runs + new_, version);
  }

  lemma ScopedStamped(results: seq<EvalRun>, version: nat, k: nat, slot: nat)
    requires version >= 1
    ensures var new_ := Stamped(results, version, k);
            Scoped(new_, Scope(slot)) == if slot == 0 || slot == version then Filter(new_, IsQuality()) else []
  {
    var new_ := Stamped(results, version, k);
    StampedFields(results, version, k);
    if slot == 0 || slot == version {
      FilterAll(Filter(new_, IsQuality()), InScope(Scope(slot)));
    } else {
      FilterNone(Filter(new_, IsQuality()), InScope(Scope(slot)));
    }
  }

  lemma QualityStamped(results: seq<EvalRun>, version: nat, k: nat)
    ensures Filter(Stamped(results, version, k), IsQuality()) == [] <==> forall r <- results :: !IsQuality()(r)
  {
    var new_ := Stamped(results, version, k);
    assert forall i | 0 <= i < |results| :: results[i] in results && IsQuality()(new_[i]) == IsQuality()(results[i]);
    if forall r <- results :: !IsQuality()(r) {
      FilterNone(new_, IsQuality());
    } else {
      var i :| 0 <= i < |results| && IsQuality()(results[i]);
      assert IsQuality()(new_[i]) && new_[i] in new_;
    }
  }

  lemma SlotAfterAbort(b: EvalBenchmark, runs: seq<EvalRun>, saved: seq<EvalRun>, version: nat, k: nat, slot: nat)
    requires Current(b, runs, Scope(slot)) && version >= 1
    ensures Current(b, runs + Stamped(saved, version, k), Scope(slot))
       <==> (forall r <- saved :: !IsQuality()(r)) || !(slot == 0 || slot == version)
  {
    var new_ := Stamped(saved, version, k);
    QualityStamped(saved, version, k);
    ScopedStamped(saved, version, k, slot);
    if Scoped(new_, Scope(slot)) == [] { StillCurrent(b, runs, new_, Scope(slot)); }
    else { OutOfDate(b, runs, new_, Scope(slot)); }
  }

  lemma NothingNew(m: map<nat, EvalBenchmark>, runs: seq<EvalRun>, new_: seq<EvalRun>)
    requires CoherentExcept(m, runs, {}) && forall slot <- m :: Scoped(new_, Scope(slot)) == []
    ensures CoherentExcept(m, runs + new_, {})
  {
    forall slot <- m ensures Current(m[slot], runs + new_, Scope(slot)) {
      StillCurrent(m[slot], runs, new_, Scope(slot));
    }
  }

  lemma NothingCounts(saved: seq<EvalRun>, version: nat, k: nat, slot: nat)
    requires version >= 1 && ((forall r <- saved :: !IsQuality()(r)) || !(slot == 0 || slot == version))
    ensures Scoped(Stamped(saved, version, k), Scope(slot)) == []
  {
    QualityStamped(saved, version, k);
    ScopedStamped(saved, version, k, slot);
  }

  lemma AbortHarmless(m: map<nat, EvalBenchmark>, runs: seq<EvalRun>, saved: seq<EvalRun>, version: nat, k: nat)
    requires CoherentExcept(m, runs, {}) && version >= 1
    requires (forall r <- saved :: !IsQuality()(r)) || (0 !in m && version !in m)
    ensures CoherentExcept(m, runs + Stamped(saved, version, k), {})
  {
    var new_ := Stamped(saved, version, k);
    forall slot <- m ensures Scoped(new_, Scope(slot)) == [] {
      NothingCounts(saved, version, k, slot);
    }
    NothingNew(m, runs, new_);
  }

  lemma AbortHarmful(st: Store, version: nat, saved: seq<EvalRun>, fetched: seq<EvalRun>, slot: nat)
    requires Inv(st) && version >= 1 && !(forall r <- saved :: !IsQuality()(r))
    requires slot in st.snapshots && (slot == 0 || slot == version)
    ensures !Coherent(AbortRun(st, version, saved, fetched))
  {
    SlotAfterAbort(st.snapshots[slot], st.runs, saved, version, MaxIteration(fetched) + 1, slot);
  }

  /** The aborted run saved nothing that counts, or touched no stored slot. */
  predicate Harmless(st: Store, version: nat, saved: seq<EvalRun>) {
    (forall r <- saved :: !IsQuality()(r)) || (0 !in st.snapshots && version !in st.snapshots)
  }

  lemma AbortKeeps(st: Store, version: nat, saved: seq<EvalRun>, fetched: seq<EvalRun>)
    requires Inv(st) && version >= 1 && Harmless(st, version, saved)
    ensures Coherent(AbortRun(st, version, saved, fetched))
  {
    var k := MaxIteration(fetched) + 1;
    assert CoherentExcept(st.snapshots, st.runs, {});
    AbortHarmless(st.snapshots, st.runs, saved, version, k);
    CoherentIs(AbortRun(st, version, saved, fetched), st.snapshots, st.runs + Stamped(saved, version, k));
  }

  lemma CoherentIs(st: Store, m: map<nat, EvalBenchmark>, runs: seq<EvalRun>)
    requires st.snapshots == m && st.runs == runs && CoherentExcept(m, runs, {})
    ensures Coherent(st)
  {
  }

  lemma AbortBreaks(st: Store, version: nat, saved: seq<EvalRun>, fetched: seq<EvalRun>)
    requires Inv(st) && version >= 1 && !Harmless(st, version, saved)
    ensures !Coherent(AbortRun(st, version, saved, fetched))
  {
    AbortHarmful(st, version, saved, fetched, if 0 in st.snapshots then 0 else version);
  }

  /** A run cancelled inside a batch leaves the cache coherent exactly when it saved no run that
      counts, or neither the global nor that version's snapshot was stored. */
  lemma AbortCoherentExactly(st: Store, version: nat, saved: seq<EvalRun>, fetched: seq<EvalRun>)
    requires Inv(st) && version >= 1
    ensures Coherent(AbortRun(st, version, saved, fetched))
       <==> (forall r <- saved :: !IsQuality()(r)) || (0 !in st.snapshots && version !in st.snapshots)
  {
    if Harmless(st, version, saved) {
      AbortKeeps(st, version, saved, fetched);
    } else {
      AbortBreaks(st, version, saved, fetched);
    }
  }

  /** One benchmark read, then a run cancelled after saving one result: the snapshot is stale. */
  lemma CancelledRunGoesStale(r: EvalRun)
    requires IsQuality()(r)
    ensures var ops := [Read(None, [])];
            LegalRun(EMPTY_STORE, ops) && !Coherent(AbortRun(Run(EMPTY_STORE, ops), 1, [r], []))
  {
    var ops := [Read(None, [])];
    assert Legal(EMPTY_STORE, ops[0]);
    var st := Step(EMPTY_STORE, ops[0]);
    assert ops[1..] == [];
    assert Run(EMPTY_STORE, ops) == Run(st, []) == st;
    assert LegalRun(st, []);
    RunKeeps(EMPTY_STORE, ops);
    assert 0 in st.snapshots && r in [r];
    AbortCoherentExactly(st, 1, [r], []);
  }
}
