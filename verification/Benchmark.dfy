/** The numbers of a benchmark (packages/backend/src/eval/benchmark.service.ts), over exact
    rationals. Keyed results are maps; the order in which keys were first met, where the code
    depends on it, is kept by `BenchmarkService`. */
module Benchmark {
  import opened Common
  import opened Tally

  datatype Overall = Pass | Fail | Partial
  datatype RunStatus = Queued | Running | Completed | Failed

  /** The assertion types of packages/backend/src/eval/dto/eval-assertion.dto.ts. */
  datatype Kind = Contains | NotContains | Regex | Semantic | Custom

  datatype Check = Check(kind: Kind, value: string, passed: bool)
  datatype Grading = Grading(overall: Overall, score: real, checks: seq<Check>, gradingError: bool)
  datatype Timing = Timing(durationMs: real, totalTokens: real)
  datatype EvalRun = EvalRun(
    id: nat, evalId: nat, status: RunStatus, version: Option<nat>, iteration: Option<nat>,
    grading: Grading, timing: Timing, baselineGrading: Option<Grading>, baselineTiming: Option<Timing>)

  // ---------------------------------------------------------------------- rounding

  function Round(x: real): int { (x + 0.5).Floor }

  function Round2(x: real): real { Round(x * 100.0) as real / 100.0 }

  /** A percentage of `part` in `whole`, rounded; zero for an empty whole. */
  function Rate(part: nat, whole: nat): real {
    if whole > 0 then Round2(part as real / whole as real * 100.0) else 0.0
  }

  // --------------------------------------------------------------------- statistics

  /** `variance` stands for the square of the standard deviation before rounding. */
  datatype Stats = Stats(mean: real, variance: real, min: real, max: real)

  function MinOf<T>(s: seq<T>, f: T -> real): real
    requires s != []
  {
    if |s| == 1 then f(s[0]) else var m := MinOf(s[1..], f); if f(s[0]) < m then f(s[0]) else m
  }

  function MaxOf<T>(s: seq<T>, f: T -> real): real
    requires s != []
  {
    if |s| == 1 then f(s[0]) else var m := MaxOf(s[1..], f); if f(s[0]) > m then f(s[0]) else m
  }

  function Mean<T>(s: seq<T>, f: T -> real): real
    requires s != []
  {
    Sum(s, f) / |s| as real
  }

  function SquaredDiff<T>(f: T -> real, mean: real): T -> real {
    x => (f(x) - mean) * (f(x) - mean)
  }

  /** Sample variance, with the n-1 denominator. */
  function Variance<T>(s: seq<T>, f: T -> real): real
    requires s != []
  {
    if |s| > 1 then Sum(s, SquaredDiff(f, Mean(s, f))) / (|s| - 1) as real else 0.0
  }

  function CalculateStats<T>(s: seq<T>, f: T -> real): Stats {
    if s == [] then Stats(0.0, 0.0, 0.0, 0.0)
    else Stats(Round2(Mean(s, f)), Variance(s, f), Round2(MinOf(s, f)), Round2(MaxOf(s, f)))
  }

  datatype ConfigStats = ConfigStats(passRate: Stats, durationMs: Stats, tokens: Stats, score: Stats)

  function ScoreOf(isBaseline: bool): EvalRun -> real {
    (r: EvalRun) => if !isBaseline then r.grading.score
         else if r.baselineGrading.Some? then r.baselineGrading.value.score else 0.0
  }

  function DurationOf(isBaseline: bool): EvalRun -> real {
    (r: EvalRun) => if !isBaseline then r.timing.durationMs
         else if r.baselineTiming.Some? then r.baselineTiming.value.durationMs else 0.0
  }

  function TokensOf(isBaseline: bool): EvalRun -> real {
    (r: EvalRun) => if !isBaseline then r.timing.totalTokens
         else if r.baselineTiming.Some? then r.baselineTiming.value.totalTokens else 0.0
  }

  function PassValue(isBaseline: bool): EvalRun -> real {
    (r: EvalRun) => if !isBaseline then (if r.grading.overall == Pass then 100.0 else 0.0)
         else if r.baselineGrading.Some? && r.baselineGrading.value.overall == Pass then 100.0 else 0.0
  }

  function CalculateConfigStats(runs: seq<EvalRun>, isBaseline: bool): ConfigStats {
    ConfigStats(
      CalculateStats(runs, PassValue(isBaseline)), CalculateStats(runs, DurationOf(isBaseline)),
      CalculateStats(runs, TokensOf(isBaseline)), CalculateStats(runs, ScoreOf(isBaseline)))
  }

  /** Positive means the skill does better; lower durations and token counts are better. */
  datatype Delta = Delta(passRate: real, score: real, durationMs: real, tokens: real)

  function CalculateDelta(w: ConfigStats, b: ConfigStats): Delta {
    Delta(Round2(w.passRate.mean - b.passRate.mean), Round2(w.score.mean - b.score.mean),
          Round2(b.durationMs.mean - w.durationMs.mean), Round2(b.tokens.mean - w.tokens.mean))
  }

  // ----------------------------------------------------------------------- grouping

  function IsPass(): EvalRun -> bool { (r: EvalRun) => r.grading.overall == Pass }

  function ChecksOf(): EvalRun -> seq<Check> { (r: EvalRun) => r.grading.checks }

  function BaselineChecksOf(): EvalRun -> seq<Check> {
    (r: EvalRun) => if r.baselineGrading.Some? then r.baselineGrading.value.checks else []
  }

  function AllChecks(runs: seq<EvalRun>): seq<Check> { Flatten(runs, ChecksOf()) }

  function AllBaselineChecks(runs: seq<EvalRun>): seq<Check> { Flatten(runs, BaselineChecksOf()) }

  function Passing(): Check -> bool { (c: Check) => c.passed }

  function KindOf(): Check -> Kind { (c: Check) => c.kind }

  function KindName(kind: Kind): string {
    match kind
    case Contains => "contains"
    case NotContains => "not_contains"
    case Regex => "regex"
    case Semantic => "semantic"
    case Custom => "custom"
  }

  /** The composite key under which an assertion is grouped. */
  function ValueKey(kind: Kind, value: string): string { KindName(kind) + "::" + value }

  function ValueKeyOf(): Check -> string { (c: Check) => ValueKey(c.kind, c.value) }

  function EvalIdOf(): EvalRun -> nat { (r: EvalRun) => r.evalId }

  /** The group sizes of one key: all items, and those selected. */
  datatype Tallied = Tallied(total: nat, passed: nat)

  function Tallying<T, K(==)>(items: seq<T>, key: T -> K, ok: T -> bool, k: K): Tallied {
    Tallied(Count(items, HasKey(key, k)), Count(Filter(items, ok), HasKey(key, k)))
  }

  function KeysOf<T(==), K(==)>(items: seq<T>, key: T -> K): set<K> {
    set x <- items :: key(x)
  }

  datatype CaseStats = CaseStats(runCount: nat, passCount: nat, passRate: real, averageScore: real)

  function RunsOfCase(runs: seq<EvalRun>, evalId: nat): seq<EvalRun> { Filter(runs, HasKey(EvalIdOf(), evalId)) }

  function AverageScore(runs: seq<EvalRun>): real { if runs == [] then 0.0 else Round2(Mean(runs, ScoreOf(false))) }

  function CaseStatsOf(caseRuns: seq<EvalRun>): CaseStats {
    var passed := Count(caseRuns, IsPass());
    CaseStats(|caseRuns|, passed, Rate(passed, |caseRuns|), AverageScore(caseRuns))
  }

  function ByCase(runs: seq<EvalRun>): map<nat, CaseStats> {
    map k | k in KeysOf(runs, EvalIdOf()) :: CaseStatsOf(RunsOfCase(runs, k))
  }

  datatype Discrimination = NonDiscriminating | Broken | SkillAddsValue | SkillHurts | Inconclusive

  function ClassifyDiscrimination(withSkill: real, baseline: real, baselineTotal: nat): Discrimination {
    if baselineTotal == 0 then Inconclusive
    else if withSkill >= 95.0 && baseline >= 95.0 then NonDiscriminating
    else if withSkill <= 5.0 && baseline <= 5.0 then Broken
    else if withSkill > baseline + 10.0 then SkillAddsValue
    else if baseline > withSkill + 10.0 then SkillHurts
    else Inconclusive
  }

  datatype ValueStats = ValueStats(
    withSkillPassRate: real, baselinePassRate: real, withSkillChecks: nat, baselineChecks: nat,
        discrimination: Discrimination)

  function ValueStatsOf(w: Tallied, b: Tallied): ValueStats {
    var wr, br := Rate(w.passed, w.total), Rate(b.passed, b.total);
    ValueStats(wr, br, w.total, b.total, ClassifyDiscrimination(wr, br, b.total))
  }

  function ValueStatsAt(runs: seq<EvalRun>, k: string): ValueStats {
    ValueStatsOf(Tallying(AllChecks(runs), ValueKeyOf(), Passing(), k),
                 Tallying(AllBaselineChecks(runs), ValueKeyOf(), Passing(), k))
  }

  function ByValue(runs: seq<EvalRun>): map<string, ValueStats> {
    map k | k in KeysOf(AllChecks(runs), ValueKeyOf()) + KeysOf(AllBaselineChecks(runs), ValueKeyOf()) ::
        ValueStatsAt(runs, k)
  }

  // ---------------------------------------------------------------------- per type

  /** The keys in the order they are first met, which is the order of the entries of `valueMap`. */
  function FirstMet<K(==)>(keys: seq<K>): (r: seq<K>)
    ensures NoDuplicates(r)
    ensures forall k <- r :: k in keys
    ensures forall k <- keys :: k in r
    decreases |keys|
  {
    if keys == [] then []
    else
      var rest := FirstMet(keys[..|keys| - 1]);
      if keys[|keys| - 1] in rest then rest else rest + [keys[|keys| - 1]]
  }

  /** Every check of a run, the with-skill ones first: the order in which `valueMap` meets them. */
  function BothChecksOf(): EvalRun -> seq<Check> {
    (r: EvalRun) => r.grading.checks + (if r.baselineGrading.Some? then r.baselineGrading.value.checks else [])
  }

  function Keys<T, K>(items: seq<T>, key: T -> K): seq<K> {
    seq(|items|, i requires 0 <= i < |items| => key(items[i]))
  }

  function ValueEntries(runs: seq<EvalRun>): seq<(Kind, string)> {
    FirstMet(Keys(Flatten(runs, BothChecksOf()), KindValue()))
  }

  function KindValue(): Check -> (Kind, string) { (c: Check) => (c.kind, c.value) }

  function OfKind(kind: Kind): ((Kind, string)) -> bool { (e: (Kind, string)) => e.0 == kind }

  /** The conclusive discriminations of the values of one type, in entry order. */
  function Conclusive(runs: seq<EvalRun>, kind: Kind): seq<Discrimination> {
    Filter(Keys(Filter(ValueEntries(runs), OfKind(kind)), DiscriminationOf(runs)), IsConclusive())
  }

  function IsConclusive(): Discrimination -> bool { (d: Discrimination) => d != Inconclusive }

  function DiscriminationOf(runs: seq<EvalRun>): ((Kind, string)) -> Discrimination {
    (e: (Kind, string)) => ValueStatsAt(runs, ValueKey(e.0, e.1)).discrimination
  }

  function Same<T(==)>(d: T): T -> bool { (e: T) => e == d }

  function Votes<T(==)>(ds: seq<T>, d: T): nat { Count(ds, Same(d)) }

  /** The first element with the most votes: a stable descending sort of the counts, then its head. */
  function Leader<T(==)>(candidates: seq<T>, ds: seq<T>): (d: T)
    requires candidates != []
    ensures d in candidates && forall e <- candidates :: Votes(ds, e) <= Votes(ds, d)
    decreases |candidates|
  {
    var n := |candidates|;
    if n == 1 then candidates[0]
    else
      var best := Leader(candidates[..n - 1], ds);
      if Votes(ds, candidates[n - 1]) > Votes(ds, best) then candidates[n - 1] else best
  }

  function TypeDiscrimination(ds: seq<Discrimination>): Discrimination {
    if ds == [] then Inconclusive
    else if forall d <- ds :: d == ds[0] then ds[0]
    else Leader(FirstMet(ds), ds)
  }

  datatype TypeStats = TypeStats(totalChecks: nat, passCount: nat, passRate: real, discrimination: Discrimination)

  function TypeStatsOf(c: Tallied, d: Discrimination): TypeStats {
    TypeStats(c.total, c.passed, Rate(c.passed, c.total), d)
  }

  function TypeStatsAt(runs: seq<EvalRun>, k: Kind): TypeStats {
    TypeStatsOf(Tallying(AllChecks(runs), KindOf(), Passing(), k), TypeDiscrimination(Conclusive(runs, k)))
  }

  function TypeStatsFor(runs: seq<EvalRun>): Kind -> TypeStats { (k: Kind) => TypeStatsAt(runs, k) }

  function Table<K, V>(keys: set<K>, f: K -> V): map<K, V> { map k | k in keys :: f(k) }

  lemma SameTable<K, V>(keys: set<K>, f: K -> V, g: K -> V)
    requires forall k <- keys :: f(k) == g(k)
    ensures Table(keys, f) == Table(keys, g)
  {
  }

  function ByType(runs: seq<EvalRun>): map<Kind, TypeStats> {
    Table(KeysOf(AllChecks(runs), KindOf()), TypeStatsFor(runs))
  }

  // ---------------------------------------------------------------------- iterations

  datatype Outcome = Baseline | Won | Lost | Tie

  datatype IterationStats = IterationStats(
    iteration: nat, skillVersion: nat, runCount: nat, passRate: real, averageScore: real,
    result: Outcome, passDelta: Option<real>, scoreDelta: Option<real>)

  function HasIteration(): EvalRun -> bool { (r: EvalRun) => r.iteration.Some? }

  function IterationOf(): EvalRun -> nat { (r: EvalRun) => if r.iteration.Some? then r.iteration.value else 0 }

  function RunsOfIteration(runs: seq<EvalRun>, k: nat): seq<EvalRun> {
    Filter(Filter(runs, HasIteration()), HasKey(IterationOf(), k))
  }

  function Iterations(runs: seq<EvalRun>): set<nat> { KeysOf(Filter(runs, HasIteration()), IterationOf()) }

  function LeastUpTo(s: set<nat>, from: nat, bound: nat): (m: nat)
    requires exists x :: x in s && from <= x <= bound
    requires forall x <- s :: from <= x
    ensures m in s && forall x <- s :: m <= x
    decreases bound - from
  {
    if from in s then from else LeastUpTo(s, from + 1, bound)
  }

  ghost function Least(s: set<nat>): (m: nat)
    requires s != {}
    ensures m in s && forall x <- s :: m <= x
  {
    var bound :| bound in s;
    LeastUpTo(s, 0, bound)
  }

  /** The keys in increasing order. */
  ghost function Sorted(s: set<nat>): (r: seq<nat>)
    ensures forall x :: x in r <==> x in s
    ensures forall i, j | 0 <= i < j < |r| :: r[i] < r[j]
  {
    if s == {} then []
    else
      var m := Least(s);
      [m] + Sorted(s - {m})
  }

  function VersionOrOne(r: EvalRun): nat { if r.version.Some? then r.version.value else 1 }

  function FirstVersion(iterRuns: seq<EvalRun>): nat { if iterRuns == [] then 1 else VersionOrOne(iterRuns[0]) }

  function Verdict(passRate: real, score: real, prev: IterationStats): Outcome {
    if passRate > prev.passRate + 1.0 || score > prev.averageScore + 1.0 then Won
    else if passRate < prev.passRate - 1.0 || score < prev.averageScore - 1.0 then Lost
    else Tie
  }

  /** The figures of an iteration against those of the one before. */
  function Compared(k: nat, version: nat, n: nat, passRate: real, score: real,
      prev: Option<IterationStats>): IterationStats {
    if prev.None? then
      IterationStats(k, version, n, passRate, score, Baseline, None, None)
    else
      IterationStats(k, version, n, passRate, score, Verdict(passRate, score, prev.value),
        Some(Round2(passRate - prev.value.passRate)), Some(Round2(score - prev.value.averageScore)))
  }

  function IterationStatsOf(k: nat, iterRuns: seq<EvalRun>, prev: Option<IterationStats>): IterationStats {
    Compared(k, FirstVersion(iterRuns), |iterRuns|, Rate(Count(iterRuns, IsPass()), |iterRuns|),
        AverageScore(iterRuns), prev)
  }

  function IterationChain(runs: seq<EvalRun>, ks: seq<nat>, prev: Option<IterationStats>): seq<IterationStats> {
    if ks == [] then []
    else
      var s := IterationStatsOf(ks[0], RunsOfIteration(runs, ks[0]), prev);
      [s] + IterationChain(runs, ks[1..], Some(s))
  }

  ghost function CalculateIterationStats(runs: seq<EvalRun>): seq<IterationStats> {
    IterationChain(runs, Sorted(Iterations(runs)), None)
  }

  // ------------------------------------------------------------------- the benchmark

  datatype EvalBenchmark = EvalBenchmark(
    totalRuns: nat, passRate: real, averageScore: real, averageDurationMs: int, averageTokens: int,
    byType: map<Kind, TypeStats>, byCase: map<nat, CaseStats>, byValue: map<string, ValueStats>,
    withSkill: Option<ConfigStats>, baseline: Option<ConfigStats>, delta: Option<Delta>,
    byIteration: seq<IterationStats>)

  const EMPTY_BENCHMARK := EvalBenchmark(0, 0.0, 0.0, 0, 0, map[], map[], map[], None, None, None, [])

  function IsCompleted(): EvalRun -> bool { (r: EvalRun) => r.status == Completed }

  function HasVersion(v: nat): EvalRun -> bool { (r: EvalRun) => r.version == Some(v) }

  function IsGraded(): EvalRun -> bool { (r: EvalRun) => !r.grading.gradingError }

  function HasBaseline(): EvalRun -> bool { (r: EvalRun) => r.baselineGrading.Some? && r.baselineTiming.Some? }

  ghost function ComputeBenchmark(evalRuns: seq<EvalRun>, version: Option<nat>): EvalBenchmark {
    var completedStatusRuns := Filter(evalRuns, IsCompleted());
    var scopedStatusRuns := if version.Some? then Filter(completedStatusRuns, HasVersion(version.value))
        else completedStatusRuns;
    var allCompletedRuns := Filter(completedStatusRuns, IsGraded());
    var completedRuns := Filter(scopedStatusRuns, IsGraded());
    if completedRuns == [] then EMPTY_BENCHMARK
    else Summarise(completedRuns, if version.Some? then completedRuns else allCompletedRuns)
  }

  ghost function Summarise(runs: seq<EvalRun>, timeline: seq<EvalRun>): EvalBenchmark
    requires runs != []
  {
    var withSkill := CalculateConfigStats(runs, false);
    var runsWithBaseline := Filter(runs, HasBaseline());
    var baseline := if runsWithBaseline != [] then Some(CalculateConfigStats(runsWithBaseline, true)) else None;
    EvalBenchmark(
      |runs|,
      Rate(Count(runs, IsPass()), |runs|),
      Round2(Mean(runs, ScoreOf(false))),
      Round(Mean(runs, DurationOf(false))),
      Round(Mean(runs, TokensOf(false))),
      ByType(runs), ByCase(runs), ByValue(runs),
      Some(withSkill), baseline,
      if baseline.Some? then Some(CalculateDelta(withSkill, baseline.value)) else None,
      CalculateIterationStats(timeline))
  }
}
