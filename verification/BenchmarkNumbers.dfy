/** What the numbers of a benchmark satisfy: bounds, exact variance, conservation of counts,
    telescoping deltas and disjoint discrimination guards. */
module BenchmarkNumbers {
  import opened Common
  import opened Tally
  import opened Benchmark

  // ----------------------------------------------------------------------- rounding

  lemma Round2Monotone(x: real, y: real)
    requires x <= y
    ensures Round2(x) <= Round2(y)
  {
    assert Round(x * 100.0) <= Round(y * 100.0);
  }

  /** Rounding is exact on hundredths, so it does nothing to a value already rounded. */
  lemma Round2Exact(n: int)
    ensures Round2(n as real / 100.0) == n as real / 100.0
  {
    var x := n as real / 100.0;
    assert x * 100.0 == n as real;
    assert (n as real + 0.5).Floor == n;
  }

  predicate Hundredths(x: real) {
    Round2(x) == x
  }

  lemma HundredthsDiffer(x: real, y: real)
    requires Hundredths(x) && Hundredths(y)
    ensures Hundredths(x - y)
  {
    var n, m := Round(x * 100.0), Round(y * 100.0);
    assert x - y == (n - m) as real / 100.0;
    Round2Exact(n - m);
  }

  lemma RateBounds(part: nat, whole: nat)
    requires part <= whole
    ensures 0.0 <= Rate(part, whole) <= 100.0 && Hundredths(Rate(part, whole))
  {
    Round2Exact(0);
    if whole > 0 {
      var x := part as real / whole as real;
      assert 0.0 <= x <= 1.0;
      Round2Monotone(0.0, x * 100.0);
      Round2Exact(10000);
      Round2Monotone(x * 100.0, 100.0);
      Round2Exact(Round(x * 100.0 * 100.0));
    }
  }

  // ---------------------------------------------------------------------- min/mean/max

  lemma {:induction false} MinMaxBound<T>(s: seq<T>, f: T -> real)
    requires s != []
    ensures forall x <- s :: MinOf(s, f) <= f(x) <= MaxOf(s, f)
    ensures exists x <- s :: f(x) == MinOf(s, f)
    ensures exists x <- s :: f(x) == MaxOf(s, f)
  {
    assert s[0] in s;
    if |s| > 1 {
      MinMaxBound(s[1..], f);
      assert forall x <- s :: x == s[0] || x in s[1..];
      assert forall x <- s[1..] :: x in s;
    }
  }

  lemma {:induction false} SumBetween<T>(s: seq<T>, f: T -> real, low: real, high: real)
    requires forall x <- s :: low <= f(x) <= high
    ensures low * |s| as real <= Sum(s, f) <= high * |s| as real
  {
    if s != [] {
      assert s[0] in s;
      SumBetween(s[1..], f, low, high);
      assert |s| as real == |s[1..]| as real + 1.0;
    }
  }

  lemma MeanBetween<T>(s: seq<T>, f: T -> real)
    requires s != []
    ensures MinOf(s, f) <= Mean(s, f) <= MaxOf(s, f)
  {
    MinMaxBound(s, f);
    SumBetween(s, f, MinOf(s, f), MaxOf(s, f));
    var n := |s| as real;
    DivideBounds(Sum(s, f), n, MinOf(s, f), MaxOf(s, f));
  }

  lemma TimesMonotone(a: real, b: real, n: real)
    requires a < b && n > 0.0
    ensures a * n < b * n
  {
    assert b * n - a * n == (b - a) * n;
  }

  lemma DivideBounds(x: real, n: real, low: real, high: real)
    requires n > 0.0 && low * n <= x <= high * n
    ensures low <= x / n <= high
  {
    var q := x / n;
    assert q * n == x;
    if q < low { TimesMonotone(q, low, n); }
    if q > high { TimesMonotone(high, q, n); }
  }

  /** The reported minimum, mean and maximum of any non-empty series are in order. */
  lemma StatsInOrder<T>(s: seq<T>, f: T -> real)
    requires s != []
    ensures CalculateStats(s, f).min <= CalculateStats(s, f).mean <= CalculateStats(s, f).max
  {
    MeanBetween(s, f);
    Round2Monotone(MinOf(s, f), Mean(s, f));
    Round2Monotone(Mean(s, f), MaxOf(s, f));
  }

  // ------------------------------------------------------------------ variance of passes

  /** A series of 0s and 100s, 100 exactly where `p` holds. */
  ghost predicate PassSeries<T(!new)>(f: T -> real, p: T -> bool) {
    forall x :: f(x) == if p(x) then 100.0 else 0.0
  }

  lemma {:induction false} PassSum<T(!new)>(s: seq<T>, f: T -> real, p: T -> bool)
    requires PassSeries(f, p)
    ensures Sum(s, f) == 100.0 * Count(s, p) as real
  {
    if s != [] { PassSum(s[1..], f, p); }
  }

  /** The sum of squared distances from `mean`, of `passed` hundreds and n - passed zeros. */
  ghost predicate SpreadSum(sum: real, mean: real, passed: nat, n: nat) {
    sum == passed as real * ((100.0 - mean) * (100.0 - mean)) + (n as real - passed as real) * (mean * mean)
  }

  lemma {:induction false} PassSquares<T(!new)>(s: seq<T>, f: T -> real, p: T -> bool, mean: real)
    requires PassSeries(f, p)
    ensures SpreadSum(Sum(s, SquaredDiff(f, mean)), mean, Count(s, p), |s|)
  {
    if s != [] {
      PassSquares(s[1..], f, p, mean);
      var q, n, a, b := Count(s[1..], p) as real, |s[1..]| as real - Count(s[1..], p) as real,
          (100.0 - mean) * (100.0 - mean), mean * mean;
      assert SquaredDiff(f, mean)(s[0]) == if p(s[0]) then a else b by {
        assert (0.0 - mean) * (0.0 - mean) == mean * mean;
      }
      assert (q + 1.0) * a == q * a + a;
      assert (n + 1.0) * b == n * b + b;
    }
  }

  function SpreadOf(passed: nat, n: nat): real
    requires n > 1
  {
    var p, m := passed as real, n as real;
    assert m * (m - 1.0) > 0.0;
    10000.0 * p * (m - p) / (m * (m - 1.0))
  }

  lemma SpreadOfPasses(p: real, n: real, m: real)
    requires m * n == 100.0 * p
    ensures (p * ((100.0 - m) * (100.0 - m)) + (n - p) * (m * m)) * n == 10000.0 * p * (n - p)
  {
    var lhs := p * ((100.0 - m) * (100.0 - m)) + (n - p) * (m * m);
    assert lhs == 10000.0 * p - 200.0 * (p * m) + n * (m * m) by {
      assert (100.0 - m) * (100.0 - m) == 10000.0 - 200.0 * m + m * m;
      assert p * (10000.0 - 200.0 * m + m * m) == 10000.0 * p - 200.0 * (p * m) + p * (m * m);
    }
    assert n * (m * m) == 100.0 * (p * m);
    assert lhs == 10000.0 * p - 100.0 * (p * m);
    assert (p * m) * n == p * (100.0 * p);
  }

  lemma QuotientTimes(x: real, n: real)
    requires n > 0.0
    ensures (x / n) * n == x
  {
  }

  lemma SpreadFromSquares(sum: real, mean: real, passed: nat, n: nat)
    requires n > 1 && mean == 100.0 * passed as real / n as real
    requires SpreadSum(sum, mean, passed, n)
    ensures sum / (n - 1) as real == SpreadOf(passed, n)
  {
    var p, m := passed as real, n as real;
    QuotientTimes(100.0 * p, m);
    SpreadOfPasses(p, m, mean);
    CrossDivide(sum, 10000.0 * p * (m - p), m, m - 1.0);
  }

  lemma CrossDivide(x: real, y: real, n: real, d: real)
    requires n > 0.0 && d > 0.0 && x * n == y
    ensures n * d != 0.0 && x / d == y / (n * d)
  {
    assert n * d > 0.0;
    var q := x / d;
    assert q * d == x;
    assert q * (n * d) == y;
  }

  lemma MeanOfPasses<T(!new)>(s: seq<T>, f: T -> real, p: T -> bool)
    requires PassSeries(f, p) && s != []
    ensures Mean(s, f) == 100.0 * Count(s, p) as real / |s| as real
  {
    PassSum(s, f, p);
    MeanFromSum(s, f, 100.0 * Count(s, p) as real);
  }

  lemma MeanFromSum<T>(s: seq<T>, f: T -> real, sum: real)
    requires s != [] && Sum(s, f) == sum
    ensures Mean(s, f) == sum / |s| as real
  {
  }

  /** With p of n runs passing, the sample variance of the pass series is 10000 p (n-p) / (n (n-1)). */
  lemma PassVariance<T(!new)>(s: seq<T>, f: T -> real, p: T -> bool)
    requires PassSeries(f, p) && |s| > 1
    ensures Variance(s, f) == SpreadOf(Count(s, p), |s|)
  {
    MeanOfPasses(s, f, p);
    PassSquares(s, f, p, Mean(s, f));
    SpreadFromSquares(Sum(s, SquaredDiff(f, Mean(s, f))), Mean(s, f), Count(s, p), |s|);
  }

  function BaselinePass(): EvalRun -> bool {
    (r: EvalRun) => r.baselineGrading.Some? && r.baselineGrading.value.overall == Pass
  }

  lemma PassRateVariance(runs: seq<EvalRun>, isBaseline: bool)
    requires |runs| > 1
    ensures CalculateConfigStats(runs, isBaseline).passRate.variance
         == SpreadOf(Count(runs, if isBaseline then BaselinePass() else IsPass()), |runs|)
  {
    PassVariance(runs, PassValue(isBaseline), if isBaseline then BaselinePass() else IsPass());
  }

  // ------------------------------------------------------------------- conservation

  /** A list of exactly the keys of a map, each once. */
  ghost predicate Enumerates<K(!new), V>(keys: seq<K>, m: map<K, V>) {
    NoDuplicates(keys) && forall k :: k in keys <==> k in m
  }

  function All<K>(): K -> bool { (k: K) => true }

  lemma {:induction false} CountAll<T>(s: seq<T>, p: T -> bool)
    requires forall x <- s :: p(x)
    ensures Count(s, p) == |s|
  {
    if s != [] {
      assert s[0] in s;
      CountAll(s[1..], p);
    }
  }

  lemma {:induction false} TotalIsGroupTotal<T, K>(
      keys: seq<K>, size: K -> int, items: seq<T>, key: T -> K, sel: K -> bool)
    requires forall k <- keys :: size(k) == if sel(k) then Count(items, HasKey(key, k)) else 0
    ensures Total(keys, size) == GroupTotal(keys, items, key, sel)
  {
    if keys != [] {
      assert keys[0] in keys;
      TotalIsGroupTotal(keys[1..], size, items, key, sel);
    }
  }

  /** Group sizes over distinct keys that cover all items add up to the number of items. */
  lemma SizesAddUp<T, K>(keys: seq<K>, size: K -> int, items: seq<T>, key: T -> K)
    requires NoDuplicates(keys) && forall x <- items :: key(x) in keys
    requires forall k <- keys :: size(k) == Count(items, HasKey(key, k))
    ensures Total(keys, size) == |items|
  {
    TotalIsGroupTotal(keys, size, items, key, All());
    GroupsConserve(keys, items, key, All());
    CountAll(items, KeySelected(key, All()));
  }

  function CaseRuns(m: map<nat, CaseStats>): nat -> int { (k: nat) => if k in m then m[k].runCount else 0 }

  function CasePasses(m: map<nat, CaseStats>): nat -> int { (k: nat) => if k in m then m[k].passCount else 0 }

  /** Per-case run and pass counts add up to the totals, in whatever order the cases are listed. */
  lemma CasesConserve(runs: seq<EvalRun>, cases: seq<nat>)
    requires Enumerates(cases, ByCase(runs))
    ensures Total(cases, CaseRuns(ByCase(runs))) == |runs|
    ensures Total(cases, CasePasses(ByCase(runs))) == Count(runs, IsPass())
  {
    var m, passed := ByCase(runs), Filter(runs, IsPass());
    forall k <- cases
      ensures CaseRuns(m)(k) == Count(runs, HasKey(EvalIdOf(), k))
          && CasePasses(m)(k) == Count(passed, HasKey(EvalIdOf(), k))
    {
      CountIsFilter(runs, HasKey(EvalIdOf(), k));
      CountOfFilter(runs, HasKey(EvalIdOf(), k), IsPass());
    }
    assert forall x <- runs :: EvalIdOf()(x) in m;
    SizesAddUp(cases, CaseRuns(m), runs, EvalIdOf());
    SizesAddUp(cases, CasePasses(m), passed, EvalIdOf());
    CountIsFilter(runs, IsPass());
  }

  lemma {:induction false} CountOfFilter<T>(s: seq<T>, p: T -> bool, q: T -> bool)
    ensures Count(Filter(s, p), q) == Count(Filter(s, q), p)
  {
    if s != [] {
      CountOfFilter(s[1..], p, q);
      CountAppend(if p(s[0]) then [s[0]] else [], Filter(s[1..], p), q);
      CountAppend(if q(s[0]) then [s[0]] else [], Filter(s[1..], q), p);
      assert Count([s[0]], q) == (if q(s[0]) then 1 else 0) && Count([s[0]], p) == (if p(s[0]) then 1 else 0);
    }
  }

  // ----------------------------------------------------- values of a type add up to the type

  lemma ColonFree(k: Kind)
    ensures ':' !in KindName(k)
  {
  }

  lemma KindNamesDiffer(a: Kind, b: Kind)
    requires KindName(a) == KindName(b)
    ensures a == b
  {
    assert KindName(Contains)[0] == 'c' && KindName(Semantic)[0] == 's';
  }

  lemma FirstColon(a: string, x: string)
    requires ':' !in a
    ensures var s := a + "::" + x;
            s[|a|] == ':' && s[..|a|] == a && s[|a| + 2..] == x
            && forall i | 0 <= i < |a| :: s[i] != ':'
  {
    var s := a + "::" + x;
    assert s[..|a|] == a && s[|a| + 2..] == x;
    assert forall i | 0 <= i < |a| :: s[i] == a[i] && a[i] in a;
  }

  lemma SplitsAtColon(a: string, x: string, b: string, y: string)
    requires ':' !in a && ':' !in b && a + "::" + x == b + "::" + y
    ensures a == b && x == y
  {
    FirstColon(a, x);
    FirstColon(b, y);
  }

  /** The composite grouping key names one assertion: no type name holds a colon. */
  lemma ValueKeyInjective(k1: Kind, v1: string, k2: Kind, v2: string)
    requires ValueKey(k1, v1) == ValueKey(k2, v2)
    ensures k1 == k2 && v1 == v2
  {
    ColonFree(k1);
    ColonFree(k2);
    SplitsAtColon(KindName(k1), v1, KindName(k2), v2);
    KindNamesDiffer(k1, k2);
  }

  function ValueOf(): Check -> string { (c: Check) => c.value }

  /** The checks of one assertion, looked up by its composite key. */
  function ChecksAt(checks: seq<Check>, kind: Kind): string -> int {
    (v: string) => Count(checks, HasKey(ValueKeyOf(), ValueKey(kind, v)))
  }

  lemma CountWithin<T>(s: seq<T>, p: T -> bool, q: T -> bool, both: T -> bool)
    requires forall x <- s :: both(x) == (p(x) && q(x))
    ensures Count(Filter(s, p), q) == Count(s, both)
  {
    FilterTwice(s, p, q, both);
    CountIsFilter(Filter(s, p), q);
    CountIsFilter(s, both);
  }

  lemma ChecksConserve(checks: seq<Check>, kind: Kind, values: seq<string>)
    requires NoDuplicates(values) && forall c <- checks :: c.kind == kind ==> c.value in values
    ensures Total(values, ChecksAt(checks, kind)) == Count(checks, HasKey(KindOf(), kind))
  {
    var ofKind := Filter(checks, HasKey(KindOf(), kind));
    forall v <- values ensures ChecksAt(checks, kind)(v) == Count(ofKind, HasKey(ValueOf(), v)) {
      forall c <- checks
        ensures HasKey(ValueKeyOf(), ValueKey(kind, v))(c) == (HasKey(KindOf(), kind)(c) && HasKey(ValueOf(), v)(c))
      {
        if ValueKey(c.kind, c.value) == ValueKey(kind, v) { ValueKeyInjective(c.kind, c.value, kind, v); }
      }
      CountWithin(checks, HasKey(KindOf(), kind), HasKey(ValueOf(), v), HasKey(ValueKeyOf(), ValueKey(kind, v)));
    }
    SizesAddUp(values, ChecksAt(checks, kind), ofKind, ValueOf());
    CountIsFilter(checks, HasKey(KindOf(), kind));
  }

  function WithSkillChecksAt(m: map<string, ValueStats>, kind: Kind): string -> int {
    (v: string) => if ValueKey(kind, v) in m then m[ValueKey(kind, v)].withSkillChecks else 0
  }

  function BaselineChecksAt(m: map<string, ValueStats>, kind: Kind): string -> int {
    (v: string) => if ValueKey(kind, v) in m then m[ValueKey(kind, v)].baselineChecks else 0
  }

  lemma {:induction false} TotalSame<K>(keys: seq<K>, f: K -> int, g: K -> int)
    requires forall k <- keys :: f(k) == g(k)
    ensures Total(keys, f) == Total(keys, g)
  {
    if keys != [] {
      assert keys[0] in keys;
      TotalSame(keys[1..], f, g);
    }
  }

  /** The with-skill checks of the values of one type add up to that type's checks, the baseline
      checks to the type's baseline checks; a type absent from the type statistics has none. */
  lemma ValuesConserve(runs: seq<EvalRun>, kind: Kind, values: seq<string>)
    requires NoDuplicates(values) && forall v :: v in values <==> ValueKey(kind, v) in ByValue(runs)
    ensures Total(values, WithSkillChecksAt(ByValue(runs), kind))
        == if kind in ByType(runs) then ByType(runs)[kind].totalChecks else 0
    ensures Total(values, BaselineChecksAt(ByValue(runs), kind))
        == Count(AllBaselineChecks(runs), HasKey(KindOf(), kind))
  {
    var w, b := AllChecks(runs), AllBaselineChecks(runs);
    forall c: Check | (c in w || c in b) && c.kind == kind ensures c.value in values {
      assert ValueKeyOf()(c) == ValueKey(kind, c.value);
    }
    ChecksConserve(w, kind, values);
    ChecksConserve(b, kind, values);
    TotalSame(values, WithSkillChecksAt(ByValue(runs), kind), ChecksAt(w, kind));
    TotalSame(values, BaselineChecksAt(ByValue(runs), kind), ChecksAt(b, kind));
    if kind !in ByType(runs) {
      CountIsFilter(w, HasKey(KindOf(), kind));
      FilterNone(w, HasKey(KindOf(), kind));
    }
  }

  // --------------------------------------------------------------------- iterations

  function RunCountOf(): IterationStats -> int { (s: IterationStats) => s.runCount }

  function IterationSize(runs: seq<EvalRun>): nat -> int { (k: nat) => |RunsOfIteration(runs, k)| }

  lemma {:induction false} ChainShape(runs: seq<EvalRun>, ks: seq<nat>, prev: Option<IterationStats>)
    ensures var c := IterationChain(runs, ks, prev);
            && |c| == |ks|
            && Total(c, RunCountOf()) == Total(ks, IterationSize(runs))
            && (forall i | 0 <= i < |c| :: c[i].iteration == ks[i])
            && (forall i | 0 <= i < |c| :: c[i].result == Baseline <==> i == 0 && prev.None?)
    decreases |ks|
  {
    if ks != [] {
      ChainShape(runs, ks[1..], Some(IterationStatsOf(ks[0], RunsOfIteration(runs, ks[0]), prev)));
    }
  }

  /** The iterations are listed in increasing order, only the first is the baseline, and their run
      counts add up to the number of runs that carry an iteration number. */
  lemma IterationsConserve(runs: seq<EvalRun>)
    ensures var c := CalculateIterationStats(runs);
            && Total(c, RunCountOf()) == Count(runs, HasIteration())
            && (forall i, j | 0 <= i < j < |c| :: c[i].iteration < c[j].iteration)
            && (forall i | 0 <= i < |c| :: c[i].result == Baseline <==> i == 0)
  {
    var ks, iterated := Sorted(Iterations(runs)), Filter(runs, HasIteration());
    ChainShape(runs, ks, None);
    forall k <- ks ensures IterationSize(runs)(k) == Count(iterated, HasKey(IterationOf(), k)) {
      CountIsFilter(iterated, HasKey(IterationOf(), k));
    }
    SizesAddUp(ks, IterationSize(runs), iterated, IterationOf());
    CountIsFilter(runs, HasIteration());
  }

  function PassDeltaOf(): IterationStats -> real {
    (s: IterationStats) => if s.passDelta.Some? then s.passDelta.value else 0.0
  }

  function ScoreDeltaOf(): IterationStats -> real {
    (s: IterationStats) => if s.scoreDelta.Some? then s.scoreDelta.value else 0.0
  }

  lemma IterationHundredths(k: nat, iterRuns: seq<EvalRun>, prev: Option<IterationStats>)
    ensures Hundredths(IterationStatsOf(k, iterRuns, prev).passRate)
        && Hundredths(IterationStatsOf(k, iterRuns, prev).averageScore)
  {
    RateBounds(Count(iterRuns, IsPass()), |iterRuns|);
    Round2Exact(0);
    if iterRuns != [] { Round2Exact(Round(Mean(iterRuns, ScoreOf(false)) * 100.0)); }
  }

  lemma {:induction false} ChainTelescopes(runs: seq<EvalRun>, ks: seq<nat>, prev: IterationStats)
    requires ks != [] && Hundredths(prev.passRate) && Hundredths(prev.averageScore)
    ensures var c := IterationChain(runs, ks, Some(prev));
            && c != []
            && Sum(c, PassDeltaOf()) == c[|c| - 1].passRate - prev.passRate
            && Sum(c, ScoreDeltaOf()) == c[|c| - 1].averageScore - prev.averageScore
    decreases |ks|
  {
    var s := IterationStatsOf(ks[0], RunsOfIteration(runs, ks[0]), Some(prev));
    IterationHundredths(ks[0], RunsOfIteration(runs, ks[0]), Some(prev));
    HundredthsDiffer(s.passRate, prev.passRate);
    HundredthsDiffer(s.averageScore, prev.averageScore);
    var rest := IterationChain(runs, ks[1..], Some(s));
    assert IterationChain(runs, ks, Some(prev)) == [s] + rest && ([s] + rest)[1..] == rest;
    if ks[1..] != [] { ChainTelescopes(runs, ks[1..], s); }
  }

  /** The rounded deltas between iterations add up exactly to the last value minus the first. */
  lemma DeltasTelescope(runs: seq<EvalRun>)
    requires CalculateIterationStats(runs) != []
    ensures var c := CalculateIterationStats(runs);
            && Sum(c, PassDeltaOf()) == c[|c| - 1].passRate - c[0].passRate
            && Sum(c, ScoreDeltaOf()) == c[|c| - 1].averageScore - c[0].averageScore
  {
    var ks := Sorted(Iterations(runs));
    var s := IterationStatsOf(ks[0], RunsOfIteration(runs, ks[0]), None);
    IterationHundredths(ks[0], RunsOfIteration(runs, ks[0]), None);
    var rest := IterationChain(runs, ks[1..], Some(s));
    assert IterationChain(runs, ks, None) == [s] + rest && ([s] + rest)[1..] == rest;
    if ks[1..] != [] { ChainTelescopes(runs, ks[1..], s); }
  }

  // ------------------------------------------------------------------ discrimination

  lemma TallyBounds<T, K>(items: seq<T>, key: T -> K, ok: T -> bool, k: K)
    ensures Tallying(items, key, ok, k).passed <= Tallying(items, key, ok, k).total
  {
    CountOfFilter(items, ok, HasKey(key, k));
    CountIsFilter(items, HasKey(key, k));
  }

  /** On computed rates no two of the four guards hold together, so each label is equivalent to its
      own guard and the order of the tests is irrelevant. */
  lemma GuardsAreExclusive(runs: seq<EvalRun>, key: string)
    requires key in ByValue(runs)
    ensures var v := ByValue(runs)[key];
            var w, b, known := v.withSkillPassRate, v.baselinePassRate, v.baselineChecks > 0;
            && (v.discrimination == NonDiscriminating <==> known && w >= 95.0 && b >= 95.0)
            && (v.discrimination == Broken <==> known && w <= 5.0 && b <= 5.0)
            && (v.discrimination == SkillAddsValue <==> known && w > b + 10.0)
            && (v.discrimination == SkillHurts <==> known && b > w + 10.0)
  {
    var w, b := Tallying(AllChecks(runs), ValueKeyOf(), Passing(), key),
        Tallying(AllBaselineChecks(runs), ValueKeyOf(), Passing(), key);
    TallyBounds(AllChecks(runs), ValueKeyOf(), Passing(), key);
    TallyBounds(AllBaselineChecks(runs), ValueKeyOf(), Passing(), key);
    RateBounds(w.passed, w.total);
    RateBounds(b.passed, b.total);
  }

  // ------------------------------------------------------------- one summary, several views

  lemma SamePassMean(runs: seq<EvalRun>)
    requires runs != []
    ensures Mean(runs, PassValue(false)) == Count(runs, IsPass()) as real / |runs| as real * 100.0
  {
    PassSum(runs, PassValue(false), IsPass());
    var sum, x, n := Sum(runs, PassValue(false)), Count(runs, IsPass()) as real, |runs| as real;
    Scaled(sum, x, n);
  }

  lemma Scaled(sum: real, x: real, n: real)
    requires n > 0.0 && sum == 100.0 * x
    ensures sum / n == x / n * 100.0
  {
  }

  lemma RoundingError(x: real)
    ensures -0.5 <= Round(x) as real - x <= 0.5
    ensures -0.005 <= Round2(x) - x <= 0.005
  {
  }

  /** The headline figures agree with the statistics of the same benchmark: exactly for pass rate
      and score, within rounding for the duration and the tokens. */
  lemma HeadlineAgrees(runs: seq<EvalRun>)
    requires runs != []
    ensures var b, w := Summarise(runs, runs), CalculateConfigStats(runs, false);
            && b.withSkill == Some(w) && b.passRate == w.passRate.mean && b.averageScore == w.score.mean
            && -0.505 <= b.averageDurationMs as real - w.durationMs.mean <= 0.505
            && -0.505 <= b.averageTokens as real - w.tokens.mean <= 0.505
  {
    SamePassMean(runs);
    RoundingError(Mean(runs, DurationOf(false)));
    RoundingError(Mean(runs, TokensOf(false)));
  }

  lemma StatsHundredths<T>(s: seq<T>, f: T -> real)
    ensures Hundredths(CalculateStats(s, f).mean)
  {
    Round2Exact(0);
    if s != [] { Round2Exact(Round(Mean(s, f) * 100.0)); }
  }

  /** The deltas are exact differences of the reported means, positive where the skill does better:
      higher pass rate and score, shorter duration, fewer tokens. */
  lemma DeltaIsExact(runs: seq<EvalRun>, paired: seq<EvalRun>)
    ensures var w, b := CalculateConfigStats(runs, false), CalculateConfigStats(paired, true);
            var d := CalculateDelta(w, b);
            && w.passRate.mean == b.passRate.mean + d.passRate && w.score.mean == b.score.mean + d.score
            && b.durationMs.mean == w.durationMs.mean + d.durationMs && b.tokens.mean == w.tokens.mean + d.tokens
  {
    StatsHundredths(runs, PassValue(false));
    StatsHundredths(runs, ScoreOf(false));
    StatsHundredths(runs, DurationOf(false));
    StatsHundredths(runs, TokensOf(false));
    StatsHundredths(paired, PassValue(true));
    StatsHundredths(paired, ScoreOf(true));
    StatsHundredths(paired, DurationOf(true));
    StatsHundredths(paired, TokensOf(true));
    ExactDeltas(CalculateConfigStats(runs, false), CalculateConfigStats(paired, true));
  }

  predicate MeansExact(c: ConfigStats) {
    Hundredths(c.passRate.mean) && Hundredths(c.score.mean) && Hundredths(c.durationMs.mean)
        && Hundredths(c.tokens.mean)
  }

  lemma ExactDeltas(w: ConfigStats, b: ConfigStats)
    requires MeansExact(w) && MeansExact(b)
    ensures CalculateDelta(w, b) == Delta(w.passRate.mean - b.passRate.mean, w.score.mean - b.score.mean,
                                          b.durationMs.mean - w.durationMs.mean, b.tokens.mean - w.tokens.mean)
  {
    HundredthsDiffer(w.passRate.mean, b.passRate.mean);
    HundredthsDiffer(w.score.mean, b.score.mean);
    HundredthsDiffer(b.durationMs.mean, w.durationMs.mean);
    HundredthsDiffer(b.tokens.mean, w.tokens.mean);
  }

  /** Seen from the other iteration, a loss is a win and a tie is a tie; a win is a loss unless the
      other iteration also wins on one of the two figures. */
  lemma VerdictMirror(a: IterationStats, b: IterationStats)
    ensures Verdict(a.passRate, a.averageScore, b) == Lost ==> Verdict(b.passRate, b.averageScore, a) == Won
    ensures Verdict(a.passRate, a.averageScore, b) == Tie <==> Verdict(b.passRate, b.averageScore, a) == Tie
    ensures Verdict(a.passRate, a.averageScore, b) == Won && Verdict(b.passRate, b.averageScore, a) == Won
       <==> (|| (a.passRate > b.passRate + 1.0 && a.averageScore < b.averageScore - 1.0)
             || (a.passRate < b.passRate - 1.0 && a.averageScore > b.averageScore + 1.0))
  {
  }

  function TypeChecks(m: map<Kind, TypeStats>): Kind -> int { (k: Kind) => if k in m then m[k].totalChecks else 0 }

  function TypePasses(m: map<Kind, TypeStats>): Kind -> int { (k: Kind) => if k in m then m[k].passCount else 0 }

  /** Per-type check and pass counts add up to all with-skill checks and all that passed. */
  lemma TypesConserve(runs: seq<EvalRun>, kinds: seq<Kind>)
    requires Enumerates(kinds, ByType(runs))
    ensures Total(kinds, TypeChecks(ByType(runs))) == |AllChecks(runs)|
    ensures Total(kinds, TypePasses(ByType(runs))) == Count(AllChecks(runs), Passing())
  {
    var m, checks := ByType(runs), AllChecks(runs);
    var passed := Filter(checks, Passing());
    assert forall k <- kinds ::
            TypeChecks(m)(k) == Count(checks, HasKey(KindOf(), k))
            && TypePasses(m)(k) == Count(passed, HasKey(KindOf(), k));
    assert forall c <- checks :: KindOf()(c) in m;
    SizesAddUp(kinds, TypeChecks(m), checks, KindOf());
    SizesAddUp(kinds, TypePasses(m), passed, KindOf());
    CountIsFilter(checks, Passing());
  }
}
