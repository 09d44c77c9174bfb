/** What a benchmark does not depend on: the order of the runs, runs that are unfinished or failed
    in grading, and, for one version, the runs of other versions. */
module BenchmarkOrder {
  import opened Common
  import opened Tally
  import opened Benchmark
  import Numbers = BenchmarkNumbers

  // ----------------------------------------------------------- which runs are looked at

  function IsQuality(): EvalRun -> bool { (r: EvalRun) => r.status == Completed && !r.grading.gradingError }

  function InScope(version: Option<nat>): EvalRun -> bool {
    (r: EvalRun) => version.Some? ==> r.version == version
  }

  /** The runs a benchmark is computed from. */
  function Scoped(runs: seq<EvalRun>, version: Option<nat>): seq<EvalRun> {
    Filter(Filter(runs, IsQuality()), InScope(version))
  }

  ghost function BenchmarkOf(quality: seq<EvalRun>): EvalBenchmark {
    if quality == [] then EMPTY_BENCHMARK else Summarise(quality, quality)
  }

  lemma {:induction false} FilterAll<T>(s: seq<T>, p: T -> bool)
    requires forall x <- s :: p(x)
    ensures Filter(s, p) == s
  {
    if s != [] {
      assert s[0] in s;
      FilterAll(s[1..], p);
    }
  }

  lemma FilterSwap<T>(s: seq<T>, p: T -> bool, q: T -> bool)
    ensures Filter(Filter(s, p), q) == Filter(Filter(s, q), p)
  {
    var both := (x: T) => p(x) && q(x);
    FilterTwice(s, p, q, both);
    FilterTwice(s, q, p, both);
  }

  /** The summary and the timeline are computed from the same runs: the quality runs in scope. */
  lemma BenchmarkIsOfScoped(runs: seq<EvalRun>, version: Option<nat>)
    ensures ComputeBenchmark(runs, version) == BenchmarkOf(Scoped(runs, version))
  {
    FilterTwice(runs, IsCompleted(), IsGraded(), IsQuality());
    var quality := Filter(runs, IsQuality());
    if version.Some? {
      FilterSwap(Filter(runs, IsCompleted()), HasVersion(version.value), IsGraded());
      FilterSame(quality, HasVersion(version.value), InScope(version));
    } else {
      FilterAll(quality, InScope(version));
    }
  }

  /** A benchmark of one version is the global benchmark of that version's runs. */
  lemma ScopedIsGlobal(runs: seq<EvalRun>, v: nat)
    ensures ComputeBenchmark(runs, Some(v)) == ComputeBenchmark(Filter(runs, HasVersion(v)), None)
  {
    BenchmarkIsOfScoped(runs, Some(v));
    BenchmarkIsOfScoped(Filter(runs, HasVersion(v)), None);
    FilterSwap(runs, HasVersion(v), IsQuality());
    var quality := Filter(runs, IsQuality());
    FilterSame(quality, HasVersion(v), InScope(Some(v)));
    FilterAll(Filter(quality, HasVersion(v)), InScope(None));
  }

  /** Unfinished runs and runs whose grading failed can be added or dropped anywhere. */
  lemma OnlyQualityCounts(a: seq<EvalRun>, b: seq<EvalRun>, version: Option<nat>)
    requires Filter(a, IsQuality()) == Filter(b, IsQuality())
    ensures ComputeBenchmark(a, version) == ComputeBenchmark(b, version)
  {
    BenchmarkIsOfScoped(a, version);
    BenchmarkIsOfScoped(b, version);
  }

  lemma FilterSkips<T>(before: seq<T>, x: T, after: seq<T>, p: T -> bool)
    requires !p(x)
    ensures Filter(before + [x] + after, p) == Filter(before + after, p)
  {
    FilterAppend(before + [x], after, p);
    FilterAppend(before, [x], p);
    FilterAppend(before, after, p);
    assert Filter([x], p) == [] && Filter(before, p) + [] == Filter(before, p);
  }

  lemma AddingIneligibleRun(before: seq<EvalRun>, r: EvalRun, after: seq<EvalRun>, version: Option<nat>)
    requires r.status != Completed || r.grading.gradingError
    ensures ComputeBenchmark(before + [r] + after, version) == ComputeBenchmark(before + after, version)
  {
    FilterSkips(before, r, after, IsQuality());
    OnlyQualityCounts(before + [r] + after, before + after, version);
  }

  // ----------------------------------------------------------- statistics of a permutation

  lemma StatsPermuted<T>(a: seq<T>, b: seq<T>, f: T -> real)
    requires Permuted(a, b)
    ensures CalculateStats(a, f) == CalculateStats(b, f)
    ensures a != [] ==> b != [] && Mean(a, f) == Mean(b, f)
  {
    PermutedMembers(a, b);
    if a != [] {
      SumPermuted(a, b, f);
      Numbers.MinMaxBound(a, f);
      Numbers.MinMaxBound(b, f);
      SumPermuted(a, b, SquaredDiff(f, Mean(a, f)));
    }
  }

  lemma ConfigStatsPermuted(a: seq<EvalRun>, b: seq<EvalRun>, isBaseline: bool)
    requires Permuted(a, b)
    ensures CalculateConfigStats(a, isBaseline) == CalculateConfigStats(b, isBaseline)
  {
    StatsPermuted(a, b, PassValue(isBaseline));
    StatsPermuted(a, b, DurationOf(isBaseline));
    StatsPermuted(a, b, TokensOf(isBaseline));
    StatsPermuted(a, b, ScoreOf(isBaseline));
  }

  lemma CaseStatsPermuted(a: seq<EvalRun>, b: seq<EvalRun>)
    requires Permuted(a, b)
    ensures CaseStatsOf(a) == CaseStatsOf(b)
  {
    PermutedMembers(a, b);
    CountPermuted(a, b, IsPass());
    StatsPermuted(a, b, ScoreOf(false));
  }

  lemma ByCasePermuted(a: seq<EvalRun>, b: seq<EvalRun>)
    requires Permuted(a, b)
    ensures ByCase(a) == ByCase(b)
  {
    PermutedMembers(a, b);
    assert KeysOf(a, EvalIdOf()) == KeysOf(b, EvalIdOf());
    forall k: nat ensures CaseStatsOf(RunsOfCase(a, k)) == CaseStatsOf(RunsOfCase(b, k)) {
      FilterPermuted(a, b, HasKey(EvalIdOf(), k));
      CaseStatsPermuted(RunsOfCase(a, k), RunsOfCase(b, k));
    }
  }

  lemma TallyPermuted<T, K>(a: seq<T>, b: seq<T>, key: T -> K, ok: T -> bool, k: K)
    requires Permuted(a, b)
    ensures Tallying(a, key, ok, k) == Tallying(b, key, ok, k)
  {
    CountPermuted(a, b, HasKey(key, k));
    FilterPermuted(a, b, ok);
    CountPermuted(Filter(a, ok), Filter(b, ok), HasKey(key, k));
  }

  lemma ChecksPermuted(a: seq<EvalRun>, b: seq<EvalRun>)
    requires Permuted(a, b)
    ensures Permuted(AllChecks(a), AllChecks(b)) && Permuted(AllBaselineChecks(a), AllBaselineChecks(b))
  {
    FlattenPermuted(a, b, ChecksOf());
    FlattenPermuted(a, b, BaselineChecksOf());
  }

  lemma KeysOfPermuted<T, K>(a: seq<T>, b: seq<T>, key: T -> K)
    requires Permuted(a, b)
    ensures KeysOf(a, key) == KeysOf(b, key)
  {
    PermutedMembers(a, b);
  }

  lemma ValueStatsPermuted(a: seq<EvalRun>, b: seq<EvalRun>, k: string)
    requires Permuted(a, b)
    ensures ValueStatsAt(a, k) == ValueStatsAt(b, k)
  {
    ChecksPermuted(a, b);
    TallyPermuted(AllChecks(a), AllChecks(b), ValueKeyOf(), Passing(), k);
    TallyPermuted(AllBaselineChecks(a), AllBaselineChecks(b), ValueKeyOf(), Passing(), k);
  }

  lemma ByValuePermuted(a: seq<EvalRun>, b: seq<EvalRun>)
    requires Permuted(a, b)
    ensures ByValue(a) == ByValue(b)
  {
    ChecksPermuted(a, b);
    KeysOfPermuted(AllChecks(a), AllChecks(b), ValueKeyOf());
    KeysOfPermuted(AllBaselineChecks(a), AllBaselineChecks(b), ValueKeyOf());
    forall k: string ensures ValueStatsAt(a, k) == ValueStatsAt(b, k) {
      ValueStatsPermuted(a, b, k);
    }
  }

  // ------------------------------------------------------------ the majority of a type

  /** Some element has more votes than every other; trivially so for an empty list. */
  ghost predicate HasWinner<T(!new)>(ds: seq<T>) {
    ds == [] || exists d <- ds :: forall e <- ds :: e != d ==> Votes(ds, e) < Votes(ds, d)
  }

  lemma VotesPermuted<T(!new)>(a: seq<T>, b: seq<T>)
    requires Permuted(a, b)
    ensures forall d :: Votes(a, d) == Votes(b, d)
  {
    forall d ensures Votes(a, d) == Votes(b, d) { CountPermuted(a, b, Same(d)); }
  }

  lemma WinnerIsLabel(ds: seq<Discrimination>, d: Discrimination)
    requires d in ds && forall e <- ds :: e != d ==> Votes(ds, e) < Votes(ds, d)
    ensures TypeDiscrimination(ds) == d
  {
    if exists e <- ds :: e != ds[0] {
      var l := Leader(FirstMet(ds), ds);
      assert d in FirstMet(ds) && l in ds;
    }
  }

  lemma LabelPermuted(ds: seq<Discrimination>, es: seq<Discrimination>)
    requires Permuted(ds, es) && HasWinner(ds)
    ensures TypeDiscrimination(ds) == TypeDiscrimination(es)
  {
    PermutedMembers(ds, es);
    VotesPermuted(ds, es);
    if ds != [] {
      var d :| d in ds && forall e <- ds :: e != d ==> Votes(ds, e) < Votes(ds, d);
      WinnerIsLabel(ds, d);
      WinnerIsLabel(es, d);
    }
  }

  function Other<T(==)>(d: T): T -> bool { (e: T) => e != d }

  /** One more element, put in front of either half. */
  lemma PartStep<T>(x: T, s: seq<T>, rest: seq<T>, f: seq<T>, g: seq<T>, fs: seq<T>, gs: seq<T>)
    requires Permuted(rest, f + g) && s == [x] + rest
    requires (fs == [x] + f && gs == g) || (fs == f && gs == [x] + g)
    ensures Permuted(s, fs + gs)
  {
    assert multiset(s) == multiset{x} + multiset(rest);
    assert multiset(fs + gs) == multiset(fs) + multiset(gs);
    assert multiset(f + g) == multiset(f) + multiset(g);
  }

  lemma FilterCons<T>(x: T, rest: seq<T>, p: T -> bool)
    ensures Filter([x] + rest, p) == if p(x) then [x] + Filter(rest, p) else Filter(rest, p)
  {
    assert ([x] + rest)[1..] == rest;
  }

  lemma {:induction false} Partition<T>(s: seq<T>, p: T -> bool, q: T -> bool)
    requires forall x :: q(x) <==> !p(x)
    ensures Permuted(s, Filter(s, p) + Filter(s, q))
  {
    if s != [] {
      var x, rest := s[0], s[1..];
      Partition(rest, p, q);
      FilterCons(x, rest, p);
      FilterCons(x, rest, q);
      assert s == [x] + rest;
      PartStep(x, s, rest, Filter(rest, p), Filter(rest, q), Filter(s, p), Filter(s, q));
    }
  }

  lemma {:induction false} FirstMetHead<K>(keys: seq<K>)
    requires keys != []
    ensures FirstMet(keys) != [] && FirstMet(keys)[0] == keys[0]
    decreases |keys|
  {
    if |keys| > 1 { FirstMetHead(keys[..|keys| - 1]); }
  }

  /** A tie is won by the element listed first. */
  lemma {:induction false} LeaderIsFirst<T>(candidates: seq<T>, ds: seq<T>)
    requires candidates != [] && forall e <- candidates :: Votes(ds, e) <= Votes(ds, candidates[0])
    ensures Leader(candidates, ds) == candidates[0]
    decreases |candidates|
  {
    var n := |candidates|;
    if n > 1 {
      LeaderIsFirst(candidates[..n - 1], ds);
      assert candidates[n - 1] in candidates;
    }
  }

  ghost predicate Most<T(!new)>(ds: seq<T>, d: T) {
    d in ds && forall x <- ds :: Votes(ds, x) <= Votes(ds, d)
  }

  lemma FrontWins(es: seq<Discrimination>, d: Discrimination)
    requires es != [] && d in es && d != es[0] && Most(es, es[0])
    ensures TypeDiscrimination(es) == es[0]
  {
    FirstMetHead(es);
    LeaderIsFirst(FirstMet(es), es);
  }

  lemma PutInFront<T>(ds: seq<T>, e: T) returns (es: seq<T>)
    requires e in ds
    ensures Permuted(ds, es) && es != [] && es[0] == e
  {
    es := Filter(ds, Same(e)) + Filter(ds, Other(e));
    Partition(ds, Same(e), Other(e));
    assert Same(e)(e) && e in Filter(ds, Same(e));
    assert Filter(ds, Same(e))[0] in Filter(ds, Same(e));
  }

  lemma LabelHasMost(ds: seq<Discrimination>)
    requires ds != []
    ensures Most(ds, TypeDiscrimination(ds))
  {
    if exists e <- ds :: e != ds[0] {
      var l := Leader(FirstMet(ds), ds);
      assert forall x <- ds :: x in FirstMet(ds);
    } else {
      assert forall x <- ds :: x == ds[0];
    }
  }

  lemma Rival<T(!new)>(ds: seq<T>, d: T) returns (e: T)
    requires !HasWinner(ds) && Most(ds, d)
    ensures e != d && Most(ds, e)
  {
    e :| e in ds && e != d && Votes(ds, e) >= Votes(ds, d);
  }

  lemma MostStays<T(!new)>(ds: seq<T>, es: seq<T>, e: T)
    requires Permuted(ds, es) && Most(ds, e)
    ensures Most(es, e)
  {
    PermutedMembers(ds, es);
    VotesPermuted(ds, es);
  }

  lemma RivalInFront<T(!new)>(ds: seq<T>, d: T) returns (es: seq<T>)
    requires !HasWinner(ds) && Most(ds, d)
    ensures Permuted(ds, es) && es != [] && d in es && d != es[0] && Most(es, es[0])
  {
    var e := Rival(ds, d);
    es := PutInFront(ds, e);
    MostStays(ds, es, d);
    MostStays(ds, es, e);
  }

  /** Two elements share the most votes: listing the other one first changes the label. */
  lemma TieIsOrderDependent(ds: seq<Discrimination>) returns (es: seq<Discrimination>)
    requires !HasWinner(ds)
    ensures Permuted(ds, es) && TypeDiscrimination(es) != TypeDiscrimination(ds)
  {
    LabelHasMost(ds);
    var d := TypeDiscrimination(ds);
    es := RivalInFront(ds, d);
    FrontWins(es, d);
  }

  /** The discrimination of a type is the same for every order of its values exactly when one
      discrimination has strictly the most values. */
  lemma MajorityExactly(ds: seq<Discrimination>)
    ensures (forall es :: Permuted(ds, es) ==> TypeDiscrimination(es) == TypeDiscrimination(ds)) <==> HasWinner(ds)
  {
    if HasWinner(ds) {
      forall es | Permuted(ds, es) ensures TypeDiscrimination(es) == TypeDiscrimination(ds) { LabelPermuted(ds, es); }
    } else {
      var es := TieIsOrderDependent(ds);
    }
  }

  // ------------------------------------------------------------- by type, under permutation

  lemma {:induction false} NoDuplicatesMultiset<T(!new)>(s: seq<T>)
    requires NoDuplicates(s)
    ensures forall x :: multiset(s)[x] == if x in s then 1 else 0
  {
    if s != [] {
      NoDuplicatesMultiset(s[1..]);
      assert s == [s[0]] + s[1..] && s[0] !in s[1..];
      forall x ensures multiset(s)[x] == if x in s then 1 else 0 {
        assert multiset(s)[x] == multiset([s[0]])[x] + multiset(s[1..])[x];
        assert x in s <==> x == s[0] || x in s[1..];
      }
    }
  }

  lemma FirstMetPermuted<K(!new)>(a: seq<K>, b: seq<K>)
    requires Permuted(a, b)
    ensures Permuted(FirstMet(a), FirstMet(b))
  {
    PermutedMembers(a, b);
    NoDuplicatesMultiset(FirstMet(a));
    NoDuplicatesMultiset(FirstMet(b));
    assert forall x :: x in FirstMet(a) <==> x in FirstMet(b);
  }

  lemma {:induction false} KeysAppend<T, K>(a: seq<T>, b: seq<T>, f: T -> K)
    ensures Keys(a + b, f) == Keys(a, f) + Keys(b, f)
  {
  }

  lemma {:induction false} KeysPermuted<T, K>(a: seq<T>, b: seq<T>, f: T -> K, g: T -> K)
    requires Permuted(a, b) && forall x <- a :: f(x) == g(x)
    ensures Permuted(Keys(a, f), Keys(b, g))
  {
    if a != [] {
      assert a[0] in a;
      var l, r := TakeOut(a, b);
      KeysPermuted(a[1..], l + r, f, g);
      KeysAppend(l, r, g);
      KeysAppend(l + [a[0]], r, g);
      KeysAppend(l, [a[0]], g);
      assert a == [a[0]] + a[1..];
      KeysAppend([a[0]], a[1..], f);
      assert Keys([a[0]], f) == [f(a[0])] && Keys([a[0]], g) == [f(a[0])];
    } else {
      PermutedMembers(a, b);
    }
  }

  lemma ConclusivePermuted(a: seq<EvalRun>, b: seq<EvalRun>, kind: Kind)
    requires Permuted(a, b)
    ensures Permuted(Conclusive(a, kind), Conclusive(b, kind))
  {
    FlattenPermuted(a, b, BothChecksOf());
    KeysPermuted(Flatten(a, BothChecksOf()), Flatten(b, BothChecksOf()), KindValue(), KindValue());
    FirstMetPermuted(Keys(Flatten(a, BothChecksOf()), KindValue()), Keys(Flatten(b, BothChecksOf()), KindValue()));
    FilterPermuted(ValueEntries(a), ValueEntries(b), OfKind(kind));
    forall e: (Kind, string) ensures DiscriminationOf(a)(e) == DiscriminationOf(b)(e) {
      ValueStatsPermuted(a, b, ValueKey(e.0, e.1));
    }
    var x, y := Filter(ValueEntries(a), OfKind(kind)), Filter(ValueEntries(b), OfKind(kind));
    KeysPermuted(x, y, DiscriminationOf(a), DiscriminationOf(b));
    FilterPermuted(Keys(x, DiscriminationOf(a)), Keys(y, DiscriminationOf(b)), IsConclusive());
  }

  function Unlabelled(m: map<Kind, TypeStats>): map<Kind, TypeStats> {
    map k | k in m :: m[k].(discrimination := Inconclusive)
  }

  /** Every type has a discrimination that wins outright. */
  ghost predicate TypesDecided(runs: seq<EvalRun>) {
    forall k: Kind :: HasWinner(Conclusive(runs, k))
  }

  lemma TypeStatsPermuted(a: seq<EvalRun>, b: seq<EvalRun>, k: Kind)
    requires Permuted(a, b)
    ensures TypeStatsAt(a, k).(discrimination := Inconclusive) == TypeStatsAt(b, k).(discrimination := Inconclusive)
    ensures HasWinner(Conclusive(a, k)) ==> TypeStatsAt(a, k) == TypeStatsAt(b, k)
  {
    ChecksPermuted(a, b);
    TallyPermuted(AllChecks(a), AllChecks(b), KindOf(), Passing(), k);
    ConclusivePermuted(a, b, k);
    if HasWinner(Conclusive(a, k)) { LabelPermuted(Conclusive(a, k), Conclusive(b, k)); }
  }

  lemma TablesAgree(keys: set<Kind>, f: Kind -> TypeStats, g: Kind -> TypeStats)
    requires forall k :: f(k).(discrimination := Inconclusive) == g(k).(discrimination := Inconclusive)
    ensures Unlabelled(Table(keys, f)) == Unlabelled(Table(keys, g))
    ensures (forall k :: f(k) == g(k)) ==> Table(keys, f) == Table(keys, g)
  {
  }

  lemma ByTypePermuted(a: seq<EvalRun>, b: seq<EvalRun>)
    requires Permuted(a, b)
    ensures Unlabelled(ByType(a)) == Unlabelled(ByType(b))
    ensures TypesDecided(a) ==> ByType(a) == ByType(b)
  {
    ChecksPermuted(a, b);
    KeysOfPermuted(AllChecks(a), AllChecks(b), KindOf());
    var f, g := TypeStatsFor(a), TypeStatsFor(b);
    forall k: Kind
      ensures f(k).(discrimination := Inconclusive) == g(k).(discrimination := Inconclusive)
      ensures TypesDecided(a) ==> f(k) == g(k)
    {
      TypeStatsPermuted(a, b, k);
    }
    TablesAgree(KeysOf(AllChecks(a), KindOf()), f, g);
  }

  // ------------------------------------------------- a type whose label depends on run order

  /** A run whose one check passes with the skill or without it, as `better` says. */
  function RunOn(value: string, better: bool): EvalRun {
    EvalRun(0, 0, Completed, None, None,
      Grading(if better then Pass else Fail, 0.0, [Check(Contains, value, better)], false), Timing(0.0, 0.0),
      Some(Grading(if better then Fail else Pass, 0.0, [Check(Contains, value, !better)], false)), None)
  }

  lemma PairFlatten<T, U>(a: T, b: T, f: T -> seq<U>)
    ensures Flatten([a, b], f) == f(a) + f(b)
  {
    assert [a, b][1..] == [b] && [b][1..] == [];
    assert Flatten([b], f) == f(b);
  }

  lemma PairCount<T>(a: T, b: T, p: T -> bool)
    ensures Count([a, b], p) == (if p(a) then 1 else 0) + (if p(b) then 1 else 0)
  {
    assert [a, b][1..] == [b] && [b][1..] == [];
  }

  lemma PairFilter<T>(a: T, b: T, p: T -> bool)
    ensures Filter([a, b], p) == (if p(a) then [a] else []) + (if p(b) then [b] else [])
  {
    assert [a, b][1..] == [b] && [b][1..] == [];
    assert Filter([b], p) == if p(b) then [b] else [];
  }

  lemma PairTally(a: Check, b: Check)
    requires a.kind == b.kind && a.value != b.value
    ensures Tallying([a, b], ValueKeyOf(), Passing(), ValueKey(a.kind, a.value))
        == Tallied(1, if a.passed then 1 else 0)
    ensures Tallying([a, b], ValueKeyOf(), Passing(), ValueKey(b.kind, b.value))
        == Tallied(1, if b.passed then 1 else 0)
  {
    if ValueKey(a.kind, a.value) == ValueKey(b.kind, b.value) {
      Numbers.ValueKeyInjective(a.kind, a.value, b.kind, b.value);
    }
    forall k: string ensures Count(Filter([a, b], Passing()), HasKey(ValueKeyOf(), k))
        == (if a.passed && ValueKeyOf()(a) == k then 1 else 0) + (if b.passed && ValueKeyOf()(b) == k then 1 else 0) {
      Numbers.CountOfFilter([a, b], Passing(), HasKey(ValueKeyOf(), k));
      PairFilter(a, b, HasKey(ValueKeyOf(), k));
      if ValueKeyOf()(a) == k && ValueKeyOf()(b) == k { PairCount(a, b, Passing()); }
    }
    PairCount(a, b, HasKey(ValueKeyOf(), ValueKey(a.kind, a.value)));
    PairCount(a, b, HasKey(ValueKeyOf(), ValueKey(b.kind, b.value)));
  }

  lemma PairStats(x: string, y: string, better: bool)
    requires x != y
    ensures var f := DiscriminationOf([RunOn(x, better), RunOn(y, !better)]);
            && f((Contains, x)) == (if better then SkillAddsValue else SkillHurts)
            && f((Contains, y)) == (if better then SkillHurts else SkillAddsValue)
  {
    var r, s := RunOn(x, better), RunOn(y, !better);
    PairFlatten(r, s, ChecksOf());
    PairFlatten(r, s, BaselineChecksOf());
    assert AllChecks([r, s]) == [Check(Contains, x, better), Check(Contains, y, !better)];
    assert AllBaselineChecks([r, s]) == [Check(Contains, x, !better), Check(Contains, y, better)];
    PairTally(Check(Contains, x, better), Check(Contains, y, !better));
    PairTally(Check(Contains, x, !better), Check(Contains, y, better));
    assert Rate(1, 1) == 100.0 && Rate(0, 1) == 0.0;
  }

  lemma PairFirstMet<K>(e: K, f: K)
    requires e != f
    ensures FirstMet([e, e, f, f]) == [e, f]
  {
    assert [e, e, f, f][..3] == [e, e, f] && [e, e, f][..2] == [e, e] && [e, e][..1] == [e] && [e][..0] == [];
    assert FirstMet([e]) == [e] && FirstMet([e, e]) == [e];
    assert FirstMet([e, e, f]) == [e, f];
  }

  lemma PairEntries(x: string, y: string, better: bool)
    requires x != y
    ensures ValueEntries([RunOn(x, better), RunOn(y, !better)]) == [(Contains, x), (Contains, y)]
  {
    var r, s := RunOn(x, better), RunOn(y, !better);
    PairFlatten(r, s, BothChecksOf());
    var e, f := (Contains, x), (Contains, y);
    assert Keys(Flatten([r, s], BothChecksOf()), KindValue()) == [e, e, f, f];
    PairFirstMet(e, f);
  }

  lemma PairLabel(d: Discrimination, e: Discrimination)
    requires d != e
    ensures TypeDiscrimination([d, e]) == d
  {
    FirstMetHead([d, e]);
    PairCount(d, e, Same(d));
    PairCount(d, e, Same(e));
    LeaderIsFirst(FirstMet([d, e]), [d, e]);
    assert e in [d, e];
  }

  lemma PairSelected(e: (Kind, string), f: (Kind, string), g: ((Kind, string)) -> Discrimination)
    requires e.0 == f.0 && g(e) != Inconclusive && g(f) != Inconclusive
    ensures Filter(Keys(Filter([e, f], OfKind(e.0)), g), IsConclusive()) == [g(e), g(f)]
  {
    PairFilter(e, f, OfKind(e.0));
    assert Keys([e, f], g) == [g(e), g(f)];
    PairFilter(g(e), g(f), IsConclusive());
  }

  lemma PairConclusive(x: string, y: string, better: bool)
    requires x != y
    ensures var d, e := if better then SkillAddsValue else SkillHurts, if better then SkillHurts else SkillAddsValue;
            Conclusive([RunOn(x, better), RunOn(y, !better)], Contains) == [d, e]
  {
    PairEntries(x, y, better);
    PairStats(x, y, better);
    PairSelected((Contains, x), (Contains, y), DiscriminationOf([RunOn(x, better), RunOn(y, !better)]));
  }

  /** Swapping two runs turns "skill adds value" into "skill hurts". */
  lemma LabelDependsOnRunOrder()
    ensures var r, s := RunOn("x", true), RunOn("y", false);
            && TypeStatsAt([r, s], Contains).discrimination == SkillAddsValue
            && TypeStatsAt([s, r], Contains).discrimination == SkillHurts
  {
    assert "x"[0] != "y"[0];
    PairConclusive("x", "y", true);
    PairConclusive("y", "x", false);
    PairLabel(SkillAddsValue, SkillHurts);
    PairLabel(SkillHurts, SkillAddsValue);
  }

  // ----------------------------------------------------------- iterations, under permutation

  function Unversioned(c: seq<IterationStats>): seq<IterationStats> {
    seq(|c|, i requires 0 <= i < |c| => c[i].(skillVersion := 0))
  }

  /** The runs of one iteration all count as the same skill version. */
  ghost predicate VersionsUniform(runs: seq<EvalRun>) {
    forall r <- runs, s <- runs :: r.iteration.Some? && r.iteration == s.iteration
        ==> VersionOrOne(r) == VersionOrOne(s)
  }

  lemma IterationPermuted(a: seq<EvalRun>, b: seq<EvalRun>, k: nat, p: Option<IterationStats>,
      q: Option<IterationStats>)
    requires Permuted(a, b) && p.Some? == q.Some?
    requires p.Some? ==> p.value.(skillVersion := 0) == q.value.(skillVersion := 0)
    ensures var s, t := IterationStatsOf(k, RunsOfIteration(a, k), p), IterationStatsOf(k, RunsOfIteration(b, k), q);
            s.(skillVersion := 0) == t.(skillVersion := 0) && (VersionsUniform(a) ==> s == t)
  {
    FilterPermuted(a, b, HasIteration());
    FilterPermuted(Filter(a, HasIteration()), Filter(b, HasIteration()), HasKey(IterationOf(), k));
    var x, y := RunsOfIteration(a, k), RunsOfIteration(b, k);
    PermutedMembers(x, y);
    CountPermuted(x, y, IsPass());
    StatsPermuted(x, y, ScoreOf(false));
    if VersionsUniform(a) { FirstVersionAgrees(a, b, x, y, k); }
    var rate, score := Rate(Count(x, IsPass()), |x|), AverageScore(x);
    SameButVersion(k, FirstVersion(x), FirstVersion(y), |x|, rate, score, p, q);
  }

  lemma SameButVersion(k: nat, v: nat, w: nat, n: nat, rate: real, score: real, p: Option<IterationStats>,
      q: Option<IterationStats>)
    requires p.Some? == q.Some? && (p.Some? ==> p.value.(skillVersion := 0) == q.value.(skillVersion := 0))
    ensures Compared(k, v, n, rate, score, p).(skillVersion := 0)
        == Compared(k, w, n, rate, score, q).(skillVersion := 0)
    ensures v == w ==> Compared(k, v, n, rate, score, p) == Compared(k, w, n, rate, score, q)
  {
  }

  lemma FirstVersionAgrees(a: seq<EvalRun>, b: seq<EvalRun>, x: seq<EvalRun>, y: seq<EvalRun>, k: nat)
    requires Permuted(a, b) && VersionsUniform(a) && |x| == |y|
    requires forall r <- x :: r in a && r.iteration == Some(k)
    requires forall r <- y :: r in b && r.iteration == Some(k)
    ensures FirstVersion(x) == FirstVersion(y)
  {
    PermutedMembers(a, b);
    if x != [] { assert x[0] in x && y[0] in y; }
  }

  lemma {:induction false} ChainPermuted(a: seq<EvalRun>, b: seq<EvalRun>, ks: seq<nat>, p: Option<IterationStats>,
      q: Option<IterationStats>)
    requires Permuted(a, b) && p.Some? == q.Some?
    requires p.Some? ==> p.value.(skillVersion := 0) == q.value.(skillVersion := 0)
    ensures Unversioned(IterationChain(a, ks, p)) == Unversioned(IterationChain(b, ks, q))
    ensures VersionsUniform(a) ==> IterationChain(a, ks, p) == IterationChain(b, ks, q)
    decreases |ks|
  {
    if ks != [] {
      var s, t := IterationStatsOf(ks[0], RunsOfIteration(a, ks[0]), p),
          IterationStatsOf(ks[0], RunsOfIteration(b, ks[0]), q);
      IterationPermuted(a, b, ks[0], p, q);
      ChainPermuted(a, b, ks[1..], Some(s), Some(t));
      UnversionedCons(s, IterationChain(a, ks[1..], Some(s)));
      UnversionedCons(t, IterationChain(b, ks[1..], Some(t)));
    }
  }

  lemma UnversionedCons(s: IterationStats, c: seq<IterationStats>)
    ensures Unversioned([s] + c) == [s.(skillVersion := 0)] + Unversioned(c)
  {
  }

  lemma TimelinePermuted(a: seq<EvalRun>, b: seq<EvalRun>)
    requires Permuted(a, b)
    ensures Unversioned(CalculateIterationStats(a)) == Unversioned(CalculateIterationStats(b))
    ensures VersionsUniform(a) ==> CalculateIterationStats(a) == CalculateIterationStats(b)
  {
    FilterPermuted(a, b, HasIteration());
    KeysOfPermuted(Filter(a, HasIteration()), Filter(b, HasIteration()), IterationOf());
    ChainPermuted(a, b, Sorted(Iterations(a)), None, None);
  }

  // ------------------------------------------------------------------- order independence

  /** A benchmark without its two kinds of labels that are read off the first run met: the version
      of an iteration and the discrimination of a type. */
  function NumbersOf(b: EvalBenchmark): EvalBenchmark {
    b.(byType := Unlabelled(b.byType), byIteration := Unversioned(b.byIteration))
  }

  lemma SummaryPermuted(a: seq<EvalRun>, b: seq<EvalRun>)
    requires Permuted(a, b) && a != [] && b != []
    ensures NumbersOf(Summarise(a, a)) == NumbersOf(Summarise(b, b))
    ensures TypesDecided(a) && VersionsUniform(a) ==> Summarise(a, a) == Summarise(b, b)
  {
    PermutedMembers(a, b);
    CountPermuted(a, b, IsPass());
    StatsPermuted(a, b, ScoreOf(false));
    StatsPermuted(a, b, DurationOf(false));
    StatsPermuted(a, b, TokensOf(false));
    ByTypePermuted(a, b);
    ByCasePermuted(a, b);
    ByValuePermuted(a, b);
    ConfigStatsPermuted(a, b, false);
    FilterPermuted(a, b, HasBaseline());
    PermutedMembers(Filter(a, HasBaseline()), Filter(b, HasBaseline()));
    ConfigStatsPermuted(Filter(a, HasBaseline()), Filter(b, HasBaseline()), true);
    TimelinePermuted(a, b);
  }

  /** No number of a benchmark depends on the order of the runs; with a decided majority for every
      type and one version per iteration nothing at all does. */
  lemma OrderIndependent(a: seq<EvalRun>, b: seq<EvalRun>, version: Option<nat>)
    requires Permuted(a, b)
    ensures NumbersOf(ComputeBenchmark(a, version)) == NumbersOf(ComputeBenchmark(b, version))
    ensures TypesDecided(Scoped(a, version)) && VersionsUniform(Scoped(a, version))
        ==> ComputeBenchmark(a, version) == ComputeBenchmark(b, version)
  {
    BenchmarkIsOfScoped(a, version);
    BenchmarkIsOfScoped(b, version);
    FilterPermuted(a, b, IsQuality());
    FilterPermuted(Filter(a, IsQuality()), Filter(b, IsQuality()), InScope(version));
    var x, y := Scoped(a, version), Scoped(b, version);
    PermutedMembers(x, y);
    if x != [] { SummaryPermuted(x, y); }
  }

  // ---------------------------------------------------------------------- conservation

  /** In every benchmark the per-case counts add up to the totals, and the iteration sizes to the
      number of counted runs that carry an iteration. */
  lemma BenchmarkConserves(runs: seq<EvalRun>, version: Option<nat>, cases: seq<nat>)
    requires Numbers.Enumerates(cases, ComputeBenchmark(runs, version).byCase)
    ensures var b := ComputeBenchmark(runs, version);
            && Total(cases, Numbers.CaseRuns(b.byCase)) == b.totalRuns == |Scoped(runs, version)|
            && Total(cases, Numbers.CasePasses(b.byCase)) == Count(Scoped(runs, version), IsPass())
            && b.passRate == Rate(Count(Scoped(runs, version), IsPass()), b.totalRuns)
            && Total(b.byIteration, Numbers.RunCountOf()) == Count(Scoped(runs, version), HasIteration())
  {
    BenchmarkIsOfScoped(runs, version);
    var quality := Scoped(runs, version);
    var b := BenchmarkOf(quality);
    SummaryFields(quality);
    Numbers.CasesConserve(quality, cases);
    Numbers.IterationsConserve(quality);
  }

  lemma SummaryFields(quality: seq<EvalRun>)
    ensures var b := BenchmarkOf(quality);
            && b.totalRuns == |quality| && b.byCase == ByCase(quality)
                && b.byIteration == CalculateIterationStats(quality)
            && b.passRate == Rate(Count(quality, IsPass()), |quality|)
  {
    if quality == [] {
      assert ByCase([]) == map[];
      assert CalculateIterationStats([]) == [];
    }
  }
}
