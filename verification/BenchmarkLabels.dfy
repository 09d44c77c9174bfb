/** The label of an assertion type and the order of the runs: which orders of the runs change it. */
module BenchmarkLabels {
  import opened Common
  import opened Tally
  import opened Benchmark
  import opened BenchmarkOrder

  // ------------------------------------------------------------------ the first item that leads

  /** The label of the first item that satisfies `ok`. */
  function Leads<E, L>(items: seq<E>, name: E -> L, ok: E -> bool): Option<L> {
    if items == [] then None
    else if ok(items[0]) then Some(name(items[0]))
    else Leads(items[1..], name, ok)
  }

  function OrElse<L>(a: Option<L>, b: Option<L>): Option<L> { if a.Some? then a else b }

  lemma {:induction false} LeadsAppend<E, L>(a: seq<E>, b: seq<E>, name: E -> L, ok: E -> bool)
    ensures Leads(a + b, name, ok) == OrElse(Leads(a, name, ok), Leads(b, name, ok))
  {
    if a == [] {
      assert a + b == b;
    } else {
      assert (a + b)[0] == a[0] && (a + b)[1..] == a[1..] + b;
      LeadsAppend(a[1..], b, name, ok);
    }
  }

  lemma {:induction false} LeadsSome<E, L>(items: seq<E>, name: E -> L, ok: E -> bool)
    ensures Leads(items, name, ok).Some? <==> exists e <- items :: ok(e)
  {
    if items != [] {
      LeadsSome(items[1..], name, ok);
      assert forall e :: e in items <==> e == items[0] || e in items[1..];
    }
  }

  lemma LeadsOne<E, L>(e: E, name: E -> L, ok: E -> bool)
    ensures Leads([e], name, ok) == if ok(e) then Some(name(e)) else None
  {
    assert [e][1..] == [];
  }

  lemma {:induction false} LeadsSame<E, L>(items: seq<E>, name: E -> L, ok: E -> bool, name': E -> L, ok': E -> bool)
    requires forall e :: ok(e) == ok'(e) && name(e) == name'(e)
    ensures Leads(items, name, ok) == Leads(items, name', ok')
  {
    if items != [] { LeadsSame(items[1..], name, ok, name', ok'); }
  }

  lemma {:induction false} LeadsFilter<E, L>(items: seq<E>, p: E -> bool, name: E -> L, ok: E -> bool, both: E -> bool)
    requires forall e :: both(e) <==> p(e) && ok(e)
    ensures Leads(Filter(items, p), name, ok) == Leads(items, name, both)
  {
    if items != [] {
      LeadsFilter(items[1..], p, name, ok, both);
      LeadsAppend(if p(items[0]) then [items[0]] else [], Filter(items[1..], p), name, ok);
      LeadsOne(items[0], name, ok);
      assert Leads(items, name, both)
          == OrElse(if both(items[0]) then Some(name(items[0])) else None, Leads(items[1..], name, both));
    }
  }

  lemma {:induction false} LeadsKeys<D, E, L>(
      items: seq<D>, f: D -> E, name: E -> L, ok: E -> bool, name': D -> L, ok': D -> bool)
    requires forall d :: ok'(d) == ok(f(d)) && name'(d) == name(f(d))
    ensures Leads(Keys(items, f), name, ok) == Leads(items, name', ok')
  {
    if items != [] {
      assert Keys(items, f)[0] == f(items[0]) && Keys(items, f)[1..] == Keys(items[1..], f);
      LeadsKeys(items[1..], f, name, ok, name', ok');
    }
  }

  lemma {:induction false} LeadsFirstMet<E, L>(items: seq<E>, name: E -> L, ok: E -> bool)
    ensures Leads(FirstMet(items), name, ok) == Leads(items, name, ok)
    decreases |items|
  {
    if items != [] {
      var front, last := items[..|items| - 1], items[|items| - 1];
      LeadsFirstMet(front, name, ok);
      assert items == front + [last];
      LeadsAppend(front, [last], name, ok);
      LeadsAppend(FirstMet(front), [last], name, ok);
      LeadsOne(last, name, ok);
      LeadsSome(FirstMet(front), name, ok);
    }
  }

  /** The first run with something to say. */
  function FirstSome<T, L>(runs: seq<T>, lead: T -> Option<L>): Option<L> {
    if runs == [] then None else OrElse(lead(runs[0]), FirstSome(runs[1..], lead))
  }

  lemma {:induction false} LeadsFlatten<T, E, L>(
      runs: seq<T>, f: T -> seq<E>, name: E -> L, ok: E -> bool, lead: T -> Option<L>)
    requires forall r :: lead(r) == Leads(f(r), name, ok)
    ensures Leads(Flatten(runs, f), name, ok) == FirstSome(runs, lead)
  {
    if runs != [] {
      LeadsFlatten(runs[1..], f, name, ok, lead);
      LeadsAppend(f(runs[0]), Flatten(runs[1..], f), name, ok);
    }
  }

  lemma {:induction false} FirstSomeFrom<T, L>(runs: seq<T>, lead: T -> Option<L>)
    ensures var x := FirstSome(runs, lead);
            if x.Some? then exists r <- runs :: lead(r) == x else forall r <- runs :: lead(r).None?
  {
    if runs != [] {
      FirstSomeFrom(runs[1..], lead);
      assert forall r :: r in runs <==> r == runs[0] || r in runs[1..];
    }
  }

  /** All runs with something to say agree. */
  ghost predicate Agree<T(!new), L>(runs: seq<T>, lead: T -> Option<L>) {
    forall r <- runs, s <- runs | lead(r).Some? && lead(s).Some? :: lead(r) == lead(s)
  }

  lemma AgreedFirst<T(!new), L>(a: seq<T>, b: seq<T>, lead: T -> Option<L>)
    requires Permuted(a, b) && Agree(a, lead)
    ensures FirstSome(b, lead) == FirstSome(a, lead)
  {
    PermutedMembers(a, b);
    FirstSomeFrom(a, lead);
    FirstSomeFrom(b, lead);
  }

  lemma Disagreed<T(!new), L>(a: seq<T>, lead: T -> Option<L>) returns (b: seq<T>)
    requires !Agree(a, lead)
    ensures Permuted(a, b) && FirstSome(b, lead) != FirstSome(a, lead)
  {
    var r, s :| r in a && s in a && lead(r).Some? && lead(s).Some? && lead(r) != lead(s);
    b := PutInFront(a, if FirstSome(a, lead) == lead(r) then s else r);
  }

  // ---------------------------------------------------------------------- the label of a type

  function Itself<L>(): L -> L { (l: L) => l }

  /** The labels that no other label of the list outnumbers. */
  ghost function IsMost<L(!new)>(ds: seq<L>): L -> bool { (d: L) => Most(ds, d) }

  lemma {:induction false} LeaderAt<T>(candidates: seq<T>, ds: seq<T>) returns (i: nat)
    requires candidates != []
    ensures i < |candidates| && candidates[i] == Leader(candidates, ds)
    ensures forall j | 0 <= j < i :: Votes(ds, candidates[j]) < Votes(ds, candidates[i])
    decreases |candidates|
  {
    var n := |candidates|;
    if n == 1 {
      i := 0;
    } else {
      var front := candidates[..n - 1];
      i := LeaderAt(front, ds);
      assert Leader(front, ds) == front[i];
      if Votes(ds, candidates[n - 1]) > Votes(ds, front[i]) {
        i := n - 1;
        forall j | 0 <= j < i ensures Votes(ds, candidates[j]) < Votes(ds, candidates[i]) {
          assert front[j] in front;
        }
      }
    }
  }

  lemma {:induction false} LeadsFound<E, L>(items: seq<E>, name: E -> L, ok: E -> bool, i: nat)
    requires i < |items| && ok(items[i]) && forall j | 0 <= j < i :: !ok(items[j])
    ensures Leads(items, name, ok) == Some(name(items[i]))
  {
    if i > 0 {
      assert !ok(items[0]) && items[1..][i - 1] == items[i];
      assert forall j | 0 <= j < i - 1 :: items[1..][j] == items[j + 1];
      LeadsFound(items[1..], name, ok, i - 1);
    }
  }

  lemma LeaderLeads<T(!new)>(ds: seq<T>)
    requires ds != []
    ensures FirstMet(ds) != [] && Leads(ds, Itself(), IsMost(ds)) == Some(Leader(FirstMet(ds), ds))
  {
    var c := FirstMet(ds);
    FirstMetHead(ds);
    var i := LeaderAt(c, ds);
    assert c[i] in ds && forall x <- ds :: x in c;
    forall j | 0 <= j < i ensures !IsMost(ds)(c[j]) { assert c[i] in ds; }
    LeadsFound(c, Itself(), IsMost(ds), i);
    LeadsFirstMet(ds, Itself(), IsMost(ds));
  }

  /** The label of a type is the first of the labels that no other outnumbers. */
  lemma TypeLabelLeads(ds: seq<Discrimination>)
    ensures TypeDiscrimination(ds)
         == (var x := Leads(ds, Itself(), IsMost(ds)); if x.Some? then x.value else Inconclusive)
  {
    if ds != [] {
      LeaderLeads(ds);
      if forall d <- ds :: d == ds[0] { assert Leader(FirstMet(ds), ds) in ds; }
    }
  }

  // ------------------------------------------------------------------- from values to checks

  /** The discrimination of the value that a check tests. */
  function LabelOf(runs: seq<EvalRun>): Check -> Discrimination {
    (c: Check) => DiscriminationOf(runs)((c.kind, c.value))
  }

  /** The checks of a type whose value carries a label that no other outnumbers. */
  ghost function InLead(runs: seq<EvalRun>, kind: Kind): Check -> bool {
    (c: Check) => c.kind == kind && Most(Conclusive(runs, kind), LabelOf(runs)(c))
  }

  /** What a run has to say about a type: the label of its first check in the lead. */
  ghost function LeadOf(runs: seq<EvalRun>, kind: Kind): EvalRun -> Option<Discrimination> {
    (r: EvalRun) => Leads(BothChecksOf()(r), LabelOf(runs), InLead(runs, kind))
  }

  lemma SelectedLeads<E(!new), L(!new)>(
      entries: seq<E>, p: E -> bool, g: E -> L, keep: L -> bool, ds: seq<L>, ok: E -> bool)
    requires ds == Filter(Keys(Filter(entries, p), g), keep)
    requires forall e :: ok(e) <==> p(e) && Most(ds, g(e))
    ensures Leads(ds, Itself(), IsMost(ds)) == Leads(entries, g, ok)
  {
    forall d: L ensures IsMost(ds)(d) <==> keep(d) && IsMost(ds)(d) {
      assert Most(ds, d) ==> d in ds;
    }
    LeadsFilter(Keys(Filter(entries, p), g), keep, Itself(), IsMost(ds), IsMost(ds));
    var most := (e: E) => IsMost(ds)(g(e));
    LeadsKeys(Filter(entries, p), g, Itself(), IsMost(ds), g, most);
    LeadsFilter(entries, p, g, most, ok);
  }

  ghost function EntryLeads(runs: seq<EvalRun>, kind: Kind): ((Kind, string)) -> bool {
    (e: (Kind, string)) => e.0 == kind && Most(Conclusive(runs, kind), DiscriminationOf(runs)(e))
  }

  /** The label of a type is what the first run with something to say about it says. */
  lemma TypeLabelByRuns(runs: seq<EvalRun>, kind: Kind)
    ensures TypeStatsAt(runs, kind).discrimination
         == (var x := FirstSome(runs, LeadOf(runs, kind)); if x.Some? then x.value else Inconclusive)
  {
    var ds, g, ok := Conclusive(runs, kind), DiscriminationOf(runs), EntryLeads(runs, kind);
    TypeLabelLeads(ds);
    SelectedLeads(ValueEntries(runs), OfKind(kind), g, IsConclusive(), ds, ok);
    var checks := Flatten(runs, BothChecksOf());
    LeadsFirstMet(Keys(checks, KindValue()), g, ok);
    LeadsKeys(checks, KindValue(), g, ok, LabelOf(runs), InLead(runs, kind));
    LeadsFlatten(runs, BothChecksOf(), LabelOf(runs), InLead(runs, kind), LeadOf(runs, kind));
  }

  // ---------------------------------------------------------------- under permutation of runs

  lemma MostPermuted<T(!new)>(a: seq<T>, b: seq<T>, d: T)
    requires Permuted(a, b)
    ensures Most(a, d) <==> Most(b, d)
  {
    PermutedMembers(a, b);
    VotesPermuted(a, b);
  }

  lemma LeadPermuted(a: seq<EvalRun>, b: seq<EvalRun>, kind: Kind, r: EvalRun)
    requires Permuted(a, b)
    ensures LeadOf(a, kind)(r) == LeadOf(b, kind)(r)
  {
    ConclusivePermuted(a, b, kind);
    forall c: Check ensures LabelOf(a)(c) == LabelOf(b)(c) && InLead(a, kind)(c) == InLead(b, kind)(c) {
      ValueStatsPermuted(a, b, ValueKey(c.kind, c.value));
      MostPermuted(Conclusive(a, kind), Conclusive(b, kind), LabelOf(a)(c));
    }
    LeadsSame(BothChecksOf()(r), LabelOf(a), InLead(a, kind), LabelOf(b), InLead(b, kind));
  }

  lemma {:induction false} FirstSomeSame<T(!new), L>(runs: seq<T>, f: T -> Option<L>, g: T -> Option<L>)
    requires forall r :: f(r) == g(r)
    ensures FirstSome(runs, f) == FirstSome(runs, g)
  {
    if runs != [] { FirstSomeSame(runs[1..], f, g); }
  }

  lemma LabelAfter(a: seq<EvalRun>, b: seq<EvalRun>, kind: Kind)
    requires Permuted(a, b)
    ensures TypeStatsAt(b, kind).discrimination
         == (var x := FirstSome(b, LeadOf(a, kind)); if x.Some? then x.value else Inconclusive)
  {
    TypeLabelByRuns(b, kind);
    forall r ensures LeadOf(a, kind)(r) == LeadOf(b, kind)(r) { LeadPermuted(a, b, kind, r); }
    FirstSomeSame(b, LeadOf(a, kind), LeadOf(b, kind));
  }

  lemma LeadConclusive(runs: seq<EvalRun>, kind: Kind, r: EvalRun)
    ensures LeadOf(runs, kind)(r) != Some(Inconclusive)
  {
    LeadsAreMost(BothChecksOf()(r), LabelOf(runs), InLead(runs, kind));
    assert Inconclusive !in Conclusive(runs, kind);
  }

  lemma {:induction false} LeadsAreMost<E, L>(items: seq<E>, name: E -> L, ok: E -> bool)
    ensures Leads(items, name, ok).Some? ==> exists e <- items :: ok(e) && Leads(items, name, ok) == Some(name(e))
  {
    if items != [] { LeadsAreMost(items[1..], name, ok); }
  }

  /** The label of a type is the same for every order of the runs if and only if the runs that test a
      value with a leading label all test one with the same label first. */
  lemma LabelStableExactly(runs: seq<EvalRun>, kind: Kind)
    ensures (forall b | Permuted(runs, b) ::
        TypeStatsAt(b, kind).discrimination == TypeStatsAt(runs, kind).discrimination)
       <==> Agree(runs, LeadOf(runs, kind))
  {
    var lead := LeadOf(runs, kind);
    LabelAfter(runs, runs, kind);
    if Agree(runs, lead) {
      forall b | Permuted(runs, b)
        ensures TypeStatsAt(b, kind).discrimination == TypeStatsAt(runs, kind).discrimination
      {
        LabelAfter(runs, b, kind);
        AgreedFirst(runs, b, lead);
      }
    } else {
      var b := Disagreed(runs, lead);
      LabelAfter(runs, b, kind);
      FirstSomeFrom(runs, lead);
      FirstSomeFrom(b, lead);
      forall r ensures lead(r) != Some(Inconclusive) { LeadConclusive(runs, kind, r); }
    }
  }

  // ------------------------------------------------------------- the versions of iterations

  lemma {:induction false} ChainVersion(runs: seq<EvalRun>, ks: seq<nat>, prev: Option<IterationStats>, i: nat)
    requires i < |ks|
    ensures |IterationChain(runs, ks, prev)| == |ks|
    ensures IterationChain(runs, ks, prev)[i].skillVersion == FirstVersion(RunsOfIteration(runs, ks[i]))
    decreases |ks|
  {
    var s := IterationStatsOf(ks[0], RunsOfIteration(runs, ks[0]), prev);
    if i > 0 {
      ChainVersion(runs, ks[1..], Some(s), i - 1);
    } else if |ks| > 1 {
      ChainVersion(runs, ks[1..], Some(s), 0);
    }
  }

  lemma FilterFront<T>(s: seq<T>, p: T -> bool)
    requires s != [] && p(s[0])
    ensures Filter(s, p) != [] && Filter(s, p)[0] == s[0]
  {
  }

  lemma FirstOfIteration(runs: seq<EvalRun>, k: nat)
    requires runs != [] && runs[0].iteration == Some(k)
    ensures FirstVersion(RunsOfIteration(runs, k)) == VersionOrOne(runs[0])
  {
    FilterFront(runs, HasIteration());
    FilterFront(Filter(runs, HasIteration()), HasKey(IterationOf(), k));
  }

  /** Two runs of one iteration that count as different versions: one of them, listed first, changes
      what the iteration is said to have run on. */
  lemma VersionsDiffer(a: seq<EvalRun>) returns (b: seq<EvalRun>)
    requires !VersionsUniform(a)
    ensures Permuted(a, b) && CalculateIterationStats(b) != CalculateIterationStats(a)
  {
    var r, s :| r in a && s in a && r.iteration.Some? && r.iteration == s.iteration
        && VersionOrOne(r) != VersionOrOne(s);
    var k := r.iteration.value;
    b := PutInFront(a, if FirstVersion(RunsOfIteration(a, k)) == VersionOrOne(r) then s else r);
    FirstOfIteration(b, k);
    assert r in Filter(a, HasIteration()) && IterationOf()(r) == k;
    FilterPermuted(a, b, HasIteration());
    KeysOfPermuted(Filter(a, HasIteration()), Filter(b, HasIteration()), IterationOf());
    var ks := Sorted(Iterations(a));
    assert k in ks;
    var i: nat :| i < |ks| && ks[i] == k;
    ChainVersion(a, ks, None, i);
    ChainVersion(b, ks, None, i);
  }

  // ------------------------------------------------------------------- the labels of types

  /** No order of the runs changes the label of a type that the benchmark shows. */
  ghost predicate LabelsStable(runs: seq<EvalRun>) {
    forall k <- KeysOf(AllChecks(runs), KindOf()) :: Agree(runs, LeadOf(runs, k))
  }

  lemma DecidedIsStable(runs: seq<EvalRun>)
    requires TypesDecided(runs)
    ensures LabelsStable(runs)
  {
    forall k <- KeysOf(AllChecks(runs), KindOf()) ensures Agree(runs, LeadOf(runs, k)) {
      forall b | Permuted(runs, b)
        ensures TypeStatsAt(b, k).discrimination == TypeStatsAt(runs, k).discrimination
      {
        TypeStatsPermuted(runs, b, k);
      }
      LabelStableExactly(runs, k);
    }
  }

  lemma StableLabels(a: seq<EvalRun>, b: seq<EvalRun>)
    requires Permuted(a, b) && LabelsStable(a)
    ensures ByType(a) == ByType(b)
  {
    ChecksPermuted(a, b);
    KeysOfPermuted(AllChecks(a), AllChecks(b), KindOf());
    var ks := KeysOf(AllChecks(a), KindOf());
    forall k <- ks ensures TypeStatsFor(a)(k) == TypeStatsFor(b)(k) {
      TypeStatsPermuted(a, b, k);
      LabelStableExactly(a, k);
    }
    SameTable(ks, TypeStatsFor(a), TypeStatsFor(b));
  }

  lemma LabelsDiffer(a: seq<EvalRun>) returns (b: seq<EvalRun>)
    requires !LabelsStable(a)
    ensures Permuted(a, b) && ByType(b) != ByType(a)
  {
    var k :| k in KeysOf(AllChecks(a), KindOf()) && !Agree(a, LeadOf(a, k));
    LabelStableExactly(a, k);
    b :| Permuted(a, b) && TypeStatsAt(b, k).discrimination != TypeStatsAt(a, k).discrimination;
    ChecksPermuted(a, b);
    KeysOfPermuted(AllChecks(a), AllChecks(b), KindOf());
    assert TypeStatsFor(a)(k) != TypeStatsFor(b)(k);
    assert ByType(a)[k] != ByType(b)[k];
  }

  // -------------------------------------------------------------------- the whole benchmark

  function OutOf(version: Option<nat>): EvalRun -> bool { (r: EvalRun) => !(IsQuality()(r) && InScope(version)(r)) }

  function Within(version: Option<nat>): EvalRun -> bool { (r: EvalRun) => IsQuality()(r) && InScope(version)(r) }

  /** Any order of the runs that count is the order they have in some order of all runs. */
  lemma Arranged(a: seq<EvalRun>, version: Option<nat>, counted: seq<EvalRun>) returns (b: seq<EvalRun>)
    requires Permuted(Scoped(a, version), counted)
    ensures Permuted(a, b) && Scoped(b, version) == counted
  {
    var p, q := Within(version), OutOf(version);
    FilterTwice(a, IsQuality(), InScope(version), p);
    Partition(a, p, q);
    b := counted + Filter(a, q);
    assert multiset(b) == multiset(counted) + multiset(Filter(a, q));
    PermutedMembers(Filter(a, p), counted);
    FilterAll(counted, p);
    FilterNone(Filter(a, q), p);
    FilterAppend(counted, Filter(a, q), p);
    FilterTwice(b, IsQuality(), InScope(version), p);
  }

  lemma SummaryAgrees(a: seq<EvalRun>, b: seq<EvalRun>)
    requires Permuted(a, b) && LabelsStable(a) && VersionsUniform(a)
    ensures BenchmarkOf(a) == BenchmarkOf(b)
  {
    PermutedMembers(a, b);
    if a != [] {
      SummaryPermuted(a, b);
      StableLabels(a, b);
      TimelinePermuted(a, b);
      Restored(Summarise(a, a), Summarise(b, b));
    }
  }

  lemma Restored(x: EvalBenchmark, y: EvalBenchmark)
    requires NumbersOf(x) == NumbersOf(y) && x.byType == y.byType && x.byIteration == y.byIteration
    ensures x == y
  {
    assert x == NumbersOf(x).(byType := x.byType, byIteration := x.byIteration);
    assert y == NumbersOf(y).(byType := y.byType, byIteration := y.byIteration);
  }

  lemma SummaryDiffers(a: seq<EvalRun>) returns (b: seq<EvalRun>)
    requires !(LabelsStable(a) && VersionsUniform(a))
    ensures Permuted(a, b) && BenchmarkOf(a) != BenchmarkOf(b)
  {
    if !LabelsStable(a) {
      b := LabelsDiffer(a);
    } else {
      b := VersionsDiffer(a);
    }
    PermutedMembers(a, b);
  }

  lemma ScopedPermuted(a: seq<EvalRun>, b: seq<EvalRun>, version: Option<nat>)
    requires Permuted(a, b)
    ensures Permuted(Scoped(a, version), Scoped(b, version))
  {
    FilterPermuted(a, b, IsQuality());
    FilterPermuted(Filter(a, IsQuality()), Filter(b, IsQuality()), InScope(version));
  }

  /** A benchmark is the same for every order of the runs if and only if, among the runs that count,
      the label of every type is stable and the runs of one iteration count as one version. */
  lemma OrderIndependentExactly(a: seq<EvalRun>, version: Option<nat>)
    ensures (forall b | Permuted(a, b) :: ComputeBenchmark(b, version) == ComputeBenchmark(a, version))
       <==> LabelsStable(Scoped(a, version)) && VersionsUniform(Scoped(a, version))
  {
    var x := Scoped(a, version);
    BenchmarkIsOfScoped(a, version);
    if LabelsStable(x) && VersionsUniform(x) {
      forall b | Permuted(a, b) ensures ComputeBenchmark(b, version) == ComputeBenchmark(a, version) {
        ScopedPermuted(a, b, version);
        SummaryAgrees(x, Scoped(b, version));
        BenchmarkIsOfScoped(b, version);
      }
    } else {
      var y := SummaryDiffers(x);
      var b := Arranged(a, version, y);
      BenchmarkIsOfScoped(b, version);
    }
  }
}
