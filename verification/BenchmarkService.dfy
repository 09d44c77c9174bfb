/** The counting loops of packages/backend/src/eval/benchmark.service.ts, one record bumped per
    result, proved against the grouped counts of `Benchmark`. */
module BenchmarkService {
  import opened Common
  import opened Tally
  import opened Benchmark
  import Numbers = BenchmarkNumbers

  // ---------------------------------------------------------------------- one step each

  /** Adding or changing one row of a table. */
  lemma TableUpdate<K, V>(keys: set<K>, k: K, f: K -> V, g: K -> V)
    requires forall x <- keys :: x != k ==> g(x) == f(x)
    ensures Table(keys + {k}, g) == Table(keys, f)[k := g(k)]
  {
  }

  function TallyAt<T(==), K(==)>(items: seq<T>, key: T -> K, ok: T -> bool): K -> Tallied {
    (k: K) => Tallying(items, key, ok, k)
  }

  function TallyTable<T(==), K(==)>(items: seq<T>, key: T -> K, ok: T -> bool): map<K, Tallied> {
    Table(KeysOf(items, key), TallyAt(items, key, ok))
  }

  function OneMore(c: Tallied, passed: bool): Tallied { Tallied(c.total + 1, c.passed + if passed then 1 else 0) }

  function Bumped<K(==)>(m: map<K, Tallied>, k: K, passed: bool): map<K, Tallied> {
    m[k := OneMore(if k in m then m[k] else Tallied(0, 0), passed)]
  }

  lemma TallyAppend<T, K>(items: seq<T>, x: T, key: T -> K, ok: T -> bool, k: K)
    ensures var c := Tallying(items, key, ok, k);
            Tallying(items + [x], key, ok, k) == if key(x) == k then OneMore(c, ok(x)) else c
  {
    CountAppend(items, [x], HasKey(key, k));
    FilterAppend(items, [x], ok);
    CountAppend(Filter(items, ok), Filter([x], ok), HasKey(key, k));
    assert Filter([x], ok) == if ok(x) then [x] else [];
    assert Count([x], HasKey(key, k)) == if key(x) == k then 1 else 0;
  }

  lemma TallyOfAbsent<T, K>(items: seq<T>, key: T -> K, ok: T -> bool, k: K)
    requires k !in KeysOf(items, key)
    ensures Tallying(items, key, ok, k) == Tallied(0, 0)
  {
    forall x <- items ensures !HasKey(key, k)(x) { assert key(x) in KeysOf(items, key); }
    FilterNone(items, HasKey(key, k));
    CountIsFilter(items, HasKey(key, k));
    Numbers.TallyBounds(items, key, ok, k);
  }

  lemma KeysOfAppend<T, K>(items: seq<T>, x: T, key: T -> K)
    ensures KeysOf(items + [x], key) == KeysOf(items, key) + {key(x)}
  {
    var all := items + [x];
    assert forall y :: y in all <==> y in items || y == x;
    assert all[|items|] == x;
  }

  lemma TallyStep<T, K(!new)>(items: seq<T>, x: T, key: T -> K, ok: T -> bool)
    ensures TallyTable(items + [x], key, ok) == Bumped(TallyTable(items, key, ok), key(x), ok(x))
  {
    var f, g := TallyAt(items, key, ok), TallyAt(items + [x], key, ok);
    KeysOfAppend(items, x, key);
    if key(x) !in KeysOf(items, key) { TallyOfAbsent(items, key, ok, key(x)); }
    forall k: K ensures g(k) == if key(x) == k then OneMore(f(k), ok(x)) else f(k) {
      TallyAppend(items, x, key, ok, k);
    }
    TableUpdate(KeysOf(items, key), key(x), f, g);
  }

  lemma FlattenStep<T, U>(items: seq<T>, i: nat, f: T -> seq<U>)
    requires i < |items|
    ensures Flatten(items[..i + 1], f) == Flatten(items[..i], f) + f(items[i])
  {
    assert items[..i + 1] == items[..i] + [items[i]];
    FlattenAppend(items[..i], [items[i]], f);
    assert Flatten([items[i]], f) == f(items[i]);
  }

  lemma TakeStep<T>(s: seq<T>, i: nat)
    requires i < |s|
    ensures s[..i + 1] == s[..i] + [s[i]]
  {
  }

  function GroupOf<T(==), K(==)>(items: seq<T>, key: T -> K): K -> seq<T> {
    (k: K) => Filter(items, HasKey(key, k))
  }

  function Groups<T(==), K(==)>(items: seq<T>, key: T -> K): map<K, seq<T>> {
    Table(KeysOf(items, key), GroupOf(items, key))
  }

  lemma FilterOne<T>(items: seq<T>, x: T, p: T -> bool)
    ensures Filter(items + [x], p) == Filter(items, p) + if p(x) then [x] else []
  {
    FilterAppend(items, [x], p);
    assert Filter([x], p) == if p(x) then [x] else [];
  }

  function Appended<T, K(==)>(m: map<K, seq<T>>, k: K, x: T): map<K, seq<T>> {
    m[k := (if k in m then m[k] else []) + [x]]
  }

  lemma GroupOfAbsent<T, K>(items: seq<T>, key: T -> K, k: K)
    requires k !in KeysOf(items, key)
    ensures Filter(items, HasKey(key, k)) == []
  {
    forall y <- items ensures !HasKey(key, k)(y) { assert key(y) in KeysOf(items, key); }
    FilterNone(items, HasKey(key, k));
  }

  lemma GroupStep<T, K(!new)>(items: seq<T>, x: T, key: T -> K)
    ensures Groups(items + [x], key) == Appended(Groups(items, key), key(x), x)
  {
    var f, g := GroupOf(items, key), GroupOf(items + [x], key);
    KeysOfAppend(items, x, key);
    if key(x) !in KeysOf(items, key) { GroupOfAbsent(items, key, key(x)); }
    forall k: K ensures g(k) == if key(x) == k then f(k) + [x] else f(k) {
      FilterOne(items, x, HasKey(key, k));
      assert f(k) + [] == f(k);
    }
    TableUpdate(KeysOf(items, key), key(x), f, g);
  }

  lemma GroupStepAt<T, K(!new)>(items: seq<T>, i: nat, key: T -> K)
    requires i < |items|
    ensures Groups(items[..i + 1], key) == Appended(Groups(items[..i], key), key(items[i]), items[i])
  {
    TakeStep(items, i);
    GroupStep(items[..i], items[i], key);
  }

  method Append<T, K(==)>(m: map<K, seq<T>>, k: K, x: T) returns (r: map<K, seq<T>>)
    ensures r == Appended(m, k, x)
  {
    r := m;
    if k !in r { r := r[k := []]; }
    r := r[k := r[k] + [x]];
  }

  method Bump<K(==)>(m: map<K, Tallied>, k: K, passed: bool) returns (r: map<K, Tallied>)
    ensures r == Bumped(m, k, passed)
  {
    r := m;
    if k !in r { r := r[k := Tallied(0, 0)]; }
    r := r[k := r[k].(total := r[k].total + 1)];
    if passed { r := r[k := r[k].(passed := r[k].passed + 1)]; }
  }

  // ------------------------------------------------------------------------- by type

  function TypeTable(checks: seq<Check>): map<Kind, Tallied> { TallyTable(checks, KindOf(), Passing()) }

  method CountTypes(byType: map<Kind, Tallied>, results: seq<Check>, ghost before: seq<Check>)
      returns (r: map<Kind, Tallied>)
    requires byType == TypeTable(before)
    ensures r == TypeTable(before + results)
  {
    r := byType;
    assert before + results[..0] == before;
    for j := 0 to |results|
      invariant r == TypeTable(before + results[..j])
    {
      r := Bump(r, results[j].kind, results[j].passed);
      assert before + results[..j + 1] == (before + results[..j]) + [results[j]];
      TallyStep(before + results[..j], results[j], KindOf(), Passing());
    }
    assert results[..|results|] == results;
  }

  method CalculateAssertionStats(runs: seq<EvalRun>) returns (byType: map<Kind, Tallied>)
    ensures byType == TypeTable(AllChecks(runs))
  {
    byType := map[];
    for i := 0 to |runs|
      invariant byType == TypeTable(AllChecks(runs[..i]))
    {
      byType := CountTypes(byType, runs[i].grading.checks, AllChecks(runs[..i]));
      FlattenStep(runs, i, ChecksOf());
    }
    assert runs[..|runs|] == runs;
  }

  // ------------------------------------------------------------------------- by case

  method GroupByCase(runs: seq<EvalRun>) returns (byEvalId: map<nat, seq<EvalRun>>)
    ensures byEvalId == Groups(runs, EvalIdOf())
  {
    byEvalId := map[];
    for i := 0 to |runs|
      invariant byEvalId == Groups(runs[..i], EvalIdOf())
    {
      byEvalId := Append(byEvalId, runs[i].evalId, runs[i]);
      GroupStepAt(runs, i, EvalIdOf());
    }
    assert runs[..|runs|] == runs;
  }

  method CalculateEvalCaseStats(runs: seq<EvalRun>) returns (byCase: map<nat, CaseStats>)
    ensures byCase == ByCase(runs)
  {
    var byEvalId := GroupByCase(runs);
    byCase := map k | k in byEvalId :: CaseStatsOf(byEvalId[k]);
  }

  // ------------------------------------------------------------------------ by value

  datatype ValueCounts = ValueCounts(withSkill: Tallied, baseline: Tallied)

  function ValueTally(checks: seq<Check>, k: string): Tallied { Tallying(checks, ValueKeyOf(), Passing(), k) }

  function ValueKeys(w: seq<Check>, b: seq<Check>): set<string> { KeysOf(w, ValueKeyOf()) + KeysOf(b, ValueKeyOf()) }

  function ValueCountsAt(w: seq<Check>, b: seq<Check>): string -> ValueCounts {
    (k: string) => ValueCounts(ValueTally(w, k), ValueTally(b, k))
  }

  function ValueTable(w: seq<Check>, b: seq<Check>): map<string, ValueCounts> {
    Table(ValueKeys(w, b), ValueCountsAt(w, b))
  }

  function CountsAt(m: map<string, ValueCounts>, k: string): ValueCounts {
    if k in m then m[k] else ValueCounts(Tallied(0, 0), Tallied(0, 0))
  }

  lemma ValueTableAt(w: seq<Check>, b: seq<Check>, k: string)
    ensures CountsAt(ValueTable(w, b), k) == ValueCounts(ValueTally(w, k), ValueTally(b, k))
  {
    if k !in KeysOf(w, ValueKeyOf()) { TallyOfAbsent(w, ValueKeyOf(), Passing(), k); }
    if k !in KeysOf(b, ValueKeyOf()) { TallyOfAbsent(b, ValueKeyOf(), Passing(), k); }
  }

  lemma ValueTallyStep(checks: seq<Check>, c: Check, k: string)
    ensures ValueTally(checks + [c], k)
         == if ValueKeyOf()(c) == k then OneMore(ValueTally(checks, k), c.passed) else ValueTally(checks, k)
  {
    TallyAppend(checks, c, ValueKeyOf(), Passing(), k);
  }

  lemma WithSkillStep(w: seq<Check>, b: seq<Check>, c: Check)
    ensures var k := ValueKey(c.kind, c.value); var v := CountsAt(ValueTable(w, b), k);
            ValueTable(w + [c], b) == ValueTable(w, b)[k := v.(withSkill := OneMore(v.withSkill, c.passed))]
  {
    var k, f, g := ValueKey(c.kind, c.value), ValueCountsAt(w, b), ValueCountsAt(w + [c], b);
    KeysOfAppend(w, c, ValueKeyOf());
    assert ValueKeys(w + [c], b) == ValueKeys(w, b) + {k};
    ValueTableAt(w, b, k);
    forall x: string ensures g(x) == if x == k then f(x).(withSkill := OneMore(f(x).withSkill, c.passed)) else f(x) {
      ValueTallyStep(w, c, x);
    }
    TableUpdate(ValueKeys(w, b), k, f, g);
  }

  lemma BaselineStep(w: seq<Check>, b: seq<Check>, c: Check)
    ensures var k := ValueKey(c.kind, c.value); var v := CountsAt(ValueTable(w, b), k);
            ValueTable(w, b + [c]) == ValueTable(w, b)[k := v.(baseline := OneMore(v.baseline, c.passed))]
  {
    var k, f, g := ValueKey(c.kind, c.value), ValueCountsAt(w, b), ValueCountsAt(w, b + [c]);
    KeysOfAppend(b, c, ValueKeyOf());
    assert ValueKeys(w, b + [c]) == ValueKeys(w, b) + {k};
    ValueTableAt(w, b, k);
    forall x: string ensures g(x) == if x == k then f(x).(baseline := OneMore(f(x).baseline, c.passed)) else f(x) {
      ValueTallyStep(b, c, x);
    }
    TableUpdate(ValueKeys(w, b), k, f, g);
  }

  /** The order in which the records were created. */
  function EntriesOf(met: seq<Check>): seq<(Kind, string)> { FirstMet(Keys(met, KindValue())) }

  lemma MetByKey(met: seq<Check>, c: Check)
    ensures KindValue()(c) in Keys(met, KindValue()) <==> ValueKeyOf()(c) in KeysOf(met, ValueKeyOf())
  {
    var e, k := KindValue()(c), ValueKeyOf()(c);
    if k in KeysOf(met, ValueKeyOf()) {
      var d :| d in met && ValueKeyOf()(d) == k;
      Numbers.ValueKeyInjective(c.kind, c.value, d.kind, d.value);
      var i :| 0 <= i < |met| && met[i] == d;
      assert Keys(met, KindValue())[i] == e;
    }
    if e in Keys(met, KindValue()) {
      var i :| 0 <= i < |met| && Keys(met, KindValue())[i] == e;
      assert met[i] in met;
    }
  }

  lemma EntriesStep(met: seq<Check>, c: Check)
    ensures EntriesOf(met + [c])
         == EntriesOf(met) + if ValueKeyOf()(c) in KeysOf(met, ValueKeyOf()) then [] else [KindValue()(c)]
  {
    var ks, e := Keys(met, KindValue()), KindValue()(c);
    assert Keys(met + [c], KindValue()) == ks + [e];
    FirstMetStep(ks, e);
    MetByKey(met, c);
  }

  lemma FirstMetStep<K>(ks: seq<K>, e: K)
    ensures FirstMet(ks + [e]) == FirstMet(ks) + if e in ks then [] else [e]
  {
    assert (ks + [e])[..|ks|] == ks;
  }

  /** The records of `calculateAssertionValueStats`, in the order in which they were created. */
  datatype Records = Records(counts: map<string, ValueCounts>, entries: seq<(Kind, string)>)

  function Created(v: Records, c: Check): Records {
    var k := ValueKeyOf()(c);
    if k in v.counts then v
    else Records(v.counts[k := ValueCounts(Tallied(0, 0), Tallied(0, 0))], v.entries + [(c.kind, c.value)])
  }

  function WithSkillCounted(v: Records, c: Check): Records {
    var k, m := ValueKeyOf()(c), Created(v, c);
    m.(counts := m.counts[k := m.counts[k].(withSkill := OneMore(m.counts[k].withSkill, c.passed))])
  }

  function BaselineCounted(v: Records, c: Check): Records {
    var k, m := ValueKeyOf()(c), Created(v, c);
    m.(counts := m.counts[k := m.counts[k].(baseline := OneMore(m.counts[k].baseline, c.passed))])
  }

  function Folded<T>(v: Records, s: seq<T>, step: (Records, T) -> Records): Records
    decreases |s|
  {
    if s == [] then v else step(Folded(v, s[..|s| - 1], step), s[|s| - 1])
  }

  function RunCounted(v: Records, run: EvalRun): Records {
    Folded(Folded(v, ChecksOf()(run), WithSkillCounted), BaselineChecksOf()(run), BaselineCounted)
  }

  /** Every record holds the counts of its assertion among the with-skill checks `w` and the baseline checks `b`. */
  ghost predicate Counted(v: Records, w: seq<Check>, b: seq<Check>) {
    v.counts == ValueTable(w, b)
  }

  /** There is one record for each assertion among the checks `met`, created at its first check. */
  ghost predicate Listed(v: Records, met: seq<Check>) {
    v.entries == EntriesOf(met) && v.counts.Keys == KeysOf(met, ValueKeyOf())
  }

  lemma OneListed(v: Records, met: seq<Check>, c: Check)
    requires Listed(v, met)
    ensures Listed(WithSkillCounted(v, c), met + [c]) && Listed(BaselineCounted(v, c), met + [c])
  {
    EntriesStep(met, c);
    KeysOfAppend(met, c, ValueKeyOf());
  }

  lemma WithSkillIsCounted(v: Records, w: seq<Check>, b: seq<Check>, c: Check)
    requires Counted(v, w, b)
    ensures Counted(WithSkillCounted(v, c), w + [c], b)
  {
    WithSkillStep(w, b, c);
  }

  lemma BaselineIsCounted(v: Records, w: seq<Check>, b: seq<Check>, c: Check)
    requires Counted(v, w, b)
    ensures Counted(BaselineCounted(v, c), w, b + [c])
  {
    BaselineStep(w, b, c);
  }

  lemma TakenApart<T>(s: seq<T>, t: seq<T>)
    requires t != []
    ensures s + t[..|t| - 1] + [t[|t| - 1]] == s + t
  {
  }

  lemma {:induction false} AllListed(v: Records, met: seq<Check>, s: seq<Check>)
    requires Listed(v, met)
    ensures Listed(Folded(v, s, WithSkillCounted), met + s) && Listed(Folded(v, s, BaselineCounted), met + s)
    decreases |s|
  {
    if s == [] {
      assert met + s == met;
    } else {
      var front, c := s[..|s| - 1], s[|s| - 1];
      AllListed(v, met, front);
      OneListed(Folded(v, front, WithSkillCounted), met + front, c);
      OneListed(Folded(v, front, BaselineCounted), met + front, c);
      TakenApart(met, s);
    }
  }

  lemma {:induction false} AllWithSkillCounted(v: Records, w: seq<Check>, b: seq<Check>, s: seq<Check>)
    requires Counted(v, w, b)
    ensures Counted(Folded(v, s, WithSkillCounted), w + s, b)
    decreases |s|
  {
    if s == [] {
      assert w + s == w;
    } else {
      var front, c := s[..|s| - 1], s[|s| - 1];
      AllWithSkillCounted(v, w, b, front);
      WithSkillIsCounted(Folded(v, front, WithSkillCounted), w + front, b, c);
      TakenApart(w, s);
    }
  }

  lemma {:induction false} AllBaselineCounted(v: Records, w: seq<Check>, b: seq<Check>, s: seq<Check>)
    requires Counted(v, w, b)
    ensures Counted(Folded(v, s, BaselineCounted), w, b + s)
    decreases |s|
  {
    if s == [] {
      assert b + s == b;
    } else {
      var front, c := s[..|s| - 1], s[|s| - 1];
      AllBaselineCounted(v, w, b, front);
      BaselineIsCounted(Folded(v, front, BaselineCounted), w, b + front, c);
      TakenApart(b, s);
    }
  }

  lemma RunIsCounted(v: Records, w: seq<Check>, b: seq<Check>, run: EvalRun)
    requires Counted(v, w, b)
    ensures Counted(RunCounted(v, run), w + ChecksOf()(run), b + BaselineChecksOf()(run))
  {
    var c, d := ChecksOf()(run), BaselineChecksOf()(run);
    AllWithSkillCounted(v, w, b, c);
    AllBaselineCounted(Folded(v, c, WithSkillCounted), w + c, b, d);
  }

  lemma Concatenated<T>(a: seq<T>, b: seq<T>, c: seq<T>)
    ensures a + b + c == a + (b + c)
  {
  }

  lemma RunIsListed(v: Records, met: seq<Check>, run: EvalRun)
    requires Listed(v, met)
    ensures Listed(RunCounted(v, run), met + BothChecksOf()(run))
  {
    var c, d := ChecksOf()(run), BaselineChecksOf()(run);
    AllListed(v, met, c);
    AllListed(Folded(v, c, WithSkillCounted), met + c, d);
    assert BothChecksOf()(run) == c + d;
    Concatenated(met, c, d);
  }

  /** Counting run by run groups every check under its assertion. */
  lemma {:induction false} AllRunsCounted(runs: seq<EvalRun>)
    ensures var v := Folded(Records(map[], []), runs, RunCounted);
            Counted(v, AllChecks(runs), AllBaselineChecks(runs)) && Listed(v, Flatten(runs, BothChecksOf()))
    decreases |runs|
  {
    if runs != [] {
      var n := |runs| - 1;
      AllRunsCounted(runs[..n]);
      FlattenStep(runs, n, ChecksOf());
      FlattenStep(runs, n, BaselineChecksOf());
      FlattenStep(runs, n, BothChecksOf());
      assert runs[..n + 1] == runs;
      RunIsCounted(Folded(Records(map[], []), runs[..n], RunCounted), AllChecks(runs[..n]),
          AllBaselineChecks(runs[..n]), runs[n]);
      RunIsListed(Folded(Records(map[], []), runs[..n], RunCounted), Flatten(runs[..n], BothChecksOf()), runs[n]);
    }
  }

  class ValueMap {
    var counts: map<string, ValueCounts>
    var entries: seq<(Kind, string)>

    function State(): Records
      reads this
    {
      Records(counts, entries)
    }

    constructor ()
      ensures State() == Records(map[], [])
    {
      counts, entries := map[], [];
    }

    /** The record of an assertion, created when the assertion is met for the first time. */
    method Meet(c: Check) returns (k: string)
      modifies this
      ensures k == ValueKeyOf()(c) && State() == Created(old(State()), c)
    {
      k := ValueKey(c.kind, c.value);
      if k !in counts {
        counts := counts[k := ValueCounts(Tallied(0, 0), Tallied(0, 0))];
        entries := entries + [(c.kind, c.value)];
      }
    }

    method CountWithSkill(c: Check)
      modifies this
      ensures State() == WithSkillCounted(old(State()), c)
    {
      var k := Meet(c);
      var v := counts[k];
      v := v.(withSkill := v.withSkill.(total := v.withSkill.total + 1));
      if c.passed { v := v.(withSkill := v.withSkill.(passed := v.withSkill.passed + 1)); }
      counts := counts[k := v];
    }

    method CountBaseline(c: Check)
      modifies this
      ensures State() == BaselineCounted(old(State()), c)
    {
      var k := Meet(c);
      var v := counts[k];
      v := v.(baseline := v.baseline.(total := v.baseline.total + 1));
      if c.passed { v := v.(baseline := v.baseline.(passed := v.baseline.passed + 1)); }
      counts := counts[k := v];
    }

    method CountRun(run: EvalRun)
      modifies this
      ensures State() == RunCounted(old(State()), run)
    {
      var results := run.grading.checks;
      for i := 0 to |results|
        invariant State() == Folded(old(State()), results[..i], WithSkillCounted)
      {
        CountWithSkill(results[i]);
        assert results[..i + 1][..i] == results[..i];
      }
      assert results[..|results|] == results;
      if run.baselineGrading.Some? {
        var base := run.baselineGrading.value.checks;
        ghost var before := State();
        for i := 0 to |base|
          invariant State() == Folded(before, base[..i], BaselineCounted)
        {
          CountBaseline(base[i]);
          assert base[..i + 1][..i] == base[..i];
        }
        assert base[..|base|] == base;
      }
    }

    method CountRuns(runs: seq<EvalRun>)
      modifies this
      ensures State() == Folded(old(State()), runs, RunCounted)
    {
      for i := 0 to |runs|
        invariant State() == Folded(old(State()), runs[..i], RunCounted)
      {
        CountRun(runs[i]);
        assert runs[..i + 1][..i] == runs[..i];
      }
      assert runs[..|runs|] == runs;
    }
  }

  method CalculateAssertionValueStats(runs: seq<EvalRun>)
      returns (entries: seq<(Kind, string)>, byValue: map<string, ValueStats>)
    ensures entries == ValueEntries(runs) && byValue == ByValue(runs)
  {
    var valueMap := new ValueMap();
    valueMap.CountRuns(runs);
    AllRunsCounted(runs);
    entries := valueMap.entries;
    byValue := map k | k in valueMap.counts :: ValueStatsOf(valueMap.counts[k].withSkill, valueMap.counts[k].baseline);
    StatsOfCounts(runs, valueMap.counts);
  }

  lemma StatsOfCounts(runs: seq<EvalRun>, counts: map<string, ValueCounts>)
    requires counts == ValueTable(AllChecks(runs), AllBaselineChecks(runs))
    ensures ByValue(runs) == map k | k in counts :: ValueStatsOf(counts[k].withSkill, counts[k].baseline)
  {
  }

  // ------------------------------------------------------------------- discrimination

  function VotesFor(ds: seq<Discrimination>): Discrimination -> nat { (d: Discrimination) => Votes(ds, d) }

  function VoteTable(ds: seq<Discrimination>): map<Discrimination, nat> { Table((set d | d in ds), VotesFor(ds)) }

  function Voted(m: map<Discrimination, nat>, d: Discrimination): map<Discrimination, nat> {
    m[d := (if d in m then m[d] else 0) + 1]
  }

  /** The counts of the conclusive labels, with the order in which the labels were first met. */
  method CountVotes(ds: seq<Discrimination>) returns (labels: seq<Discrimination>, votes: map<Discrimination, nat>)
    ensures labels == FirstMet(ds) && votes == VoteTable(ds)
  {
    labels, votes := [], map[];
    for i := 0 to |ds|
      invariant labels == FirstMet(ds[..i]) && votes == VoteTable(ds[..i])
    {
      VotesCounted(ds, i);
      if ds[i] !in votes { labels := labels + [ds[i]]; }
      votes := votes[ds[i] := (if ds[i] in votes then votes[ds[i]] else 0) + 1];
    }
    assert ds[..|ds|] == ds;
  }

  lemma VotesCounted(ds: seq<Discrimination>, i: nat)
    requires i < |ds|
    ensures FirstMet(ds[..i + 1]) == FirstMet(ds[..i]) + if ds[i] in VoteTable(ds[..i]) then [] else [ds[i]]
    ensures var m := VoteTable(ds[..i]); VoteTable(ds[..i + 1]) == Voted(m, ds[i])
  {
    TakeStep(ds, i);
    FirstMetStep(ds[..i], ds[i]);
    VoteTableStep(ds[..i], ds[i]);
  }

  lemma MembersAppend<T>(s: seq<T>, x: T)
    ensures (set d | d in s + [x]) == (set d | d in s) + {x}
  {
    assert forall d :: d in s + [x] <==> d in s || d == x;
  }

  lemma VoteTableStep(ds: seq<Discrimination>, x: Discrimination)
    ensures VoteTable(ds + [x]) == Voted(VoteTable(ds), x)
  {
    VotesStep(ds, x);
    MembersAppend(ds, x);
    TableUpdate((set d | d in ds), x, VotesFor(ds), VotesFor(ds + [x]));
  }

  lemma VotesStep(ds: seq<Discrimination>, x: Discrimination)
    ensures forall d :: Votes(ds + [x], d) == Votes(ds, d) + if d == x then 1 else 0
    ensures x !in ds ==> Votes(ds, x) == 0
  {
    forall d ensures Votes(ds + [x], d) == Votes(ds, d) + if d == x then 1 else 0 {
      CountAppend(ds, [x], Same(d));
      assert Count([x], Same(d)) == if d == x then 1 else 0;
    }
    if x !in ds {
      FilterNone(ds, Same(x));
      CountIsFilter(ds, Same(x));
    }
  }

  lemma LeaderStep<T>(labels: seq<T>, i: nat, ds: seq<T>)
    requires 0 < i < |labels|
    ensures var d, l := Leader(labels[..i], ds), labels[i];
            Leader(labels[..i + 1], ds) == if Votes(ds, l) > Votes(ds, d) then l else d
  {
    assert labels[..i + 1][..i] == labels[..i];
  }

  /** The head of a stable descending sort of the counts. */
  method MostVotes(labels: seq<Discrimination>, votes: map<Discrimination, nat>, ghost ds: seq<Discrimination>)
      returns (d: Discrimination)
    requires labels != [] && forall l <- labels :: l in votes && votes[l] == Votes(ds, l)
    ensures d == Leader(labels, ds)
  {
    d := labels[0];
    assert labels[..1] == [labels[0]];
    for i := 1 to |labels|
      invariant d == Leader(labels[..i], ds) && d in labels
    {
      LeaderStep(labels, i, ds);
      if votes[labels[i]] > votes[d] { d := labels[i]; }
    }
    assert labels[..|labels|] == labels;
  }

  method DiscriminationOfType(ds: seq<Discrimination>) returns (d: Discrimination)
    ensures d == TypeDiscrimination(ds)
  {
    if ds == [] { return Inconclusive; }
    if forall e <- ds :: e == ds[0] { return ds[0]; }
    var labels, votes := CountVotes(ds);
    d := MostVotes(labels, votes, ds);
  }

  function Selected(entries: seq<(Kind, string)>, kind: Kind,
      f: ((Kind, string)) -> Discrimination): seq<Discrimination> {
    Filter(Keys(Filter(entries, OfKind(kind)), f), IsConclusive())
  }

  function Chosen(e: (Kind, string), kind: Kind, f: ((Kind, string)) -> Discrimination): seq<Discrimination> {
    if e.0 == kind && f(e) != Inconclusive then [f(e)] else []
  }

  lemma SelectedStep(entries: seq<(Kind, string)>, i: nat, kind: Kind, f: ((Kind, string)) -> Discrimination)
    requires i < |entries|
    ensures Selected(entries[..i + 1], kind, f)
         == Selected(entries[..i], kind, f) + Chosen(entries[i], kind, f)
  {
    var e, kept := entries[i], Filter(entries[..i], OfKind(kind));
    TakeStep(entries, i);
    FilterOne(entries[..i], e, OfKind(kind));
    if e.0 == kind {
      assert Keys(kept + [e], f) == Keys(kept, f) + [f(e)];
      FilterOne(Keys(kept, f), f(e), IsConclusive());
    } else {
      assert kept + [] == kept;
    }
  }

  ghost predicate Reads(byValue: map<string, ValueStats>, e: (Kind, string), f: ((Kind, string)) -> Discrimination) {
    ValueKey(e.0, e.1) in byValue && byValue[ValueKey(e.0, e.1)].discrimination == f(e)
  }

  method LabelOfEntry(e: (Kind, string), byValue: map<string, ValueStats>, kind: Kind,
                      ghost f: ((Kind, string)) -> Discrimination) returns (ds: seq<Discrimination>)
    requires Reads(byValue, e, f)
    ensures ds == Chosen(e, kind, f)
  {
    ds := [];
    if e.0 == kind {
      var d := byValue[ValueKey(e.0, e.1)].discrimination;
      if d != Inconclusive { ds := [d]; }
    }
  }

  /** The labels of the values of one type, the inconclusive ones dropped. */
  method ConclusiveLabels(entries: seq<(Kind, string)>, byValue: map<string, ValueStats>, kind: Kind,
                          ghost f: ((Kind, string)) -> Discrimination) returns (ds: seq<Discrimination>)
    requires forall i | 0 <= i < |entries| :: Reads(byValue, entries[i], f)
    ensures ds == Selected(entries, kind, f)
  {
    ds := [];
    for i := 0 to |entries|
      invariant ds == Selected(entries[..i], kind, f)
    {
      SelectedStep(entries, i, kind, f);
      var one := LabelOfEntry(entries[i], byValue, kind, f);
      ds := ds + one;
    }
    assert entries[..|entries|] == entries;
  }

  /** What the labels of types are computed from: the counts by type, and the assertions in the order
      met with their statistics, each with the label that `g` gives it. */
  ghost predicate Prepared(entries: seq<(Kind, string)>, byValue: map<string, ValueStats>,
      g: ((Kind, string)) -> Discrimination) {
    forall i | 0 <= i < |entries| :: Reads(byValue, entries[i], g)
  }

  /** The statistics of a type, labelled by the majority of its assertions. */
  function Labelled(counts: Tallied, entries: seq<(Kind, string)>, kind: Kind,
      g: ((Kind, string)) -> Discrimination): TypeStats {
    TypeStatsOf(counts, TypeDiscrimination(Selected(entries, kind, g)))
  }

  function LabelledIn(byType: map<Kind, Tallied>, entries: seq<(Kind, string)>,
      g: ((Kind, string)) -> Discrimination): Kind -> TypeStats {
    (k: Kind) => Labelled(if k in byType then byType[k] else Tallied(0, 0), entries, k, g)
  }

  method LabelType(counts: Tallied, kind: Kind, entries: seq<(Kind, string)>, byValue: map<string, ValueStats>,
                   ghost g: ((Kind, string)) -> Discrimination) returns (r: TypeStats)
    requires Prepared(entries, byValue, g)
    ensures r == Labelled(counts, entries, kind, g)
  {
    var ds := ConclusiveLabels(entries, byValue, kind, g);
    var d := DiscriminationOfType(ds);
    r := TypeStatsOf(counts, d);
  }

  lemma TableStep<K, V>(all: set<K>, todo: set<K>, k: K, f: K -> V)
    requires k in todo && todo <= all
    ensures Table(all - (todo - {k}), f) == Table(all - todo, f)[k := f(k)]
  {
    assert all - (todo - {k}) == (all - todo) + {k};
  }

  lemma WholeTable<K, V>(all: set<K>, f: K -> V)
    ensures Table(all - {}, f) == Table(all, f) && Table(all - all, f) == map[]
  {
    assert all - {} == all && all - all == {};
  }

  method ApplyToEach(byType: map<Kind, Tallied>, entries: seq<(Kind, string)>, byValue: map<string, ValueStats>,
                     ghost g: ((Kind, string)) -> Discrimination) returns (r: map<Kind, TypeStats>)
    requires Prepared(entries, byValue, g)
    ensures r == Table(byType.Keys, LabelledIn(byType, entries, g))
  {
    r := map[];
    var todo := byType.Keys;
    ghost var all, f := byType.Keys, LabelledIn(byType, entries, g);
    WholeTable(all, f);
    while todo != {}
      invariant todo <= all && r == Table(all - todo, f)
      decreases |todo|
    {
      var kind :| kind in todo;
      var s := LabelType(byType[kind], kind, entries, byValue, g);
      TableStep(all, todo, kind, f);
      r := r[kind := s];
      todo := todo - {kind};
    }
  }

  method ApplyDiscriminationToTypeStats(
      byType: map<Kind, Tallied>, entries: seq<(Kind, string)>, byValue: map<string, ValueStats>,
      ghost runs: seq<EvalRun>) returns (r: map<Kind, TypeStats>)
    requires byType == TypeTable(AllChecks(runs)) && entries == ValueEntries(runs) && byValue == ByValue(runs)
    ensures r == ByType(runs)
  {
    EntriesHaveStats(runs);
    r := ApplyToEach(byType, entries, byValue, DiscriminationOf(runs));
    LabelledTypes(runs);
  }

  lemma LabelledTypes(runs: seq<EvalRun>)
    ensures var m := TypeTable(AllChecks(runs));
            Table(m.Keys, LabelledIn(m, ValueEntries(runs), DiscriminationOf(runs))) == ByType(runs)
  {
    var m := TypeTable(AllChecks(runs));
    var f := LabelledIn(m, ValueEntries(runs), DiscriminationOf(runs));
    assert m.Keys == KeysOf(AllChecks(runs), KindOf());
    forall k <- m.Keys ensures f(k) == TypeStatsFor(runs)(k) {
      assert Selected(ValueEntries(runs), k, DiscriminationOf(runs)) == Conclusive(runs, k);
    }
    SameTable(m.Keys, f, TypeStatsFor(runs));
  }

  lemma EntriesHaveStats(runs: seq<EvalRun>)
    ensures Prepared(ValueEntries(runs), ByValue(runs), DiscriminationOf(runs))
  {
    AllRunsCounted(runs);
    var met := Flatten(runs, BothChecksOf());
    forall i | 0 <= i < |ValueEntries(runs)|
      ensures Reads(ByValue(runs), ValueEntries(runs)[i], DiscriminationOf(runs))
    {
      var e := ValueEntries(runs)[i];
      assert e in Keys(met, KindValue());
      MetByKey(met, Check(e.0, e.1, true));
    }
  }

  // --------------------------------------------------------------------- iterations

  /** The smallest key of a non-empty table. */
  method Smallest(keys: set<nat>) returns (m: nat)
    requires keys != {}
    ensures m == Least(keys)
  {
    m :| m in keys;
    var rest := keys - {m};
    while rest != {}
      invariant m in keys && rest <= keys
      invariant forall k <- keys :: k in rest || m <= k
      decreases |rest|
    {
      var k :| k in rest;
      if k < m { m := k; }
      rest := rest - {k};
    }
  }

  method SortedKeys(keys: set<nat>) returns (ks: seq<nat>)
    ensures ks == Sorted(keys)
  {
    ks := [];
    var rest := keys;
    while rest != {}
      invariant Sorted(keys) == ks + Sorted(rest)
      decreases |rest|
    {
      var m := Smallest(rest);
      SortedStep(ks, rest);
      ks, rest := ks + [m], rest - {m};
    }
  }

  lemma SortedStep(ks: seq<nat>, s: set<nat>)
    requires s != {}
    ensures ks + Sorted(s) == ks + [Least(s)] + Sorted(s - {Least(s)})
  {
    Reassociate(ks, Least(s), Sorted(s - {Least(s)}));
  }

  method GroupByIteration(iteratedRuns: seq<EvalRun>) returns (byIteration: map<nat, seq<EvalRun>>)
    requires forall r <- iteratedRuns :: r.iteration.Some?
    ensures byIteration == Groups(iteratedRuns, IterationOf())
  {
    byIteration := map[];
    for i := 0 to |iteratedRuns|
      invariant byIteration == Groups(iteratedRuns[..i], IterationOf())
    {
      assert iteratedRuns[i] in iteratedRuns;
      byIteration := Append(byIteration, iteratedRuns[i].iteration.value, iteratedRuns[i]);
      GroupStepAt(iteratedRuns, i, IterationOf());
    }
    assert iteratedRuns[..|iteratedRuns|] == iteratedRuns;
  }

  method CalculateIterationStats(runs: seq<EvalRun>) returns (results: seq<IterationStats>)
    ensures results == Benchmark.CalculateIterationStats(runs)
  {
    var iteratedRuns := Filter(runs, HasIteration());
    var byIteration := GroupByIteration(iteratedRuns);
    assert byIteration.Keys == Iterations(runs);
    assert forall k <- byIteration :: byIteration[k] == RunsOfIteration(runs, k);
    results := InOrder(byIteration, runs);
  }

  method InOrder(byIteration: map<nat, seq<EvalRun>>, ghost runs: seq<EvalRun>) returns (results: seq<IterationStats>)
    requires forall k <- byIteration :: byIteration[k] == RunsOfIteration(runs, k)
    ensures results == IterationChain(runs, Sorted(byIteration.Keys), None)
  {
    var iterations := SortedKeys(byIteration.Keys);
    results := Chained(iterations, byIteration, runs);
  }

  lemma ChainStep(runs: seq<EvalRun>, ks: seq<nat>, i: nat, prev: Option<IterationStats>)
    requires i < |ks|
    ensures var s := IterationStatsOf(ks[i], RunsOfIteration(runs, ks[i]), prev);
            IterationChain(runs, ks[i..], prev) == [s] + IterationChain(runs, ks[i + 1..], Some(s))
  {
    assert ks[i..][0] == ks[i] && ks[i..][1..] == ks[i + 1..];
  }

  lemma Reassociate<T>(a: seq<T>, x: T, b: seq<T>)
    ensures a + ([x] + b) == a + [x] + b
  {
  }

  method Chained(iterations: seq<nat>, byIteration: map<nat, seq<EvalRun>>, ghost runs: seq<EvalRun>)
      returns (results: seq<IterationStats>)
    requires forall k <- iterations :: k in byIteration && byIteration[k] == RunsOfIteration(runs, k)
    ensures results == IterationChain(runs, iterations, None)
  {
    results := [];
    ghost var last: Option<IterationStats> := None;
    for i := 0 to |iterations|
      invariant |results| == i && last == if i == 0 then None else Some(results[i - 1])
      invariant IterationChain(runs, iterations, None) == results + IterationChain(runs, iterations[i..], last)
    {
      var k := iterations[i];
      var prev := if i == 0 then None else Some(results[i - 1]);
      var s := IterationStatsOf(k, byIteration[k], prev);
      ChainStep(runs, iterations, i, last);
      Reassociate(results, s, IterationChain(runs, iterations[i + 1..], Some(s)));
      results, last := results + [s], Some(s);
    }
  }

  // -------------------------------------------------------------------- the whole benchmark

  method ComputeBenchmark(evalRuns: seq<EvalRun>, version: Option<nat>) returns (r: EvalBenchmark)
    ensures r == Benchmark.ComputeBenchmark(evalRuns, version)
  {
    var completedStatusRuns := Filter(evalRuns, IsCompleted());
    var scopedStatusRuns := if version.Some? then Filter(completedStatusRuns, HasVersion(version.value))
        else completedStatusRuns;
    var allCompletedRuns := Filter(completedStatusRuns, IsGraded());
    var completedRuns := Filter(scopedStatusRuns, IsGraded());
    if completedRuns == [] { return EMPTY_BENCHMARK; }
    r := Summarise(completedRuns, if version.Some? then completedRuns else allCompletedRuns);
  }

  method Summarise(runs: seq<EvalRun>, timeline: seq<EvalRun>) returns (r: EvalBenchmark)
    requires runs != []
    ensures r == Benchmark.Summarise(runs, timeline)
  {
    var byType := CalculateAssertionStats(runs);
    var byCase := CalculateEvalCaseStats(runs);
    var withSkill := CalculateConfigStats(runs, false);
    var runsWithBaseline := Filter(runs, HasBaseline());
    var baseline := if runsWithBaseline != [] then Some(CalculateConfigStats(runsWithBaseline, true)) else None;
    var delta := if baseline.Some? then Some(CalculateDelta(withSkill, baseline.value)) else None;
    var entries, byValue := CalculateAssertionValueStats(runs);
    var labelled := ApplyDiscriminationToTypeStats(byType, entries, byValue, runs);
    var byIteration := CalculateIterationStats(timeline);
    r := EvalBenchmark(
      |runs|, Rate(Count(runs, IsPass()), |runs|), Round2(Mean(runs, ScoreOf(false))),
      Round(Mean(runs, DurationOf(false))), Round(Mean(runs, TokensOf(false))),
      labelled, byCase, byValue, Some(withSkill), baseline, delta, byIteration);
  }
}
