/** Grading one run against its assertions (packages/backend/src/eval/grading.service.ts): split by
    type, evaluate each group, merge by index. The regular-expression engine and the model's reply
    are parameters. */
module Grading {
  import opened Common
  import opened Tally
  import Text

  datatype Kind = Contains | NotContains | Regex | Semantic | Custom
  datatype Assertion = Assertion(kind: Kind, value: string)
  datatype Overall = Pass | Fail | Partial

  datatype Evidence =
    | FoundIt | Absent | PatternTooLong | Catastrophic | Matched | NotMatched | InvalidPattern
    | GradingFailed | Stated(text: string) | NoneProvided

  datatype AssertionResult = AssertionResult(assertion: Assertion, passed: bool, evidence: Evidence,
      confidence: Option<real>)

  /** `matches` is `None` for a pattern the engine rejects. */
  datatype Engine = Engine(catastrophic: string -> bool, matches: (string, string) -> Option<bool>)

  /** One entry of the model's reply; a field it left out is `None`. */
  datatype Verdict = Verdict(passed: Option<bool>, evidence: Option<string>, confidence: Option<real>)

  /** `Failure` stands for an API error, a timeout or an unreadable reply. */
  datatype Reply = Verdicts(list: seq<Verdict>) | Failure

  datatype EvalGrading = EvalGrading(overall: Overall, score: int, results: seq<AssertionResult>, gradingError: bool)

  // ---------------------------------------------------------------- deterministic types

  const MAX_REGEX_LENGTH: nat := 200
  const MAX_OUTPUT: nat := 50000

  function Lower(s: string): string { seq(|s|, i requires 0 <= i < |s| => Text.LowerAscii(s[i])) }

  predicate Includes(output: string, value: string) {
    exists i | 0 <= i <= |output| :: Text.At(Lower(output), Lower(value), i)
  }

  predicate IsDeterministic(a: Assertion) { a.kind == Contains || a.kind == NotContains || a.kind == Regex }

  function Deterministic(a: Assertion, passed: bool, evidence: Evidence): AssertionResult {
    AssertionResult(a, passed, evidence, Some(1.0))
  }

  function EvaluateRegex(engine: Engine, output: string, a: Assertion): AssertionResult {
    if |a.value| > MAX_REGEX_LENGTH then Deterministic(a, false, PatternTooLong)
    else if engine.catastrophic(a.value) then Deterministic(a, false, Catastrophic)
    else
      match engine.matches(a.value, if |output| > MAX_OUTPUT then output[..MAX_OUTPUT] else output)
      case None => Deterministic(a, false, InvalidPattern)
      case Some(true) => Deterministic(a, true, Matched)
      case Some(false) => Deterministic(a, false, NotMatched)
  }

  function EvaluateDeterministicAssertion(engine: Engine, output: string, a: Assertion): AssertionResult
    requires IsDeterministic(a)
  {
    match a.kind
    case Contains =>
      if Includes(output, a.value) then Deterministic(a, true, FoundIt) else Deterministic(a, false, Absent)
    case NotContains =>
      if !Includes(output, a.value) then Deterministic(a, true, Absent) else Deterministic(a, false, FoundIt)
    case Regex => EvaluateRegex(engine, output, a)
  }

  // --------------------------------------------------------------------- model results

  /** What the k-th model-graded assertion gets: the k-th verdict, or a failure where there is none. */
  function FromReply(reply: Reply, k: nat, a: Assertion): AssertionResult {
    if reply.Failure? then AssertionResult(a, false, GradingFailed, None)
    else if k >= |reply.list| then AssertionResult(a, false, NoneProvided, None)
    else
      var v := reply.list[k];
      AssertionResult(a, v.passed == Some(true), if v.evidence.Some? then Stated(v.evidence.value)
          else NoneProvided, v.confidence)
  }

  // -------------------------------------------------------------------- the specification

  datatype Entry = Entry(index: nat, assertion: Assertion)

  /** The entries of one group among the first `k` assertions. */
  function Entries(assertions: seq<Assertion>, k: nat, local: bool): seq<Entry>
    requires k <= |assertions|
  {
    if k == 0 then []
    else
      Entries(assertions, k - 1, local)
      + if IsDeterministic(assertions[k - 1]) == local then [Entry(k - 1, assertions[k - 1])] else []
  }

  /** How many assertions of the same group come before assertion `i`. */
  function Rank(assertions: seq<Assertion>, i: nat): nat
    requires i < |assertions|
  {
    |Entries(assertions, i, IsDeterministic(assertions[i]))|
  }

  /** The grade of assertion `i` on its own. */
  function GradeAt(engine: Engine, output: string, reply: Reply, assertions: seq<Assertion>, i: nat): AssertionResult
    requires i < |assertions|
  {
    if IsDeterministic(assertions[i]) then EvaluateDeterministicAssertion(engine, output, assertions[i])
    else FromReply(reply, Rank(assertions, i), assertions[i])
  }

  function Pointwise(engine: Engine, output: string, reply: Reply, assertions: seq<Assertion>): seq<AssertionResult> {
    seq(|assertions|, i requires 0 <= i < |assertions| => GradeAt(engine, output, reply, assertions, i))
  }

  function HasPassed(): AssertionResult -> bool { (r: AssertionResult) => r.passed }

  /** Math.round of the percentage: half rounds up. */
  function Score(passed: nat, total: nat): int
    requires total > 0
  {
    (passed as real / total as real * 100.0 + 0.5).Floor
  }

  function ComputeOverallGrading(results: seq<AssertionResult>): (Overall, int) {
    var total, passed := |results|, Count(results, HasPassed());
    if total == 0 then (Pass, 100)
    else (if passed == total then Pass else if passed == 0 then Fail else Partial, Score(passed, total))
  }

  // ------------------------------------------------------------------- split and merge

  lemma {:induction false} EntriesPrefix(assertions: seq<Assertion>, i: nat, k: nat, local: bool)
    requires i <= k <= |assertions|
    ensures Entries(assertions, i, local) <= Entries(assertions, k, local)
    decreases k
  {
    if i < k { EntriesPrefix(assertions, i, k - 1, local); }
  }

  /** Assertion `i` is the entry at its rank in its group. */
  lemma EntryOfIndex(assertions: seq<Assertion>, i: nat, k: nat)
    requires i < k <= |assertions|
    ensures var es := Entries(assertions, k, IsDeterministic(assertions[i]));
            Rank(assertions, i) < |es| && es[Rank(assertions, i)] == Entry(i, assertions[i])
  {
    EntriesPrefix(assertions, i + 1, k, IsDeterministic(assertions[i]));
  }

  lemma {:induction false} EntryIsIndex(assertions: seq<Assertion>, k: nat, local: bool, j: nat)
    requires k <= |assertions| && j < |Entries(assertions, k, local)|
    ensures var e := Entries(assertions, k, local)[j];
            e.index < k && e.assertion == assertions[e.index] && IsDeterministic(e.assertion) == local
                && Rank(assertions, e.index) == j
  {
    if j < |Entries(assertions, k - 1, local)| { EntryIsIndex(assertions, k - 1, local, j); }
  }

  method Split(assertions: seq<Assertion>) returns (deterministicEntries: seq<Entry>, llmEntries: seq<Entry>)
    ensures deterministicEntries == Entries(assertions, |assertions|, true)
    ensures llmEntries == Entries(assertions, |assertions|, false)
  {
    deterministicEntries, llmEntries := [], [];
    for i := 0 to |assertions|
      invariant deterministicEntries == Entries(assertions, i, true)
      invariant llmEntries == Entries(assertions, i, false)
    {
      if IsDeterministic(assertions[i]) {
        deterministicEntries := deterministicEntries + [Entry(i, assertions[i])];
      } else {
        llmEntries := llmEntries + [Entry(i, assertions[i])];
      }
    }
  }

  /** Write one group's results at their original indices. */
  method Place(merged: array<Option<AssertionResult>>, entries: seq<Entry>, results: seq<AssertionResult>,
               ghost assertions: seq<Assertion>, local: bool)
    requires merged.Length == |assertions| && entries == Entries(assertions, |assertions|, local)
        && |results| == |entries|
    modifies merged
    ensures forall i | 0 <= i < merged.Length && IsDeterministic(assertions[i]) != local :: merged[i] == old(merged[i])
    ensures forall i | 0 <= i < merged.Length && IsDeterministic(assertions[i]) == local ::
              Rank(assertions, i) < |results| && merged[i] == Some(results[Rank(assertions, i)])
  {
    for j := 0 to |entries|
      invariant forall i | 0 <= i < merged.Length && IsDeterministic(assertions[i]) != local ::
                  merged[i] == old(merged[i])
      invariant forall i
                  | 0 <= i < merged.Length && IsDeterministic(assertions[i]) == local && Rank(assertions, i) < j ::
                  merged[i] == Some(results[Rank(assertions, i)])
    {
      EntryIsIndex(assertions, |assertions|, local, j);
      merged[entries[j].index] := Some(results[j]);
      forall i | 0 <= i < merged.Length && IsDeterministic(assertions[i]) == local && Rank(assertions, i) == j
        ensures i == entries[j].index
      {
        EntryOfIndex(assertions, i, |assertions|);
      }
    }
    forall i | 0 <= i < merged.Length && IsDeterministic(assertions[i]) == local
      ensures Rank(assertions, i) < |results|
    {
      EntryOfIndex(assertions, i, |assertions|);
    }
  }

  function LocalResults(engine: Engine, output: string, entries: seq<Entry>): seq<AssertionResult>
    requires forall e <- entries :: IsDeterministic(e.assertion)
  {
    seq(|entries|, j requires 0 <= j < |entries| =>
        EvaluateDeterministicAssertion(engine, output, entries[j].assertion))
  }

  function LlmResults(reply: Reply, entries: seq<Entry>): seq<AssertionResult> {
    seq(|entries|, j requires 0 <= j < |entries| => FromReply(reply, j, entries[j].assertion))
  }

  /** Both groups are placed: slot i holds what assertion i gets on its own. */
  method Merge(engine: Engine, output: string, reply: Reply, assertions: seq<Assertion>)
      returns (results: seq<AssertionResult>)
    ensures results == Pointwise(engine, output, reply, assertions)
  {
    var deterministicEntries, llmEntries := Split(assertions);
    forall e <- deterministicEntries ensures IsDeterministic(e.assertion) {
      var j :| 0 <= j < |deterministicEntries| && deterministicEntries[j] == e;
      EntryIsIndex(assertions, |assertions|, true, j);
    }
    var localResults := LocalResults(engine, output, deterministicEntries);
    var llmResults := LlmResults(reply, llmEntries);
    var merged := new Option<AssertionResult>[|assertions|](_ => None);
    Place(merged, deterministicEntries, localResults, assertions, true);
    Place(merged, llmEntries, llmResults, assertions, false);
    forall i | 0 <= i < merged.Length ensures merged[i] == Some(GradeAt(engine, output, reply, assertions, i)) {
      EntryOfIndex(assertions, i, |assertions|);
    }
    results := seq(|assertions|,
      i requires 0 <= i < |assertions| && i < merged.Length && merged[i].Some? reads merged => merged[i].value);
  }

  method GradeRun(engine: Engine, output: string, reply: Reply, assertions: seq<Assertion>) returns (g: EvalGrading)
    ensures g.results == Pointwise(engine, output, reply, assertions)
    ensures (g.overall, g.score) == ComputeOverallGrading(g.results)
    ensures g.gradingError <==> reply.Failure? && exists a <- assertions :: !IsDeterministic(a)
  {
    if |assertions| == 0 { return EvalGrading(Pass, 100, [], false); }
    var results := Merge(engine, output, reply, assertions);
    var graded := ComputeOverallGrading(results);
    g := EvalGrading(graded.0, graded.1, results, reply.Failure? && exists a <- assertions :: !IsDeterministic(a));
  }

  // ---------------------------------------------------------------------- what it means

  /** Every slot carries its own assertion; a deterministic slot ignores the reply, a model slot
      ignores the output; the verdicts are used in order, each at most once. */
  lemma SlotsAreIndependent(engine: Engine, output: string, output': string, reply: Reply, reply': Reply,
      assertions: seq<Assertion>, i: nat)
    requires i < |assertions|
    ensures Pointwise(engine, output, reply, assertions)[i].assertion == assertions[i]
    ensures IsDeterministic(assertions[i]) ==>
              Pointwise(engine, output, reply, assertions)[i] == Pointwise(engine, output, reply', assertions)[i]
    ensures !IsDeterministic(assertions[i]) ==>
              Pointwise(engine, output, reply, assertions)[i] == Pointwise(engine, output', reply, assertions)[i]
  {
  }

  lemma RanksAreDistinct(assertions: seq<Assertion>, i: nat, j: nat)
    requires i < j < |assertions| && IsDeterministic(assertions[i]) == IsDeterministic(assertions[j])
    ensures Rank(assertions, i) < Rank(assertions, j)
  {
    EntryOfIndex(assertions, i, j);
  }

  /** A reply shorter than the model-graded assertions, or none at all, fails the ones it misses. */
  lemma MissingVerdictsFail(engine: Engine, output: string, reply: Reply, assertions: seq<Assertion>, i: nat)
    requires i < |assertions| && !IsDeterministic(assertions[i])
    requires reply.Failure? || Rank(assertions, i) >= |reply.list|
        || reply.list[Rank(assertions, i)].passed != Some(true)
    ensures !Pointwise(engine, output, reply, assertions)[i].passed
  {
  }

  // -------------------------------------------------------------- deterministic verdicts

  lemma LowerTwice(s: string)
    ensures Lower(Lower(s)) == Lower(s)
  {
  }

  lemma SplitAround(o: string, pre: string, v: string, post: string)
    requires o == pre + v + post
    ensures Text.At(o, v, |pre|)
  {
    assert o[|pre|..|pre| + |v|] == v;
  }

  lemma SplitAt(o: string, v: string, i: nat)
    requires Text.At(o, v, i)
    ensures o == o[..i] + v + o[i + |v|..]
  {
  }

  /** A substring test by position and one by splitting the text say the same. */
  lemma OccursWhere(o: string, v: string)
    ensures (exists i | 0 <= i <= |o| :: Text.At(o, v, i)) <==> (exists pre, post :: o == pre + v + post)
  {
    if pre, post :| o == pre + v + post {
      SplitAround(o, pre, v, post);
    }
    if i :| 0 <= i <= |o| && Text.At(o, v, i) {
      SplitAt(o, v, i);
    }
  }

  /** `contains` and `not_contains` are opposites, and neither sees the case of the output or the value. */
  lemma ContainmentMeans(engine: Engine, output: string, value: string)
    ensures EvaluateDeterministicAssertion(engine, output, Assertion(Contains, value)).passed
       <==> !EvaluateDeterministicAssertion(engine, output, Assertion(NotContains, value)).passed
    ensures EvaluateDeterministicAssertion(engine, output, Assertion(Contains, value)).passed
       <==> EvaluateDeterministicAssertion(engine, Lower(output), Assertion(Contains, Lower(value))).passed
    ensures EvaluateDeterministicAssertion(engine, output, Assertion(Contains, value)).passed
       <==> exists pre, post :: Lower(output) == pre + Lower(value) + post
  {
    LowerTwice(output);
    LowerTwice(value);
    OccursWhere(Lower(output), Lower(value));
  }

  /** A pattern passes exactly when it is short enough, not catastrophic, valid, and matches the first
      50,000 characters of the output. */
  lemma RegexMeans(engine: Engine, output: string, value: string)
    ensures EvaluateDeterministicAssertion(engine, output, Assertion(Regex, value)).passed
       <==> (&& |value| <= 200 && !engine.catastrophic(value)
             && engine.matches(value, if |output| <= 50000 then output else output[..50000]) == Some(true))
  {
    assert |output| == 50000 ==> output[..50000] == output;
  }

  // -------------------------------------------------------------------------- the score

  /** The rounded percentage in whole numbers. */
  lemma ScoreIsQuotient(p: nat, n: nat)
    requires n > 0 && p <= n
    ensures Score(p, n) == (200 * p + n) / (2 * n)
  {
    var q := (200 * p + n) / (2 * n);
    var r := (200 * p + n) % (2 * n);
    assert 200 * p + n == q * (2 * n) + r;
    var x := p as real / n as real;
    assert x * n as real == p as real;
    var y := x * 100.0 + 0.5;
    assert y * (2 * n) as real == (200 * p + n) as real by {
      assert y * (2.0 * n as real) == 200.0 * (x * n as real) + n as real;
    }
    FloorOfQuotient(y, 2 * n, q, r);
  }

  lemma FloorOfQuotient(y: real, d: nat, q: int, r: nat)
    requires d > 0 && r < d && y * d as real == (q * d + r) as real
    ensures y.Floor == q
  {
    WithinOne(y, q as real, d as real, r as real);
  }

  lemma WithinOne(y: real, q: real, e: real, r: real)
    requires e > 0.0 && 0.0 <= r < e && y * e == q * e + r
    ensures q <= y < q + 1.0
  {
    Difference(y, q, e);
    Fraction(y - q, e, r);
  }

  lemma Difference(y: real, q: real, e: real)
    ensures (y - q) * e == y * e - q * e
  {
  }

  lemma Fraction(u: real, e: real, r: real)
    requires e > 0.0 && 0.0 <= r < e && u * e == r
    ensures 0.0 <= u < 1.0
  {
    if u < 0.0 { NegativeTimes(u, e); }
    if u >= 1.0 { AtLeastOnce(u, e); }
  }

  lemma NegativeTimes(u: real, e: real)
    requires u < 0.0 && e > 0.0
    ensures u * e < 0.0
  {
  }

  lemma AtLeastOnce(u: real, e: real)
    requires u >= 1.0 && e > 0.0
    ensures u * e >= e
  {
    Difference(u, 1.0, e);
    if u > 1.0 { NegativeTimes(1.0 - u, e); Difference(1.0, u, e); }
  }

  lemma ScoreBounds(p: nat, n: nat)
    requires n > 0 && p <= n
    ensures 0 <= Score(p, n) <= 100
    ensures Score(p, n) == 100 <==> 200 * (n - p) <= n
    ensures Score(p, n) == 0 <==> 200 * p < n
  {
    ScoreIsQuotient(p, n);
    var q, r := (200 * p + n) / (2 * n), (200 * p + n) % (2 * n);
    assert 200 * p + n == q * (2 * n) + r;
    QuotientAt(q, r, 2 * n, 200 * p + n, 100);
    QuotientAt(q, r, 2 * n, 200 * p + n, 0);
  }

  /** Where a quotient stands with respect to a number. */
  lemma QuotientAt(q: int, r: nat, d: nat, x: nat, c: nat)
    requires d > 0 && r < d && x == q * d + r
    ensures q >= c <==> x >= c * d
    ensures q <= c <==> x < (c + 1) * d
  {
    if q >= c { assert q * d >= c * d; } else { assert q * d <= (c - 1) * d; }
    if q <= c { assert q * d <= c * d; } else { assert q * d >= (c + 1) * d; }
  }

  lemma CountPassed(results: seq<AssertionResult>)
    ensures Count(results, HasPassed()) == |results| <==> forall r <- results :: r.passed
    ensures Count(results, HasPassed()) == 0 <==> forall r <- results :: !r.passed
  {
    if results != [] {
      CountPassed(results[1..]);
      assert forall r :: r in results <==> r == results[0] || r in results[1..];
    }
  }

  /** The assessment says exactly whether all, none or some of the assertions passed. */
  lemma OverallMeans(results: seq<AssertionResult>)
    ensures var g := ComputeOverallGrading(results);
            && 0 <= g.1 <= 100
            && (g.0 == Pass <==> forall r <- results :: r.passed)
            && (g.0 == Fail <==> results != [] && forall r <- results :: !r.passed)
  {
    CountPassed(results);
    if results != [] { ScoreBounds(Count(results, HasPassed()), |results|); }
  }

  /** Score 100 tells `pass` exactly below 200 assertions: from there on one failure rounds away. */
  lemma HundredMeansPassExactly(n: nat)
    requires n > 0
    ensures (forall p: nat | p <= n :: Score(p, n) == 100 <==> p == n) <==> n < 200
  {
    forall p: nat | p <= n ensures Score(p, n) == 100 <==> 200 * (n - p) <= n { ScoreBounds(p, n); }
    if n >= 200 { assert Score(n - 1, n) == 100; }
  }

  /** Score 0 tells `fail` exactly up to 200 assertions. */
  lemma ZeroMeansFailExactly(n: nat)
    requires n > 0
    ensures (forall p: nat | p <= n :: Score(p, n) == 0 <==> p == 0) <==> n <= 200
  {
    forall p: nat | p <= n ensures Score(p, n) == 0 <==> 200 * p < n { ScoreBounds(p, n); }
    if n > 200 { assert Score(1, n) == 0; }
  }

  /** On graded runs: `pass` iff score 100 below 200 assertions, `fail` iff score 0 for 1 to 200. */
  lemma ScoreTellsOverall(results: seq<AssertionResult>)
    ensures var g := ComputeOverallGrading(results);
            && (|results| < 200 ==> (g.0 == Pass <==> g.1 == 100))
            && (1 <= |results| <= 200 ==> (g.0 == Fail <==> g.1 == 0))
  {
    if results != [] { ScoreBounds(Count(results, HasPassed()), |results|); }
  }
}
