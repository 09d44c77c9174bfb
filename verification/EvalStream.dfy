/** The event protocol of a streamed eval run (packages/backend/src/eval/eval-execution.service.ts:
    298-422): batches of three workers that finish in any order, and the events they emit. */
module EvalStream {
  import opened Common

  const CONCURRENCY: nat := 3

  datatype Event =
    | Started(index: nat, evalId: nat, total: nat)
    | Grading(index: nat)
    | Finished(index: nat, ok: bool)
    | RunComplete(totalRuns: nat, passed: nat, failed: nat)
    | RunError
    | Interrupted

  datatype Phase = Going | Done | Crashed

  /** Indices are 1-based. `lost` holds the workers that threw; `results` tells completed from failed. */
  datatype Server = Server(
    cases: seq<nat>, started: nat, inflight: set<nat>, results: map<nat, bool>, lost: set<nat>,
    aborted: bool, phase: Phase, log: seq<Event>)

  function Begin(cases: seq<nat>): Server { Server(cases, 0, {}, map[], {}, false, Going, []) }

  datatype Op = StartBatch | Complete(index: nat, ok: bool) | Throw(index: nat) | Abort | Conclude

  function BatchEnd(s: Server): nat {
    if s.started + CONCURRENCY < |s.cases| then s.started + CONCURRENCY else |s.cases|
  }

  function Indices(from: nat, end: nat): (r: set<nat>)
    ensures forall i :: i in r <==> from < i <= end
    decreases end
  {
    if end <= from then {} else Indices(from, end - 1) + {end}
  }

  /** A batch starts when the one before it has settled; a worker settles at any time; the loop ends
      when no case is left or the signal is found aborted between batches. */
  predicate Legal(s: Server, op: Op) {
    match op
    case StartBatch => s.phase == Going && s.inflight == {} && s.started < |s.cases| && !s.aborted
    case Complete(i, _) => i in s.inflight
    case Throw(i) => i in s.inflight
    case Abort => true
    case Conclude => s.phase == Going && s.inflight == {} && (s.started == |s.cases| || s.aborted)
  }

  function StartEvents(cases: seq<nat>, from: nat, end: nat): seq<Event>
    requires from <= end <= |cases|
    decreases end
  {
    if from == end then [] else StartEvents(cases, from, end - 1) + [Started(end, cases[end - 1], |cases|)]
  }

  function PassedOf(results: map<nat, bool>): set<nat> { set i | i in results && results[i] }

  function FailedOf(results: map<nat, bool>): set<nat> { set i | i in results && !results[i] }

  function Emitted(s: Server, op: Op): seq<Event> {
    match op
    case StartBatch => if s.started < |s.cases| then StartEvents(s.cases, s.started, BatchEnd(s)) else []
    case Complete(i, ok) => [Finished(i, ok)]
    case Throw(_) => if s.phase == Going && !s.aborted then [RunError] else []
    case Abort => []
    case Conclude => [RunComplete(|s.results|, |PassedOf(s.results)|, |FailedOf(s.results)|)]
  }

  /** A thrown worker ends the run at once; the other workers of its batch still settle later. */
  function Step(s: Server, op: Op): Server {
    var t := s.(log := s.log + Emitted(s, op));
    match op
    case StartBatch => t.(started := BatchEnd(s), inflight := Indices(s.started, BatchEnd(s)))
    case Complete(i, ok) => t.(inflight := s.inflight - {i}, results := s.results[i := ok])
    case Throw(i) => t.(inflight := s.inflight - {i}, lost := s.lost + {i}, phase := Crashed)
    case Abort => t.(aborted := true)
    case Conclude => t.(phase := Done)
  }

  predicate LegalRun(s: Server, ops: seq<Op>)
    decreases |ops|
  {
    ops == [] || (Legal(s, ops[0]) && LegalRun(Step(s, ops[0]), ops[1..]))
  }

  function Run(s: Server, ops: seq<Op>): Server
    decreases |ops|
  {
    if ops == [] then s else Run(Step(s, ops[0]), ops[1..])
  }

  // ----------------------------------------------------------------- reading the log

  function StartedOf(log: seq<Event>): seq<nat>
    decreases |log|
  {
    if log == [] then []
    else StartedOf(log[..|log| - 1]) + if log[|log| - 1].Started? then [log[|log| - 1].index] else []
  }

  function FinishedOf(log: seq<Event>): seq<nat>
    decreases |log|
  {
    if log == [] then []
    else FinishedOf(log[..|log| - 1]) + if log[|log| - 1].Finished? then [log[|log| - 1].index] else []
  }

  function UpTo(n: nat): seq<nat> { seq(n, i => i + 1) }

  /** Every completion comes after the start of the same index. */
  ghost predicate FinishAfterStart(log: seq<Event>) {
    forall p | 0 <= p < |log| && log[p].Finished? :: log[p].index in StartedOf(log[..p])
  }

  lemma ReadSnoc(log: seq<Event>, e: Event)
    ensures StartedOf(log + [e]) == StartedOf(log) + if e.Started? then [e.index] else []
    ensures FinishedOf(log + [e]) == FinishedOf(log) + if e.Finished? then [e.index] else []
  {
    assert (log + [e])[..|log|] == log;
  }

  lemma OrderSnoc(log: seq<Event>, e: Event)
    requires FinishAfterStart(log) && (e.Finished? ==> e.index in StartedOf(log))
    ensures FinishAfterStart(log + [e])
  {
    var l := log + [e];
    forall p | 0 <= p < |l| && l[p].Finished? ensures l[p].index in StartedOf(l[..p]) {
      assert p < |log| ==> l[..p] == log[..p];
      assert p == |log| ==> l[..p] == log;
    }
  }

  lemma StartsSnoc(log: seq<Event>, cases: seq<nat>, from: nat, end: nat)
    requires from < end <= |cases|
    ensures log + StartEvents(cases, from, end)
        == log + StartEvents(cases, from, end - 1) + [Started(end, cases[end - 1], |cases|)]
  {
  }

  lemma ReadOneStart(log: seq<Event>, index: nat, evalId: nat, total: nat)
    requires index > 0 && StartedOf(log) == UpTo(index - 1) && FinishAfterStart(log)
    ensures var l := log + [Started(index, evalId, total)];
            StartedOf(l) == UpTo(index)
            && FinishedOf(l) == FinishedOf(log) && FinishAfterStart(l)
  {
    ReadSnoc(log, Started(index, evalId, total));
    OrderSnoc(log, Started(index, evalId, total));
    assert UpTo(index - 1) + [index] == UpTo(index);
  }

  lemma {:induction false} ReadStarts(log: seq<Event>, cases: seq<nat>, from: nat, end: nat)
    requires from <= end <= |cases| && StartedOf(log) == UpTo(from) && FinishAfterStart(log)
    ensures StartedOf(log + StartEvents(cases, from, end)) == UpTo(end)
    ensures FinishedOf(log + StartEvents(cases, from, end)) == FinishedOf(log)
    ensures FinishAfterStart(log + StartEvents(cases, from, end))
    decreases end
  {
    if from == end {
      assert log + [] == log;
    } else {
      ReadStarts(log, cases, from, end - 1);
      ReadOneStart(log + StartEvents(cases, from, end - 1), end, cases[end - 1], |cases|);
      StartsSnoc(log, cases, from, end);
    }
  }

  // ----------------------------------------------------------------------- invariant

  ghost predicate LogInv(s: Server) {
    && StartedOf(s.log) == UpTo(s.started)
    && NoDuplicates(FinishedOf(s.log))
    && (forall i :: i in FinishedOf(s.log) <==> i in s.results)
    && FinishAfterStart(s.log)
  }

  /** The started indices are those in flight, those with a result and those lost, and only the
      last batch has any that have not completed. */
  ghost predicate Inv(s: Server) {
    && s.started <= |s.cases|
    && (s.started % CONCURRENCY == 0 || s.started == |s.cases|)
    && (forall i :: i in s.inflight || i in s.lost ==> i !in s.results)
    && s.inflight !! s.lost
    && (forall i :: i in s.inflight || i in s.lost || i in s.results <==> 0 < i <= s.started)
    && |s.inflight + s.lost| <= CONCURRENCY
    && (s.phase == Going ==> s.lost == {})
    && (s.phase == Done ==> s.inflight == {} && s.lost == {} && (s.started == |s.cases| || s.aborted))
    && LogInv(s)
  }

  lemma {:induction false} IndicesSize(from: nat, end: nat)
    requires from <= end
    ensures |Indices(from, end)| == end - from
    decreases end
  {
    if from < end {
      IndicesSize(from, end - 1);
      assert Indices(from, end) == Indices(from, end - 1) + {end};
    } else {
      assert Indices(from, end) == {};
    }
  }

  lemma StartBatchLog(s: Server)
    requires Inv(s) && Legal(s, StartBatch)
    ensures LogInv(Step(s, StartBatch))
  {
    ReadStarts(s.log, s.cases, s.started, BatchEnd(s));
  }

  lemma StartBatchKeeps(s: Server)
    requires Inv(s) && Legal(s, StartBatch)
    ensures Inv(Step(s, StartBatch))
  {
    var t, e := Step(s, StartBatch), BatchEnd(s);
    StartBatchLog(s);
    IndicesSize(s.started, e);
    assert t.inflight + t.lost == Indices(s.started, e);
  }

  lemma CompleteLog(s: Server, i: nat, ok: bool)
    requires LogInv(s) && 0 < i <= s.started && i !in s.results
    ensures LogInv(Step(s, Complete(i, ok)).(inflight := s.inflight))
  {
    var e := Finished(i, ok);
    ReadSnoc(s.log, e);
    assert UpTo(s.started)[i - 1] == i;
    OrderSnoc(s.log, e);
  }

  lemma CompleteKeeps(s: Server, i: nat, ok: bool)
    requires Inv(s) && i in s.inflight
    ensures Inv(Step(s, Complete(i, ok)))
  {
    CompleteLog(s, i, ok);
    assert (s.inflight - {i}) + s.lost == (s.inflight + s.lost) - {i};
  }

  lemma ThrowKeeps(s: Server, i: nat)
    requires Inv(s) && i in s.inflight
    ensures Inv(Step(s, Throw(i)))
  {
    assert (s.inflight - {i}) + (s.lost + {i}) == s.inflight + s.lost;
    SilentKeeps(s, Throw(i));
  }

  lemma SilentKeeps(s: Server, op: Op)
    requires LogInv(s) && !op.StartBatch? && !op.Complete?
    ensures LogInv(s.(log := s.log + Emitted(s, op)))
  {
    if Emitted(s, op) == [] {
      assert s.log + [] == s.log;
    } else {
      ReadSnoc(s.log, Emitted(s, op)[0]);
      OrderSnoc(s.log, Emitted(s, op)[0]);
    }
  }

  lemma StepKeeps(s: Server, op: Op)
    requires Inv(s) && Legal(s, op)
    ensures Inv(Step(s, op))
  {
    match op
    case StartBatch => StartBatchKeeps(s);
    case Complete(i, ok) => CompleteKeeps(s, i, ok);
    case Throw(i) => ThrowKeeps(s, i);
    case Abort => SilentKeeps(s, op);
    case Conclude => SilentKeeps(s, op);
  }

  lemma {:induction false} RunKeeps(s: Server, ops: seq<Op>)
    requires Inv(s) && LegalRun(s, ops)
    ensures Inv(Run(s, ops)) && Run(s, ops).cases == s.cases
    decreases |ops|
  {
    if ops != [] {
      StepKeeps(s, ops[0]);
      RunKeeps(Step(s, ops[0]), ops[1..]);
    }
  }

  /** Over every completion order: starts are 1, 2, ... k; at most three started indices are not
      completed; each index completes at most once and after its start. */
  lemma Protocol(cases: seq<nat>, ops: seq<Op>)
    requires LegalRun(Begin(cases), ops)
    ensures var s := Run(Begin(cases), ops);
            && StartedOf(s.log) == UpTo(s.started) && s.started <= |cases|
            && NoDuplicates(FinishedOf(s.log)) && FinishAfterStart(s.log)
            && s.started - |FinishedOf(s.log)| <= CONCURRENCY
  {
    assert UpTo(0) == [];
    RunKeeps(Begin(cases), ops);
    var s := Run(Begin(cases), ops);
    ResultsCounted(s);
  }

  function Members(q: seq<nat>): set<nat> { set i | i in q }

  lemma {:induction false} NoDuplicatesSize(q: seq<nat>)
    requires NoDuplicates(q)
    ensures |Members(q)| == |q|
  {
    if q != [] {
      NoDuplicatesSize(q[1..]);
      assert q[0] !in q[1..];
      assert Members(q) == {q[0]} + Members(q[1..]);
    }
  }

  lemma ResultsCounted(s: Server)
    requires Inv(s)
    ensures |FinishedOf(s.log)| == |s.results| && s.started == |s.results| + |s.inflight + s.lost|
  {
    NoDuplicatesSize(FinishedOf(s.log));
    assert Members(FinishedOf(s.log)) == s.results.Keys;
    IndicesSize(0, s.started);
    assert Indices(0, s.started) == s.results.Keys + (s.inflight + s.lost);
    assert s.results.Keys !! (s.inflight + s.lost);
  }

  lemma SplitResults(results: map<nat, bool>)
    ensures |PassedOf(results)| + |FailedOf(results)| == |results|
  {
    assert PassedOf(results) + FailedOf(results) == results.Keys;
    assert PassedOf(results) !! FailedOf(results);
  }

  lemma SilentAfterwards(s: Server)
    requires s.phase == Done && s.inflight == {}
    ensures forall op | Legal(s, op) :: Emitted(s, op) == []
  {
  }

  /** The summary of a run that concludes: passed plus failed is the number of runs, which is the
      number of cases unless the run was aborted; and no event follows it. */
  lemma SummaryAddsUp(cases: seq<nat>, ops: seq<Op>)
    requires LegalRun(Begin(cases), ops) && Legal(Run(Begin(cases), ops), Conclude)
    ensures var s := Run(Begin(cases), ops);
            var e := Emitted(s, Conclude)[0];
            && e.passed + e.failed == e.totalRuns == s.started
            && (!s.aborted ==> e.totalRuns == |cases|)
            && (forall op | Legal(Step(s, Conclude), op) :: Emitted(Step(s, Conclude), op) == [])
  {
    assert UpTo(0) == [];
    RunKeeps(Begin(cases), ops);
    var s := Run(Begin(cases), ops);
    SplitResults(s.results);
    ResultsCounted(s);
    assert s.inflight + s.lost == {};
    SilentAfterwards(Step(s, Conclude));
  }
}
