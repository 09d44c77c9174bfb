/** Which eval cases a run executes, how often, and the order of the results of a batched run
    (packages/backend/src/eval/eval-execution.service.ts:94-171, common/utils/run-in-batches.ts). */
module EvalPlan {
  import opened Common
  import opened Tally

  datatype EvalCase = EvalCase(id: nat, createdAtVersion: Option<nat>)

  function Requested(ids: seq<nat>): EvalCase -> bool { (c: EvalCase) => ids == [] || c.id in ids }

  function ExistedAt(target: Option<nat>): EvalCase -> bool {
    (c: EvalCase) => target.None? || (if c.createdAtVersion.Some? then c.createdAtVersion.value else 1) <= target.value
  }

  /** `ids` empty stands for an absent or empty list of requested cases. */
  function Select(all: seq<EvalCase>, ids: seq<nat>, target: Option<nat>): seq<EvalCase> {
    Filter(Filter(all, Requested(ids)), ExistedAt(target))
  }

  /** A case is run if and only if it was requested, when cases were named at all, and existed at the
      target version, a case of unknown origin counting as version 1. */
  lemma SelectedCases(all: seq<EvalCase>, ids: seq<nat>, target: Option<nat>, c: EvalCase)
    ensures c in Select(all, ids, target)
       <==> c in all && (ids != [] ==> c.id in ids)
            && (target.Some? ==>
                  || (c.createdAtVersion.None? && 1 <= target.value)
                  || (c.createdAtVersion.Some? && c.createdAtVersion.value <= target.value))
  {
    var requested := Filter(all, Requested(ids));
    assert Requested(ids)(c) <==> (ids != [] ==> c.id in ids);
    assert c in Filter(requested, ExistedAt(target)) <==> c in requested && ExistedAt(target)(c);
  }

  function Repeated<T>(items: seq<T>, times: nat): seq<T> {
    if times == 0 then [] else Repeated(items, times - 1) + items
  }

  method Expand<T>(evalCases: seq<T>, runsPerCase: nat) returns (expandedCases: seq<T>)
    ensures expandedCases == Repeated(evalCases, runsPerCase)
  {
    expandedCases := [];
    for r := 0 to runsPerCase
      invariant expandedCases == Repeated(evalCases, r)
    {
      expandedCases := expandedCases + evalCases;
    }
  }

  /** Every case is scheduled `times` times for each time it is listed. */
  lemma {:induction false} RepeatedCount<T>(items: seq<T>, times: nat, x: T)
    ensures multiset(Repeated(items, times))[x] == times * multiset(items)[x]
  {
    if times > 0 {
      RepeatedCount(items, times - 1, x);
      assert multiset(Repeated(items, times)) == multiset(Repeated(items, times - 1)) + multiset(items);
      assert times * multiset(items)[x] == (times - 1) * multiset(items)[x] + multiset(items)[x];
    }
  }

  /** After r whole rounds, the next slots run the cases in order for the (r+1)-th time. */
  lemma {:induction false} RepeatedAt<T>(items: seq<T>, times: nat, r: nat, j: nat)
    requires r < times && j < |items|
    ensures |Repeated(items, r)| + j < |Repeated(items, times)|
    ensures Repeated(items, times)[|Repeated(items, r)| + j] == items[j]
    decreases times
  {
    if r < times - 1 { RepeatedAt(items, times - 1, r, j); }
  }

  /** A round has as many slots as there are cases. */
  lemma {:induction false} RepeatedLength<T>(items: seq<T>, times: nat)
    ensures |Repeated(items, times)| == times * |items|
  {
    if times > 0 {
      RepeatedLength(items, times - 1);
      assert times * |items| == (times - 1) * |items| + |items|;
    }
  }

  // -------------------------------------------------------------------- batched running

  /** The work of one item; its index is the absolute position. */
  function Applied<T, U>(items: seq<T>, work: (T, nat) -> U): seq<U> {
    seq(|items|, i requires 0 <= i < |items| => work(items[i], i))
  }

  /** `run-in-batches.ts` with the signal checked before each batch: `abortAt` is the number of
      batches after which the signal is found aborted, if ever. */
  method RunInBatches<T, U>(items: seq<T>, concurrency: int, work: (T, nat) -> U, abortAt: Option<nat>)
      returns (results: seq<U>)
    ensures var size := if concurrency < 1 then 1 else concurrency;
            var ran := if abortAt.Some? && abortAt.value * size < |items| then abortAt.value * size else |items|;
            results == Applied(items, work)[..ran]
  {
    var size := if concurrency < 1 then 1 else concurrency;
    results := [];
    var i, batch := 0, 0;
    while i < |items|
      invariant i == batch * size && (abortAt.Some? ==> batch <= abortAt.value)
      invariant results == Applied(items, work)[..if i < |items| then i else |items|]
      decreases |items| - i
    {
      if abortAt == Some(batch) { return; }
      var end := if i + size < |items| then i + size else |items|;
      results := results + seq(end - i, j requires 0 <= j < end - i => work(items[i + j], i + j));
      BatchStep(batch, size);
      i, batch := i + size, batch + 1;
    }
    if abortAt.Some? { Monotone(batch, abortAt.value, size); }
  }

  lemma BatchStep(batch: nat, size: nat)
    ensures (batch + 1) * size == batch * size + size
  {
  }

  lemma Monotone(a: nat, b: nat, size: nat)
    requires a <= b
    ensures a * size <= b * size
  {
  }
}
