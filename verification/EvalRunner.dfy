/** The client of a streamed eval run (packages/frontend/src/hooks/useEvalRunner.ts:133-251): a
    reducer over the events, and what it shows for every order of completions. */
module EvalRunner {
  import opened EvalStream
  import EvalPlan

  datatype Status = Executing | BeingGraded | Completed | Failed
  datatype Entry = Entry(index: nat, evalId: nat, status: Status)

  /** `listening` is false once the hook has unsubscribed. */
  datatype View = View(listening: bool, running: bool, completed: nat, total: nat, entries: seq<Entry>, failed: bool)

  const START := View(true, true, 0, 0, [], false)

  // ------------------------------------------------------------------------ the reducer

  predicate Known(entries: seq<Entry>, index: nat) {
    exists e <- entries :: e.index == index
  }

  function Marked(entries: seq<Entry>, index: nat, status: Status): seq<Entry> {
    seq(|entries|, i requires 0 <= i < |entries| =>
      if entries[i].index == index then entries[i].(status := status) else entries[i])
  }

  function Reduce(v: View, ev: Event): View {
    if !v.listening then v
    else
      match ev
      case Started(index, evalId, total) =>
        v.(total := total,
           entries := if Known(v.entries, index) then Marked(v.entries, index, Executing)
                      else v.entries + [Entry(index, evalId, Executing)])
      case Grading(index) => v.(entries := Marked(v.entries, index, BeingGraded))
      case Finished(index, ok) =>
        v.(completed := v.completed + 1, entries := Marked(v.entries, index, if ok then Completed else Failed))
      case RunComplete(totalRuns, _, _) =>
        v.(running := false, completed := totalRuns, total := totalRuns, listening := false)
      case RunError => v.(failed := true, running := false, listening := false)
      case Interrupted => v.(failed := true, running := false, listening := false)
  }

  function Fold(v: View, log: seq<Event>): View
    decreases |log|
  {
    if log == [] then v else Reduce(Fold(v, log[..|log| - 1]), log[|log| - 1])
  }

  /** The cancel button: the hook unsubscribes and asks the server to stop. */
  function Cancelled(v: View): View { v.(listening := false, running := false) }

  ghost predicate UniqueEntries(v: View) {
    forall i, j | 0 <= i < j < |v.entries| :: v.entries[i].index != v.entries[j].index
  }

  /** Whatever is received, in whatever order and however often, entries stay unique by index. */
  lemma {:induction false} EntriesAlwaysUnique(v: View, log: seq<Event>)
    requires UniqueEntries(v)
    ensures UniqueEntries(Fold(v, log))
    decreases |log|
  {
    if log != [] {
      EntriesAlwaysUnique(v, log[..|log| - 1]);
      var w, e := Fold(v, log[..|log| - 1]), log[|log| - 1];
      assert e.Started? && !Known(w.entries, e.index)
          ==> forall i | 0 <= i < |w.entries| :: w.entries[i] in w.entries && w.entries[i].index != e.index;
    }
  }

  // ------------------------------------------------------- the reducer against the protocol

  function StatusIn(s: Server, index: nat): Status {
    if index !in s.results then Executing else if s.results[index] then Completed else Failed
  }

  function EntryOf(s: Server, i: nat): Entry
    requires i < |s.cases|
  {
    Entry(i + 1, s.cases[i], StatusIn(s, i + 1))
  }

  /** One entry per started index, in order, with the status the server recorded. */
  function Shown(s: Server): seq<Entry>
    requires s.started <= |s.cases|
  {
    seq(s.started, i requires 0 <= i < s.started => EntryOf(s, i))
  }

  predicate IsFinished(e: Entry) { e.status == Completed || e.status == Failed }

  function FinishedCount(entries: seq<Entry>): nat
    decreases |entries|
  {
    if entries == [] then 0
    else FinishedCount(entries[..|entries| - 1]) + if IsFinished(entries[|entries| - 1]) then 1 else 0
  }

  ghost predicate Consistent(v: View) {
    UniqueEntries(v) && v.completed == FinishedCount(v.entries)
  }

  /** A view that still listens shows the server's state; one that stopped keeps what it had. */
  ghost predicate Sync(s: Server, v: View) {
    && Inv(s)
    && Consistent(v)
    && (v.listening ==>
          && v.running && !v.failed && v.entries == Shown(s) && v.completed == |s.results|
          && v.total == (if s.started == 0 then 0 else |s.cases|)
          && s.phase != Done)
  }

  lemma {:induction false} CountBySet(entries: seq<Entry>, done: set<nat>)
    requires forall i | 0 <= i < |entries| :: IsFinished(entries[i]) <==> i + 1 in done
    requires forall i <- done :: 1 <= i <= |entries|
    ensures FinishedCount(entries) == |done|
    decreases |entries|
  {
    if entries == [] {
      assert done == {};
    } else {
      var n := |entries|;
      CountBySet(entries[..n - 1], done - {n});
      assert IsFinished(entries[n - 1]) <==> n in done;
    }
  }

  lemma ShownConsistent(s: Server)
    requires Inv(s)
    ensures FinishedCount(Shown(s)) == |s.results|
  {
    CountBySet(Shown(s), s.results.Keys);
  }

  lemma ShownUnique(s: Server, v: View)
    requires Inv(s) && v.entries == Shown(s) && v.completed == |s.results|
    ensures Consistent(v)
  {
    ShownConsistent(s);
  }

  lemma FoldAppend(v: View, a: seq<Event>, e: Event)
    ensures Fold(v, a + [e]) == Reduce(Fold(v, a), e)
  {
    assert (a + [e])[..|a|] == a;
  }

  function NewEntries(cases: seq<nat>, from: nat, end: nat): seq<Entry>
    requires from <= end <= |cases|
  {
    seq(end - from, i requires 0 <= i < end - from => Entry(from + i + 1, cases[from + i], Executing))
  }

  predicate Numbered(entries: seq<Entry>) { forall i | 0 <= i < |entries| :: entries[i].index == i + 1 }

  /** Receiving the start events of a batch appends one executing entry each. */
  lemma {:induction false} FoldStarts(v: View, cases: seq<nat>, from: nat, end: nat)
    requires from < end <= |cases| && v.listening && |v.entries| == from && Numbered(v.entries)
    ensures Fold(v, StartEvents(cases, from, end))
        == v.(total := |cases|, entries := v.entries + NewEntries(cases, from, end))
    decreases end
  {
    var before, e := StartEvents(cases, from, end - 1), Started(end, cases[end - 1], |cases|);
    FoldAppend(v, before, e);
    NewEntriesNext(v.entries, cases, from, end);
    if end - 1 == from {
      assert NewEntries(cases, from, from) == [] && v.entries + [] == v.entries;
      StartAppends(v, end, cases[end - 1], |cases|);
    } else {
      FoldStarts(v, cases, from, end - 1);
      StartAppends(v.(total := |cases|, entries := v.entries + NewEntries(cases, from, end - 1)), end, cases[end - 1],
          |cases|);
    }
  }

  lemma NewEntriesNext(entries: seq<Entry>, cases: seq<nat>, from: nat, end: nat)
    requires from < end <= |cases| && |entries| == from && Numbered(entries)
    ensures entries + NewEntries(cases, from, end)
        == entries + NewEntries(cases, from, end - 1) + [Entry(end, cases[end - 1], Executing)]
    ensures Numbered(entries + NewEntries(cases, from, end - 1))
  {
  }

  lemma StartAppends(w: View, index: nat, evalId: nat, n: nat)
    requires w.listening && index == |w.entries| + 1 && Numbered(w.entries)
    ensures Reduce(w, Started(index, evalId, n))
        == w.(total := n, entries := w.entries + [Entry(index, evalId, Executing)])
  {
    assert !Known(w.entries, index);
  }

  lemma ShownGrows(s: Server, t: Server)
    requires Inv(s) && t.cases == s.cases && t.results == s.results && s.started <= t.started <= |s.cases|
    ensures Shown(t) == Shown(s) + NewEntries(s.cases, s.started, t.started)
  {
    forall i | s.started <= i < t.started ensures EntryOf(t, i) == Entry(i + 1, s.cases[i], Executing) {
      assert i + 1 !in s.results;
    }
  }

  lemma StartBatchSync(s: Server, v: View)
    requires Sync(s, v) && Legal(s, StartBatch) && v.listening
    ensures Sync(Step(s, StartBatch), Fold(v, Emitted(s, StartBatch)))
  {
    StartBatchKeeps(s);
    var t, w := Step(s, StartBatch), Fold(v, Emitted(s, StartBatch));
    FoldStarts(v, s.cases, s.started, BatchEnd(s));
    ShownGrows(s, t);
    ShownUnique(t, w);
  }

  lemma OneEvent(v: View, e: Event)
    ensures Fold(v, [e]) == Reduce(v, e)
  {
    FoldAppend(v, [], e);
    assert [] + [e] == [e];
  }

  lemma MarkShown(s: Server, i: nat, ok: bool)
    requires s.started <= |s.cases|
    ensures Marked(Shown(s), i, if ok then Completed else Failed) == Shown(s.(results := s.results[i := ok]))
  {
  }

  lemma ShownOf(s: Server, t: Server)
    requires s.cases == t.cases && s.started == t.started <= |s.cases| && s.results == t.results
    ensures Shown(s) == Shown(t)
  {
  }

  lemma CompleteSync(s: Server, v: View, i: nat, ok: bool)
    requires Sync(s, v) && i in s.inflight && v.listening
    ensures Sync(Step(s, Complete(i, ok)), Fold(v, Emitted(s, Complete(i, ok))))
  {
    CompleteKeeps(s, i, ok);
    OneEvent(v, Finished(i, ok));
    var t, w := Step(s, Complete(i, ok)), Reduce(v, Finished(i, ok));
    MarkShown(s, i, ok);
    ShownOf(s.(results := s.results[i := ok]), t);
    ShownUnique(t, w);
  }

  lemma ConcludeSync(s: Server, v: View)
    requires Sync(s, v) && Legal(s, Conclude) && v.listening
    ensures Sync(Step(s, Conclude), Fold(v, Emitted(s, Conclude)))
  {
    StepKeeps(s, Conclude);
    OneEvent(v, Emitted(s, Conclude)[0]);
  }

  /** Losing a worker changes nothing that the client shows. */
  lemma ThrowShown(s: Server, i: nat)
    requires Inv(s) && i in s.inflight
    ensures Inv(Step(s, Throw(i))) && Shown(Step(s, Throw(i))) == Shown(s)
  {
    ThrowKeeps(s, i);
    ShownOf(s, Step(s, Throw(i)));
  }

  /** A client that stops keeps entries and counter as they are. */
  lemma StopsSync(s: Server, t: Server, v: View, w: View)
    requires Sync(s, v) && Inv(t) && w == v.(failed := w.failed, running := w.running, listening := false)
    ensures Sync(t, w)
  {
  }

  lemma ThrowReported(s: Server, v: View, i: nat)
    requires Sync(s, v) && i in s.inflight && v.listening && s.phase == Going && !s.aborted
    ensures Sync(Step(s, Throw(i)), Fold(v, Emitted(s, Throw(i))))
  {
    ThrowKeeps(s, i);
    OneEvent(v, RunError);
    StopsSync(s, Step(s, Throw(i)), v, Reduce(v, RunError));
  }

  lemma ThrowUnreported(s: Server, v: View, i: nat)
    requires Sync(s, v) && i in s.inflight && v.listening && !(s.phase == Going && !s.aborted)
    ensures Sync(Step(s, Throw(i)), Fold(v, Emitted(s, Throw(i))))
  {
    ThrowShown(s, i);
    NoEvent(v);
  }

  lemma ThrowSync(s: Server, v: View, i: nat)
    requires Sync(s, v) && i in s.inflight && v.listening
    ensures Sync(Step(s, Throw(i)), Fold(v, Emitted(s, Throw(i))))
  {
    if s.phase == Going && !s.aborted {
      ThrowReported(s, v, i);
    } else {
      ThrowUnreported(s, v, i);
    }
  }

  lemma NoEvent(v: View)
    ensures Fold(v, []) == v
  {
  }

  lemma {:induction false} DeafFold(v: View, log: seq<Event>)
    requires !v.listening
    ensures Fold(v, log) == v
    decreases |log|
  {
    if log != [] { DeafFold(v, log[..|log| - 1]); }
  }

  lemma AbortSync(s: Server, v: View)
    requires Sync(s, v)
    ensures Sync(Step(s, Abort), Fold(v, Emitted(s, Abort)))
  {
    StepKeeps(s, Abort);
    ShownOf(s, Step(s, Abort));
    NoEvent(v);
  }

  lemma DeafSync(s: Server, v: View, op: Op)
    requires Sync(s, v) && Legal(s, op) && !v.listening
    ensures Sync(Step(s, op), Fold(v, Emitted(s, op)))
  {
    StepKeeps(s, op);
    DeafFold(v, Emitted(s, op));
  }

  lemma StepSync(s: Server, v: View, op: Op)
    requires Sync(s, v) && Legal(s, op)
    ensures Sync(Step(s, op), Fold(v, Emitted(s, op)))
  {
    if !v.listening {
      DeafSync(s, v, op);
    } else {
      match op
      case StartBatch => StartBatchSync(s, v);
      case Complete(i, ok) => CompleteSync(s, v, i, ok);
      case Throw(i) => ThrowSync(s, v, i);
      case Abort => AbortSync(s, v);
      case Conclude => ConcludeSync(s, v);
    }
  }

  // ------------------------------------------------------------------------- whole runs

  /** Server steps, whose events the client receives in order, mixed with a cancel on the client and
      a shutdown of the pod, which aborts the run and tells the client that it was interrupted. */
  datatype Move = Serve(op: Op) | CancelClient | ShutDown

  ghost predicate LegalMoves(s: Server, moves: seq<Move>)
    decreases |moves|
  {
    moves == [] || (match moves[0]
      case Serve(op) => Legal(s, op) && LegalMoves(Step(s, op), moves[1..])
      case CancelClient => LegalMoves(s, moves[1..])
      case ShutDown => LegalMoves(Step(s, Abort), moves[1..]))
  }

  function Play(s: Server, v: View, moves: seq<Move>): (Server, View)
    decreases |moves|
  {
    if moves == [] then (s, v)
    else
      match moves[0]
      case Serve(op) => Play(Step(s, op), Fold(v, Emitted(s, op)), moves[1..])
      case CancelClient => Play(s, Cancelled(v), moves[1..])
      case ShutDown => Play(Step(s, Abort), Reduce(v, Interrupted), moves[1..])
  }

  lemma InterruptSync(s: Server, v: View)
    requires Sync(s, v)
    ensures Sync(Step(s, Abort), Reduce(v, Interrupted))
  {
    StepKeeps(s, Abort);
    assert Emitted(s, Abort) == [];
  }

  lemma {:induction false} DeafPlay(s: Server, v: View, moves: seq<Move>)
    requires !v.listening && !v.running && LegalMoves(s, moves)
    ensures Play(s, v, moves).1 == v
    decreases |moves|
  {
    if moves != [] {
      match moves[0]
      case Serve(op) => DeafFold(v, Emitted(s, op)); DeafPlay(Step(s, op), v, moves[1..]);
      case CancelClient => DeafPlay(s, v, moves[1..]);
      case ShutDown => DeafPlay(Step(s, Abort), v, moves[1..]);
    }
  }

  /** A client still listening when its pod shuts down ends idle with an error and keeps the entries
      and the counter it had, whatever the workers still in flight report afterwards. */
  lemma InterruptedIsFinal(cases: seq<nat>, before: seq<Move>, after: seq<Move>)
    requires LegalMoves(Begin(cases), before) && LegalMoves(Play(Begin(cases), START, before).0, [ShutDown] + after)
    requires Play(Begin(cases), START, before).1.listening
    ensures var p := Play(Begin(cases), START, before);
            Play(p.0, p.1, [ShutDown] + after).1 == p.1.(failed := true, running := false, listening := false)
  {
    var p := Play(Begin(cases), START, before);
    assert ([ShutDown] + after)[1..] == after;
    DeafPlay(Step(p.0, Abort), Reduce(p.1, Interrupted), after);
  }

  lemma {:induction false} PlaySync(s: Server, v: View, moves: seq<Move>)
    requires Sync(s, v) && LegalMoves(s, moves)
    ensures Sync(Play(s, v, moves).0, Play(s, v, moves).1)
    decreases |moves|
  {
    if moves != [] {
      match moves[0]
      case Serve(op) => StepSync(s, v, op); PlaySync(Step(s, op), Fold(v, Emitted(s, op)), moves[1..]);
      case CancelClient => PlaySync(s, Cancelled(v), moves[1..]);
      case ShutDown => InterruptSync(s, v); PlaySync(Step(s, Abort), Reduce(v, Interrupted), moves[1..]);
    }
  }

  lemma StartSync(cases: seq<nat>)
    ensures Sync(Begin(cases), START)
  {
    assert UpTo(0) == [];
    assert Shown(Begin(cases)) == [];
  }

  /** At every moment of every run the entries are unique and the counter is the number of entries
      that are finished. */
  lemma CounterIsFinishedEntries(cases: seq<nat>, moves: seq<Move>)
    requires LegalMoves(Begin(cases), moves)
    ensures var v := Play(Begin(cases), START, moves).1; UniqueEntries(v) && v.completed == FinishedCount(v.entries)
  {
    StartSync(cases);
    PlaySync(Begin(cases), START, moves);
  }

  /** When the server concludes and the client is still listening, the client ends idle with
      completed = total = the number of runs, every entry finished; that is every scheduled case,
      in schedule order, unless the run was aborted. */
  lemma EndsComplete(cases: seq<nat>, moves: seq<Move>)
    requires LegalMoves(Begin(cases), moves)
    requires var p := Play(Begin(cases), START, moves); Legal(p.0, Conclude) && p.1.listening
    ensures var p := Play(Begin(cases), START, moves);
            var v := Fold(p.1, Emitted(p.0, Conclude));
            && !v.running && !v.failed
            && v.completed == v.total == |v.entries| == p.0.started
            && (forall e <- v.entries :: IsFinished(e))
            && (!p.0.aborted ==> |v.entries| == |p.0.cases|)
            && (forall i | 0 <= i < |v.entries| ::
                 i < |p.0.cases| && v.entries[i].index == i + 1
                 && v.entries[i].evalId == p.0.cases[i])
  {
    StartSync(cases);
    PlaySync(Begin(cases), START, moves);
    var p := Play(Begin(cases), START, moves);
    OneEvent(p.1, Emitted(p.0, Conclude)[0]);
    ShownAtEnd(p.0);
  }

  /** When a run can conclude, every entry shown is finished and there is one per result. */
  lemma ShownAtEnd(s: Server)
    requires Inv(s) && Legal(s, Conclude)
    ensures |s.results| == s.started && (!s.aborted ==> s.started == |s.cases|)
    ensures forall e <- Shown(s) :: IsFinished(e)
    ensures forall i | 0 <= i < s.started :: Shown(s)[i].index == i + 1 && Shown(s)[i].evalId == s.cases[i]
  {
    ResultsCounted(s);
    assert s.inflight + s.lost == {};
  }

  function EvalIds(entries: seq<Entry>): seq<nat> {
    seq(|entries|, i requires 0 <= i < |entries| => entries[i].evalId)
  }

  lemma {:induction false} PlayKeepsCases(s: Server, v: View, moves: seq<Move>)
    ensures Play(s, v, moves).0.cases == s.cases
    decreases |moves|
  {
    if moves != [] {
      match moves[0]
      case Serve(op) => PlayKeepsCases(Step(s, op), Fold(v, Emitted(s, op)), moves[1..]);
      case CancelClient => PlayKeepsCases(s, Cancelled(v), moves[1..]);
      case ShutDown => PlayKeepsCases(Step(s, Abort), Reduce(v, Interrupted), moves[1..]);
    }
  }

  /** From the expansion to the screen: after an unaborted run the client shows every case exactly
      `runsPerCase` times. */
  lemma EveryCaseShown(evalCases: seq<nat>, runsPerCase: nat, moves: seq<Move>, c: nat)
    requires var s := Begin(EvalPlan.Repeated(evalCases, runsPerCase));
             LegalMoves(s, moves) && (var p := Play(s, START, moves);
                     Legal(p.0, Conclude) && p.1.listening
                     && !p.0.aborted)
    ensures var p := Play(Begin(EvalPlan.Repeated(evalCases, runsPerCase)), START, moves);
            multiset(EvalIds(Fold(p.1, Emitted(p.0, Conclude)).entries))[c] == runsPerCase * multiset(evalCases)[c]
  {
    var cases := EvalPlan.Repeated(evalCases, runsPerCase);
    var p := Play(Begin(cases), START, moves);
    EndsComplete(cases, moves);
    PlayKeepsCases(Begin(cases), START, moves);
    assert EvalIds(Fold(p.1, Emitted(p.0, Conclude)).entries) == cases;
    EvalPlan.RepeatedCount(evalCases, runsPerCase, c);
  }
}
