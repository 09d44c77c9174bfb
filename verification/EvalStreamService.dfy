/** The two ends of a streamed eval run as objects: the loop of `runEvalsStreamed`, one method per
    stretch between awaits, and the hook that folds its events into view state. */
module EvalStreamService {
  import opened EvalStream
  import opened EvalRunner

  class StreamedRun {
    const cases: seq<nat>
    var started: nat
    var inflight: set<nat>
    var results: map<nat, bool>
    var lost: set<nat>
    var aborted: bool
    var phase: Phase
    var log: seq<Event>

    ghost function State(): Server
      reads this
    {
      Server(cases, started, inflight, results, lost, aborted, phase, log)
    }

    constructor (expandedCases: seq<nat>)
      ensures cases == expandedCases && State() == Begin(expandedCases)
    {
      cases, started, inflight, results, lost := expandedCases, 0, {}, map[], {};
      aborted, phase, log := false, Going, [];
    }

    method Emit(e: Event)
      modifies this`log
      ensures log == old(log) + [e]
    {
      log := log + [e];
    }

    /** The body of the batch loop up to the await: announce the batch and launch its workers. */
    method StartNextBatch()
      requires Legal(State(), StartBatch)
      modifies this
      ensures State() == Step(old(State()), StartBatch)
    {
      var end := if started + CONCURRENCY < |cases| then started + CONCURRENCY else |cases|;
      var index := started;
      while index < end
        invariant started == old(started) <= index <= end
        invariant log == old(log) + StartEvents(cases, started, index)
        invariant inflight == Indices(started, index)
        invariant results == old(results) && lost == old(lost) && aborted == old(aborted) && phase == old(phase)
      {
        index := index + 1;
        Emit(Started(index, cases[index - 1], |cases|));
        inflight := inflight + {index};
        StartsSnoc(old(log), cases, started, index);
      }
      started := end;
    }

    /** A worker resumes with its run saved. */
    method WorkerFinished(index: nat, ok: bool)
      requires Legal(State(), Complete(index, ok))
      modifies this
      ensures State() == Step(old(State()), Complete(index, ok))
    {
      results := results[index := ok];
      inflight := inflight - {index};
      Emit(Finished(index, ok));
    }

    /** A worker rejects: the first rejection ends the run, with an error event unless aborted. */
    method WorkerThrew(index: nat)
      requires Legal(State(), Throw(index))
      modifies this
      ensures State() == Step(old(State()), Throw(index))
    {
      inflight, lost := inflight - {index}, lost + {index};
      if phase == Going && !aborted { Emit(RunError); }
      phase := Crashed;
    }

    method SignalAborted()
      modifies this`aborted
      ensures State() == Step(old(State()), Abort)
    {
      aborted := true;
    }

    method FinishRun()
      requires Legal(State(), Conclude)
      modifies this
      ensures State() == Step(old(State()), Conclude)
    {
      var passed := |set i | i in results && results[i]|;
      var failed := |set i | i in results && !results[i]|;
      assert (set i | i in results && results[i]) == PassedOf(results);
      assert (set i | i in results && !results[i]) == FailedOf(results);
      phase := Done;
      Emit(RunComplete(|results|, passed, failed));
    }
  }

  class Hook {
    var listening: bool
    var running: bool
    var completed: nat
    var total: nat
    var evalStatuses: seq<Entry>
    var failed: bool

    ghost function State(): View
      reads this
    {
      View(listening, running, completed, total, evalStatuses, failed)
    }

    constructor ()
      ensures State() == START
    {
      listening, running, completed, total, evalStatuses, failed := true, true, 0, 0, [], false;
    }

    method SetStatus(index: nat, status: Status)
      modifies this`evalStatuses
      ensures evalStatuses == Marked(old(evalStatuses), index, status)
    {
      evalStatuses := seq(|evalStatuses|, i requires 0 <= i < |evalStatuses| reads this =>
        if evalStatuses[i].index == index then evalStatuses[i].(status := status) else evalStatuses[i]);
    }

    method Unsubscribe()
      modifies this`listening
      ensures !listening
    {
      listening := false;
    }

    method OnEvent(ev: Event)
      modifies this
      ensures State() == Reduce(old(State()), ev)
    {
      if !listening { return; }
      match ev {
        case Started(index, evalId, n) =>
          total := n;
          if exists e <- evalStatuses :: e.index == index {
            SetStatus(index, Executing);
          } else {
            evalStatuses := evalStatuses + [Entry(index, evalId, Executing)];
          }
        case Grading(index) =>
          SetStatus(index, BeingGraded);
        case Finished(index, ok) =>
          completed := completed + 1;
          SetStatus(index, if ok then Completed else Failed);
        case RunComplete(totalRuns, _, _) =>
          running := false;
          completed := totalRuns;
          total := totalRuns;
          Unsubscribe();
        case RunError =>
          failed, running := true, false;
          Unsubscribe();
        case Interrupted =>
          failed, running := true, false;
          Unsubscribe();
      }
    }

    method Cancel()
      modifies this
      ensures State() == Cancelled(old(State()))
    {
      Unsubscribe();
      running := false;
    }
  }
}
