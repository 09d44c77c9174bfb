/** The exclusive-create lock around the receipt (packages/cli/src/lib/installed-receipt.ts:39-95),
    for any number of processes working on one scope, one step per await. */
module ReceiptLock {
  import opened Common
  import opened Receipt

  const MAX_ATTEMPTS: nat := 10
  const FIRST_DELAY: nat := 100
  const MAX_DELAY: nat := 2000

  /** The receipt file: absent, readable, or not valid JSON. */
  datatype Disk = Missing | Stored(receipt: Receipt) | Garbled

  /** Giving up reports the time slept in vain. */
  datatype Outcome = Ended(found: bool) | Malformed | GaveUp(slept: nat)

  /** What an operation does to the file once it holds the lock. A malformed file makes it throw. */
  function Perform(d: Disk, op: Op): (Outcome, Disk) {
    match d
    case Garbled => (Malformed, d)
    case _ =>
      var r := if d.Stored? then d.receipt else map[];
      match op
      case Upsert(entry) => (Ended(true), Stored(Upserted(r, entry)))
      case Remove(slug, target, workspace) =>
        var x := Removed(r, slug, target, workspace);
        if x.0 then (Ended(true), Stored(x.1)) else (Ended(false), d)
  }

  function PerformAll(d: Disk, ops: seq<Op>): Disk
    decreases |ops|
  {
    if ops == [] then d else Perform(PerformAll(d, ops[..|ops| - 1]), ops[|ops| - 1]).1
  }

  datatype Proc =
    | Trying(op: Op, attempt: nat, delay: nat, slept: nat)
    | Holding(op: Op)
    | HasRead(op: Op, seen: Disk)
    | HasWritten(op: Op, result: Outcome)
    | Finished(op: Op, result: Outcome)

  /** `lock` is the process that created the lock file; `order` lists the operations in the order in
      which they took the lock, and `holders` the processes they belong to. */
  datatype Sys = Sys(lock: Option<nat>, disk: Disk, procs: map<nat, Proc>, order: seq<Op>, holders: seq<nat>)

  function Start(disk: Disk): Sys { Sys(None, disk, map[], [], []) }

  datatype Move = Spawn(p: nat, op: Op) | Try(p: nat) | ReadFile(p: nat) | WriteFile(p: nat) | Release(p: nat)

  predicate Legal(s: Sys, m: Move) {
    match m
    case Spawn(p, _) => p !in s.procs
    case Try(p) => p in s.procs && s.procs[p].Trying? && s.procs[p].attempt < MAX_ATTEMPTS
    case ReadFile(p) => p in s.procs && s.procs[p].Holding?
    case WriteFile(p) => p in s.procs && s.procs[p].HasRead?
    case Release(p) => p in s.procs && s.procs[p].HasWritten?
  }

  function At(s: Sys, p: nat, proc: Proc): Sys { s.(procs := s.procs[p := proc]) }

  function NextDelay(delay: nat): nat { if delay * 2 < MAX_DELAY then delay * 2 else MAX_DELAY }

  /** A failed attempt sleeps; the tenth sleeps too, and then the process gives up. */
  function Missed(t: Proc): Proc
    requires t.Trying?
  {
    if t.attempt + 1 == MAX_ATTEMPTS then Finished(t.op, GaveUp(t.slept + t.delay))
    else Trying(t.op, t.attempt + 1, NextDelay(t.delay), t.slept + t.delay)
  }

  function Step(s: Sys, m: Move): Sys
    requires Legal(s, m)
  {
    match m
    case Spawn(p, op) => At(s, p, Trying(op, 0, FIRST_DELAY, 0))
    case Try(p) =>
      if s.lock == None then
        At(s, p, Holding(s.procs[p].op)).(lock := Some(p), order := s.order + [s.procs[p].op],
            holders := s.holders + [p])
      else At(s, p, Missed(s.procs[p]))
    case ReadFile(p) => At(s, p, HasRead(s.procs[p].op, s.disk))
    case WriteFile(p) =>
      var r := Perform(s.procs[p].seen, s.procs[p].op);
      At(s.(disk := r.1), p, HasWritten(s.procs[p].op, r.0))
    case Release(p) => At(s.(lock := None), p, Finished(s.procs[p].op, s.procs[p].result))
  }

  ghost predicate LegalRun(s: Sys, moves: seq<Move>)
    decreases |moves|
  {
    moves == [] || (Legal(s, moves[0]) && LegalRun(Step(s, moves[0]), moves[1..]))
  }

  ghost function Run(s: Sys, moves: seq<Move>): Sys
    requires LegalRun(s, moves)
    decreases |moves|
  {
    if moves == [] then s else Run(Step(s, moves[0]), moves[1..])
  }

  // ----------------------------------------------------------------------- invariant

  predicate Critical(proc: Proc) { proc.Holding? || proc.HasRead? || proc.HasWritten? }

  /** The operations that have been written: all but the last while its process has not written. */
  function Written(s: Sys): seq<Op> {
    if s.lock.Some? && s.lock.value in s.procs && !s.procs[s.lock.value].HasWritten? && s.order != []
    then s.order[..|s.order| - 1] else s.order
  }

  ghost predicate Inv(init: Disk, s: Sys) {
    && (s.lock.Some? ==> s.lock.value in s.procs && Critical(s.procs[s.lock.value]) && s.order != []
                         && s.procs[s.lock.value].op == s.order[|s.order| - 1])
    && (forall p <- s.procs | Critical(s.procs[p]) :: s.lock == Some(p))
    && (s.lock.Some? && s.procs[s.lock.value].HasRead? ==> s.procs[s.lock.value].seen == s.disk)
    && s.disk == PerformAll(init, Written(s))
  }

  lemma PerformOneMore(init: Disk, ops: seq<Op>)
    requires ops != []
    ensures PerformAll(init, ops) == Perform(PerformAll(init, ops[..|ops| - 1]), ops[|ops| - 1]).1
  {
  }

  lemma TryKeeps(init: Disk, s: Sys, p: nat)
    requires Inv(init, s) && Legal(s, Try(p))
    ensures Inv(init, Step(s, Try(p)))
  {
    if s.lock == None { assert (s.order + [s.procs[p].op])[..|s.order|] == s.order; }
  }

  lemma WriteKeeps(init: Disk, s: Sys, p: nat)
    requires Inv(init, s) && Legal(s, WriteFile(p))
    ensures Inv(init, Step(s, WriteFile(p)))
  {
    PerformOneMore(init, s.order);
  }

  lemma ReleaseKeeps(init: Disk, s: Sys, p: nat)
    requires Inv(init, s) && Legal(s, Release(p))
    ensures Inv(init, Step(s, Release(p)))
  {
  }

  lemma StepKeeps(init: Disk, s: Sys, m: Move)
    requires Inv(init, s) && Legal(s, m)
    ensures Inv(init, Step(s, m))
  {
    match m
    case Spawn(p, op) =>
    case Try(p) => TryKeeps(init, s, p);
    case ReadFile(p) =>
    case WriteFile(p) => WriteKeeps(init, s, p);
    case Release(p) => ReleaseKeeps(init, s, p);
  }

  lemma {:induction false} RunKeeps(init: Disk, s: Sys, moves: seq<Move>)
    requires Inv(init, s) && LegalRun(s, moves)
    ensures Inv(init, Run(s, moves))
    decreases |moves|
  {
    if moves != [] {
      StepKeeps(init, s, moves[0]);
      RunKeeps(init, Step(s, moves[0]), moves[1..]);
    }
  }

  /** For any number of processes in any interleaving, at most one is between creating the lock file
      and deleting it. */
  lemma MutualExclusion(init: Disk, moves: seq<Move>, p: nat, q: nat)
    requires LegalRun(Start(init), moves)
    requires var s := Run(Start(init), moves);
             p in s.procs && q in s.procs && Critical(s.procs[p]) && Critical(s.procs[q])
    ensures p == q
  {
    RunKeeps(init, Start(init), moves);
  }

  /** Whenever the lock is free, the file is the initial one with all operations applied in the order
      in which they took the lock: no update is lost. */
  lemma Serialised(init: Disk, moves: seq<Move>)
    requires LegalRun(Start(init), moves) && Run(Start(init), moves).lock == None
    ensures Run(Start(init), moves).disk == PerformAll(init, Run(Start(init), moves).order)
  {
    RunKeeps(init, Start(init), moves);
  }

  ghost predicate ValidDisk(d: Disk) { d.Stored? ==> Valid(d.receipt) }

  lemma {:induction false} PerformAllValid(d: Disk, ops: seq<Op>)
    requires ValidDisk(d)
    ensures ValidDisk(PerformAll(d, ops))
    decreases |ops|
  {
    if ops != [] {
      var before, op := PerformAll(d, ops[..|ops| - 1]), ops[|ops| - 1];
      PerformAllValid(d, ops[..|ops| - 1]);
      AppliedKeepsValid(if before.Stored? then before.receipt else map[], op);
    }
  }

  /** The file always holds one entry per slug, target and scope, and no slug without entries. */
  lemma AlwaysValid(init: Disk, moves: seq<Move>)
    requires ValidDisk(init) && LegalRun(Start(init), moves)
    ensures ValidDisk(Run(Start(init), moves).disk)
  {
    RunKeeps(init, Start(init), moves);
    PerformAllValid(init, Written(Run(Start(init), moves)));
  }

  /** A process that took the lock, and has not given up instead. */
  predicate TookLock(proc: Proc) { Critical(proc) || (proc.Finished? && !proc.result.GaveUp?) }

  /** The i-th entry of the order is the operation of process `p`. */
  predicate Took(s: Sys, i: nat, p: nat) {
    i < |s.holders| == |s.order| && s.holders[i] == p && p in s.procs && s.procs[p].op == s.order[i]
        && TookLock(s.procs[p])
  }

  /** The order holds the operation of every process that took the lock, once each, and nothing else. */
  ghost predicate Accounted(s: Sys) {
    && |s.holders| == |s.order|
    && (forall i, j | 0 <= i < j < |s.holders| :: s.holders[i] != s.holders[j])
    && (forall i: nat | i < |s.holders| :: Took(s, i, s.holders[i]))
    && (forall p <- s.procs | TookLock(s.procs[p]) :: p in s.holders)
    && (forall p <- s.procs | s.procs[p].HasWritten? :: !s.procs[p].result.GaveUp?)
  }

  /** A process that finished did not get less than it asked for: either it gave up, or its own
      operation is in the order, exactly once. */
  lemma {:induction false} NothingSkipped(s: Sys, moves: seq<Move>)
    requires LegalRun(s, moves) && Accounted(s)
    ensures Accounted(Run(s, moves))
    ensures forall p <- Run(s, moves).procs | TookLock(Run(s, moves).procs[p]) :: exists i: nat ::
        Took(Run(s, moves), i, p)
    decreases |moves|
  {
    if moves != [] {
      AccountedStep(s, moves[0]);
      NothingSkipped(Step(s, moves[0]), moves[1..]);
    } else {
      forall p <- s.procs | TookLock(s.procs[p]) ensures exists i: nat :: Took(s, i, p) {
        var i: nat :| i < |s.holders| && s.holders[i] == p;
        assert Took(s, i, p);
      }
    }
  }

  lemma NotYetHolder(s: Sys, p: nat)
    requires Accounted(s) && (p in s.procs ==> !TookLock(s.procs[p]))
    ensures p !in s.holders
  {
    forall i: nat | i < |s.holders| ensures s.holders[i] != p { assert Took(s, i, s.holders[i]); }
  }

  lemma AccountedStep(s: Sys, m: Move)
    requires Legal(s, m) && Accounted(s)
    ensures Accounted(Step(s, m))
  {
    var t := Step(s, m);
    if m.Spawn? || m.Try? { NotYetHolder(s, m.p); }
    if m.Try? && s.lock == None { assert t.holders[|s.holders|] == m.p; }
    forall i: nat | i < |t.holders| ensures Took(t, i, t.holders[i]) {
      if i < |s.holders| { assert Took(s, i, s.holders[i]); }
    }
    forall p <- t.procs | TookLock(t.procs[p]) ensures p in t.holders {
      if p in s.procs && TookLock(s.procs[p]) { assert p in s.holders; }
    }
  }

  // --------------------------------------------------------------------- a stale lock file

  /** The lock file of a process that is gone: nobody will delete it. */
  ghost predicate Stale(s: Sys) {
    s.lock.Some? && s.lock.value !in s.procs && forall p <- s.procs :: !Critical(s.procs[p])
  }

  /** A stale lock file is never cleaned up: as long as no process takes the dead one's number, every
      process gives up and the file stays as it is. */
  lemma {:induction false} StaleLockStays(s: Sys, moves: seq<Move>)
    requires Stale(s) && LegalRun(s, moves) && forall m <- moves :: m.p != s.lock.value
    ensures var t := Run(s, moves);
            Stale(t) && t.lock == s.lock && t.disk == s.disk && t.order == s.order
            && t.holders == s.holders
    decreases |moves|
  {
    if moves != [] {
      assert moves[0] in moves;
      StaleLockStays(Step(s, moves[0]), moves[1..]);
    }
  }

  // ------------------------------------------------------------------------- the waiting time

  function DelayAt(attempt: nat): nat { if attempt == 0 then FIRST_DELAY else NextDelay(DelayAt(attempt - 1)) }

  function SleptBy(attempt: nat): nat { if attempt == 0 then 0 else SleptBy(attempt - 1) + DelayAt(attempt - 1) }

  lemma Unrolled()
    ensures DelayAt(0) == 100 && DelayAt(1) == 200 && DelayAt(2) == 400 && DelayAt(3) == 800 && DelayAt(4) == 1600
    ensures DelayAt(5) == 2000 && DelayAt(6) == 2000 && DelayAt(7) == 2000 && DelayAt(8) == 2000 && DelayAt(9) == 2000
  {
    assert DelayAt(1) == 200 && DelayAt(2) == 400 && DelayAt(3) == 800;
    assert DelayAt(4) == 1600 && DelayAt(5) == 2000 && DelayAt(6) == 2000;
    assert DelayAt(7) == 2000 && DelayAt(8) == 2000;
  }

  lemma {:induction false} SleptGrows(i: nat, j: nat)
    requires i <= j
    ensures SleptBy(i) <= SleptBy(j)
    decreases j
  {
    if i < j { SleptGrows(i, j - 1); }
  }

  /** Ten failed attempts sleep for 13.1 seconds, the last sleep included. */
  lemma TotalSleep()
    ensures SleptBy(MAX_ATTEMPTS) == 13100
  {
    Unrolled();
    assert SleptBy(3) == 700;
    assert SleptBy(6) == 5100;
    assert SleptBy(9) == 11100;
  }

  predicate InBudget(proc: Proc) {
    match proc
    case Trying(_, attempt, delay, slept) =>
      attempt < MAX_ATTEMPTS && delay == DelayAt(attempt) && slept == SleptBy(attempt)
    case HasWritten(_, result) => !result.GaveUp?
    case Finished(_, result) => result.GaveUp? ==> result.slept == SleptBy(MAX_ATTEMPTS)
    case _ => true
  }

  lemma BudgetOne(s: Sys, m: Move, p: nat)
    requires Legal(s, m) && p in Step(s, m).procs && (p in s.procs ==> InBudget(s.procs[p]))
    ensures InBudget(Step(s, m).procs[p])
  {
  }

  lemma BudgetStep(s: Sys, m: Move)
    requires Legal(s, m) && forall p <- s.procs :: InBudget(s.procs[p])
    ensures forall p <- Step(s, m).procs :: InBudget(Step(s, m).procs[p])
  {
    forall p <- Step(s, m).procs ensures InBudget(Step(s, m).procs[p]) { BudgetOne(s, m, p); }
  }

  lemma {:induction false} BudgetKept(s: Sys, moves: seq<Move>)
    requires LegalRun(s, moves) && forall p <- s.procs :: InBudget(s.procs[p])
    ensures forall p <- Run(s, moves).procs :: InBudget(Run(s, moves).procs[p])
    decreases |moves|
  {
    if moves != [] {
      BudgetStep(s, moves[0]);
      BudgetKept(Step(s, moves[0]), moves[1..]);
    }
  }

  /** In every run of any number of processes, one that is still trying has slept exactly what its
      failed attempts call for, which is less than 13.1 seconds, and one that gave up slept exactly
      13.1 seconds. */
  lemma WaitingTime(init: Disk, moves: seq<Move>, p: nat)
    requires LegalRun(Start(init), moves) && p in Run(Start(init), moves).procs
    ensures var proc := Run(Start(init), moves).procs[p];
            && (proc.Trying? ==> proc.slept == SleptBy(proc.attempt) <= 11100)
            && (proc.Finished? && proc.result.GaveUp? ==> proc.result.slept == 13100)
  {
    BudgetKept(Start(init), moves);
    TotalSleep();
    Unrolled();
    var proc := Run(Start(init), moves).procs[p];
    if proc.Trying? { SleptGrows(proc.attempt, MAX_ATTEMPTS - 1); }
    assert SleptBy(MAX_ATTEMPTS) == SleptBy(MAX_ATTEMPTS - 1) + 2000;
  }

  /** The retry loop against any environment: `free(k)` says whether the k-th exclusive create
      succeeds. It stops at the first success, or after ten tries and 13,100 ms of sleep. */
  method Acquire(free: nat -> bool) returns (acquired: bool, tries: nat, slept: nat)
    ensures acquired <==> exists k: nat | k < MAX_ATTEMPTS :: free(k)
    ensures 1 <= tries <= MAX_ATTEMPTS && (forall k: nat | k < tries - 1 :: !free(k)) && (acquired ==> free(tries - 1))
    ensures slept == SleptBy(if acquired then tries - 1 else tries) && slept <= 13100
    ensures !acquired ==> tries == MAX_ATTEMPTS && slept == 13100
  {
    TotalSleep();
    var delay := FIRST_DELAY;
    slept := 0;
    var attempt := 0;
    while attempt < MAX_ATTEMPTS
      invariant attempt <= MAX_ATTEMPTS
      invariant delay == DelayAt(attempt) && slept == SleptBy(attempt)
      invariant forall k: nat | k < attempt :: !free(k)
    {
      if free(attempt) {
        SleptGrows(attempt, MAX_ATTEMPTS);
        return true, attempt + 1, slept;
      }
      slept := slept + delay;
      delay := if delay * 2 < MAX_DELAY then delay * 2 else MAX_DELAY;
      attempt := attempt + 1;
    }
    return false, MAX_ATTEMPTS, slept;
  }
}
