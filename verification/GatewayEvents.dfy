/** The terminal events of a request, read off the steps of a run. */
module GatewayEvents {
  import opened Common
  import opened Tally
  import opened StreamGateway
  import opened GatewayLaws
  import opened GatewayRequests

  // ------------------------------------------------------------------- slots never come back

  /** A step puts no request back into a map. */
  lemma NoComeback(g: Gateway, op: Op, c: nat)
    requires Inv(g) && Legal(g, op) && c < |g.ctls|
    requires c < |Step(g, op).ctls| && Registered(Step(g, op), c)
    ensures Registered(g, c)
    ensures op.Cancel? ==> !(op.k == g.ctls[c].socket && op.requestId == g.ctls[c].requestId)
  {
    StepKeeps(g, op);
    PendingBefore(g, op, c);
    SameRegistration(g, Step(g, op), c);
    var k, s := g.ctls[c].socket, Slot(g.ctls[c].requestId, c);
    assert SocketOk(g, k) && CtlOk(g, c);
    match op {
      case Receive(i, requestId) => PutMembers(g.sockets[k].active, requestId, |g.ctls|);
      case WorkResolves(d) => SettledDrops(g, d, true, k, s);
      case WorkRejects(d) => SettledDrops(g, d, false, k, s);
      case Cancel(i, requestId) => DropMembers(g.sockets[k].active, requestId);
      case _ => SameMaps(g, op, k);
    }
  }

  /** An aborted request still in a map belongs to a socket that is gone, unless shutdown has begun. */
  predicate Gone(g: Gateway, c: nat)
    requires c < |g.ctls|
  {
    g.ctls[c].aborted && Registered(g, c) && !g.shuttingDown ==> !g.sockets[g.ctls[c].socket].connected
  }

  lemma ReceivedMap(g: Gateway, i: nat, requestId: nat)
    requires i < |g.sockets|
    ensures var h := Received(g, i, requestId);
            h.sockets == g.sockets || h.sockets == WithActive(g, i, h.sockets[i].active).sockets
  {
  }

  lemma CancelledMap(g: Gateway, i: nat, requestId: nat)
    requires i < |g.sockets|
    ensures var h := Cancelled(g, i, requestId);
            h.sockets == g.sockets || h.sockets == WithActive(g, i, h.sockets[i].active).sockets
  {
  }

  lemma SameLine(g: Gateway, h: Gateway, i: nat, active: seq<Slot>, k: nat)
    requires i < |g.sockets| && k < |g.sockets| && h.sockets == WithActive(g, i, active).sockets
    ensures k < |h.sockets| && h.sockets[k].connected == g.sockets[k].connected
  {
  }

  lemma QuietStaysDown(g: Gateway, op: Op, k: nat)
    requires Legal(g, op) && (IsQuiet(op) || op.ConcludeCheck?) && k < |g.sockets| && !g.sockets[k].connected
    ensures k < |Step(g, op).sockets| && !Step(g, op).sockets[k].connected
  {
  }

  lemma StaysDown(g: Gateway, op: Op, k: nat)
    requires Inv(g) && Legal(g, op) && k < |g.sockets| && !g.sockets[k].connected
    ensures k < |Step(g, op).sockets| && !Step(g, op).sockets[k].connected
  {
    var h := Step(g, op);
    match op
    case Receive(i, requestId) =>
      ReceivedMap(g, i, requestId);
      if h.sockets != g.sockets { SameLine(g, h, i, h.sockets[i].active, k); }
    case Cancel(i, requestId) =>
      CancelledMap(g, i, requestId);
      if h.sockets != g.sockets { SameLine(g, h, i, h.sockets[i].active, k); }
    case WorkResolves(d) =>
      SettledMap(g, d, true);
      SameLine(g, h, g.ctls[d].socket, Drop(g.sockets[g.ctls[d].socket].active, g.ctls[d].requestId), k);
    case WorkRejects(d) =>
      SettledMap(g, d, false);
      SameLine(g, h, g.ctls[d].socket, Drop(g.sockets[g.ctls[d].socket].active, g.ctls[d].requestId), k);
    case Shutdown => SameRequests(g, op);
    case _ => QuietStaysDown(g, op, k);
  }

  lemma StaysDraining(g: Gateway, op: Op)
    requires Inv(g) && Legal(g, op) && g.shuttingDown
    ensures Step(g, op).shuttingDown
  {
    DrainingTotals(g, op);
  }

  lemma GoneStep(g: Gateway, op: Op, c: nat)
    requires Inv(g) && Legal(g, op) && c < |Step(g, op).ctls| && (c < |g.ctls| ==> Gone(g, c))
    ensures Gone(Step(g, op), c)
  {
    var h := Step(g, op);
    if c >= |g.ctls| {
      NewRequest(g, op, c);
    } else if h.ctls[c].aborted && Registered(h, c) && !h.shuttingDown {
      StepSlots(g, op, c);
      NoComeback(g, op, c);
      AbortExactly(g, op, c);
      if g.shuttingDown { StaysDraining(g, op); }
      if op.Shutdown? { ShutdownNotifiesExactly(g, c); }
      if op.ConcludeCheck? && !g.ctls[c].aborted { assert TimerOk(g, g.timers[op.t]); }
      StaysDown(g, op, g.ctls[c].socket);
    }
  }

  // -------------------------------------------------------------- the last step of a run

  lemma {:induction false} Unsnoc(g: Gateway, ops: seq<Op>, n: nat)
    requires LegalRun(g, ops) && n < |ops|
    ensures LegalRun(g, ops[..n]) && Legal(Run(g, ops[..n]), ops[n])
    ensures n == |ops| - 1 ==> Run(g, ops) == Step(Run(g, ops[..n]), ops[n])
    decreases |ops|
  {
    if n > 0 {
      assert ops[1..][..n - 1] == ops[..n][1..];
      Unsnoc(Step(g, ops[0]), ops[1..], n - 1);
    }
  }

  lemma {:induction false} AllGone(ops: seq<Op>, c: nat)
    requires LegalRun(EMPTY_GATEWAY, ops) && c < |Run(EMPTY_GATEWAY, ops).ctls|
    ensures Gone(Run(EMPTY_GATEWAY, ops), c)
    decreases |ops|
  {
    if ops != [] {
      var n := |ops| - 1;
      Unsnoc(EMPTY_GATEWAY, ops, n);
      RunKeeps(EMPTY_GATEWAY, ops[..n]);
      if c < |Run(EMPTY_GATEWAY, ops[..n]).ctls| { AllGone(ops[..n], c); }
      GoneStep(Run(EMPTY_GATEWAY, ops[..n]), ops[n], c);
    }
  }

  // ------------------------------------------------------------- interrupted, and completed

  /** The i-th step shuts the pod down while request `c` is running, unaborted, on a connected socket
      and not displaced. */
  ghost predicate InterruptedAt(ops: seq<Op>, i: nat, c: nat) {
    && i < |ops| && ops[i] == Shutdown && LegalRun(EMPTY_GATEWAY, ops[..i])
    && RunsConnected(Run(EMPTY_GATEWAY, ops[..i]), c) && !Displaced(EMPTY_GATEWAY, ops[..i], c)
  }

  predicate RunsConnected(g: Gateway, c: nat) {
    c < |g.ctls| && Alive(g.ctls[c]) && g.ctls[c].socket < |g.sockets| && g.sockets[g.ctls[c].socket].connected
  }

  lemma ShutdownHits(ops: seq<Op>, c: nat)
    requires LegalRun(EMPTY_GATEWAY, ops) && Legal(Run(EMPTY_GATEWAY, ops), Shutdown)
    requires c < |Run(EMPTY_GATEWAY, ops).ctls|
    ensures var g := Run(EMPTY_GATEWAY, ops);
            (Registered(g, c) && Reached(g.sockets[g.ctls[c].socket]))
            <==> (RunsConnected(g, c) && !Displaced(EMPTY_GATEWAY, ops, c))
  {
    var g := Run(EMPTY_GATEWAY, ops);
    RunKeeps(EMPTY_GATEWAY, ops);
    AllGone(ops, c);
    assert CtlOk(g, c);
    if Alive(g.ctls[c]) { RegisteredExactly(EMPTY_GATEWAY, ops, c); }
    if Registered(g, c) { RegisteredPending(g, c); }
  }

  lemma InterruptedSame(g: Gateway, op: Op, c: nat)
    requires Inv(g) && Legal(g, op) && c < |g.ctls| && (op.Cancel? || op.ConcludeCheck?)
    ensures c < |Step(g, op).ctls| && Step(g, op).ctls[c].interrupted == g.ctls[c].interrupted
  {
    match op
    case Cancel(k, requestId) =>
      var i := Find(g.sockets[k].active, requestId);
      if i >= 0 { AbortMarks(g.ctls, [g.sockets[k].active[i]], false); }
    case ConcludeCheck(t) => AbortMarks(g.ctls, g.sockets[g.timers[t].socket].active, false);
  }

  /** What one step does to the record of a request. */
  lemma RecordStep(g: Gateway, op: Op, c: nat)
    requires Inv(g) && Legal(g, op) && c < |g.ctls|
    ensures c < |Step(g, op).ctls|
    ensures !op.Shutdown? ==> Step(g, op).ctls[c].interrupted == g.ctls[c].interrupted
    ensures op != WorkRejects(c) ==>
      Step(g, op).ctls[c].outcome == if op == WorkResolves(c) then Completed else g.ctls[c].outcome
    ensures op == WorkRejects(c) ==> g.ctls[c].outcome == Pending && Step(g, op).ctls[c].outcome != Completed
  {
    match op
    case Receive(k, requestId) => ReceivedCtls(g, k, requestId);
    case WorkResolves(d) => SettledCtls(g, d, true);
    case WorkRejects(d) => SettledCtls(g, d, false);
    case Shutdown => ShutdownNotifiesExactly(g, c);
    case Cancel(_, _) => SameRecord(g, op, c); InterruptedSame(g, op, c);
    case ConcludeCheck(_) => SameRecord(g, op, c); InterruptedSame(g, op, c);
    case _ => QuietCtls(g, op);
  }

  lemma NewRecord(g: Gateway, op: Op, c: nat)
    requires Inv(g) && Legal(g, op) && |g.ctls| <= c < |Step(g, op).ctls|
    ensures op.Receive? && !Step(g, op).ctls[c].interrupted && Step(g, op).ctls[c].outcome == Pending
  {
    if !op.Receive? && !op.WorkResolves? && !op.WorkRejects? { SameRequests(g, op); }
  }

  ghost predicate EverInterrupted(ops: seq<Op>, c: nat) {
    exists i: nat :: InterruptedAt(ops, i, c)
  }

  lemma EverSnoc(ops: seq<Op>, n: nat, c: nat)
    requires |ops| == n + 1
    ensures EverInterrupted(ops, c) <==> EverInterrupted(ops[..n], c) || InterruptedAt(ops, n, c)
  {
    forall i: nat | i < n ensures InterruptedAt(ops, i, c) <==> InterruptedAt(ops[..n], i, c) {
      assert ops[..n][..i] == ops[..i];
    }
  }

  lemma NotYetInterrupted(ops: seq<Op>, i: nat, c: nat)
    requires LegalRun(EMPTY_GATEWAY, ops) && |Run(EMPTY_GATEWAY, ops).ctls| <= c
    ensures !InterruptedAt(ops, i, c)
  {
    if InterruptedAt(ops, i, c) {
      RunSplit(EMPTY_GATEWAY, ops, i);
      RunKeeps(EMPTY_GATEWAY, ops[..i]);
      AliveBefore(Run(EMPTY_GATEWAY, ops[..i]), ops[i..], c);
    }
  }

  lemma {:induction false} RunSplit(g: Gateway, ops: seq<Op>, i: nat)
    requires LegalRun(g, ops) && i <= |ops|
    ensures LegalRun(g, ops[..i]) && LegalRun(Run(g, ops[..i]), ops[i..])
    ensures Run(g, ops) == Run(Run(g, ops[..i]), ops[i..])
    decreases |ops|
  {
    if i == 0 {
      assert ops[0..] == ops;
    } else {
      assert ops[1..][..i - 1] == ops[..i][1..] && ops[1..][i - 1..] == ops[i..];
      RunSplit(Step(g, ops[0]), ops[1..], i - 1);
    }
  }

  /** At the last step of a run, a request becomes interrupted exactly by a shutdown that finds it running. */
  lemma InterruptedLast(ops: seq<Op>, n: nat, c: nat)
    requires LegalRun(EMPTY_GATEWAY, ops) && |ops| == n + 1 && LegalRun(EMPTY_GATEWAY, ops[..n])
    requires Legal(Run(EMPTY_GATEWAY, ops[..n]), ops[n]) && c < |Run(EMPTY_GATEWAY, ops[..n]).ctls|
    ensures var g := Run(EMPTY_GATEWAY, ops[..n]);
            var h := Step(g, ops[n]);
            c < |h.ctls| && (h.ctls[c].interrupted <==> g.ctls[c].interrupted || InterruptedAt(ops, n, c))
  {
    RunKeeps(EMPTY_GATEWAY, ops[..n]);
    RecordStep(Run(EMPTY_GATEWAY, ops[..n]), ops[n], c);
    if ops[n].Shutdown? {
      ShutdownHits(ops[..n], c);
      ShutdownNotifiesExactly(Run(EMPTY_GATEWAY, ops[..n]), c);
    }
  }

  lemma {:induction false} InterruptedIff(ops: seq<Op>, c: nat)
    requires LegalRun(EMPTY_GATEWAY, ops) && c < |Run(EMPTY_GATEWAY, ops).ctls|
    ensures Run(EMPTY_GATEWAY, ops).ctls[c].interrupted <==> EverInterrupted(ops, c)
    decreases |ops|
  {
    if ops != [] {
      var n := |ops| - 1;
      Unsnoc(EMPTY_GATEWAY, ops, n);
      RunKeeps(EMPTY_GATEWAY, ops[..n]);
      if c < |Run(EMPTY_GATEWAY, ops[..n]).ctls| {
        InterruptedIff(ops[..n], c);
        EverSnoc(ops, n, c);
        InterruptedLast(ops, n, c);
      } else {
        NewRecord(Run(EMPTY_GATEWAY, ops[..n]), ops[n], c);
        EverSnoc(ops, n, c);
        forall i: nat ensures !InterruptedAt(ops[..n], i, c) { NotYetInterrupted(ops[..n], i, c); }
      }
    }
  }

  lemma {:induction false} CompletedIff(ops: seq<Op>, c: nat)
    requires LegalRun(EMPTY_GATEWAY, ops)
    ensures WorkResolves(c) in ops ==> c < |Run(EMPTY_GATEWAY, ops).ctls|
    ensures c < |Run(EMPTY_GATEWAY, ops).ctls| ==>
      (Run(EMPTY_GATEWAY, ops).ctls[c].outcome == Completed <==> WorkResolves(c) in ops)
    decreases |ops|
  {
    if ops != [] {
      var n := |ops| - 1;
      Unsnoc(EMPTY_GATEWAY, ops, n);
      RunKeeps(EMPTY_GATEWAY, ops[..n]);
      CompletedIff(ops[..n], c);
      assert WorkResolves(c) in ops <==> WorkResolves(c) in ops[..n] || ops[n] == WorkResolves(c);
      var g := Run(EMPTY_GATEWAY, ops[..n]);
      if c < |g.ctls| { RecordStep(g, ops[n], c); }
      else if c < |Run(EMPTY_GATEWAY, ops).ctls| { NewRecord(g, ops[n], c); }
    }
  }

  // ----------------------------------------------------------------------- the main result

  /** First the shutdown interrupts the request, later its work completes anyway. */
  ghost predicate ToldTwice(ops: seq<Op>, c: nat, i: nat, j: nat) {
    i < j < |ops| && InterruptedAt(ops, i, c) && ops[j] == WorkResolves(c)
  }

  lemma ResolvesLater(ops: seq<Op>, c: nat, i: nat, j: nat)
    requires LegalRun(EMPTY_GATEWAY, ops) && InterruptedAt(ops, i, c) && j < |ops| && ops[j] == WorkResolves(c)
    ensures i < j
  {
    if j < i {
      assert ops[..i][j] == WorkResolves(c);
      CompletedIff(ops[..i], c);
    }
  }

  /** A request gets two terminal events if and only if a shutdown reached it while it was running
      undisplaced on a connected socket and its work completed later; it never gets three. */
  lemma TwiceExactly(ops: seq<Op>, c: nat)
    requires LegalRun(EMPTY_GATEWAY, ops) && c < |Run(EMPTY_GATEWAY, ops).ctls|
    ensures Count(Run(EMPTY_GATEWAY, ops).log, TerminalOf(c)) <= 2
    ensures Count(Run(EMPTY_GATEWAY, ops).log, TerminalOf(c)) == 2 <==> exists i: nat, j: nat :: ToldTwice(ops, c, i, j)
  {
    TerminalEvents(ops, c);
    InterruptedIff(ops, c);
    CompletedIff(ops, c);
    if i: nat, j: nat :| ToldTwice(ops, c, i, j) {
      assert ops[j] in ops;
    }
    if EverInterrupted(ops, c) && WorkResolves(c) in ops {
      var i: nat :| InterruptedAt(ops, i, c);
      var j: nat :| j < |ops| && ops[j] == WorkResolves(c);
      ResolvesLater(ops, c, i, j);
      assert ToldTwice(ops, c, i, j);
    }
  }
}
