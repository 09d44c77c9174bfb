/** Requests in flight on the stream gateway: registered as long as request ids are not reused, and
    what happens when they are. */
module GatewayRequests {
  import opened Common
  import opened Tally
  import opened StreamGateway
  import opened GatewayLaws

  /** A request starts under an id that no unsettled request of its socket has. */
  ghost predicate OwnId(g: Gateway, op: Op) {
    op.Receive? ==>
      forall c: nat | c < |g.ctls| && g.ctls[c].outcome == Pending ::
        !(g.ctls[c].socket == op.k && g.ctls[c].requestId == op.requestId)
  }

  ghost predicate Twins(g: Gateway, c: nat, d: nat) {
    && c < |g.ctls| && d < |g.ctls| && g.ctls[c].outcome == Pending && g.ctls[d].outcome == Pending
    && g.ctls[c].socket == g.ctls[d].socket && g.ctls[c].requestId == g.ctls[d].requestId
  }

  /** No two unsettled requests of a socket share an id. */
  ghost predicate NoTwins(g: Gateway) {
    forall c: nat, d: nat | Twins(g, c, d) :: c == d
  }

  predicate Alive(ctl: Ctl) { ctl.outcome == Pending && !ctl.aborted }

  predicate SameSlot(a: Ctl, b: Ctl) { a.socket == b.socket && a.requestId == b.requestId }

  /** The step takes request `c` out of its socket's map without ending it: a request admitted under
      its id takes its place, or the handler of another request with its id cleans up. */
  predicate Displaces(g: Gateway, op: Op, c: nat) {
    && Registered(g, c)
    && match op
       case Receive(k, requestId) => !g.shuttingDown && k == g.ctls[c].socket && requestId == g.ctls[c].requestId
       case WorkResolves(d) => d != c && d < |g.ctls| && SameSlot(g.ctls[c], g.ctls[d])
       case WorkRejects(d) => d != c && d < |g.ctls| && SameSlot(g.ctls[c], g.ctls[d])
       case _ => false
  }

  /** Some step of the run displaces `c`. */
  ghost predicate Displaced(g: Gateway, ops: seq<Op>, c: nat)
    requires LegalRun(g, ops)
    decreases |ops|
  {
    ops != [] && (Displaces(g, ops[0], c) || Displaced(Step(g, ops[0]), ops[1..], c))
  }

  // ------------------------------------------------------------- registration over one step

  lemma InMap(g: Gateway, c: nat)
    requires TablesOk(g) && c < |g.ctls|
    ensures g.ctls[c].socket < |g.sockets|
    ensures Registered(g, c) <==> Slot(g.ctls[c].requestId, c) in g.sockets[g.ctls[c].socket].active
  {
    assert CtlOk(g, c) && SocketOk(g, g.ctls[c].socket);
    if Registered(g, c) {
      var s :| s in g.sockets[g.ctls[c].socket].active && s.ctl == c;
      assert SlotOk(g, g.ctls[c].socket, s);
    }
  }

  /** The slot of `c` survives the step exactly when it was there and is not displaced. */
  ghost predicate KeptUnlessDisplaced(g: Gateway, op: Op, c: nat)
    requires Legal(g, op) && c < |g.ctls|
  {
    var h := Step(g, op);
    && |g.ctls| <= |h.ctls| && SameSlot(h.ctls[c], g.ctls[c])
    && (Alive(h.ctls[c]) ==> Alive(g.ctls[c]) && (Registered(h, c) <==> Registered(g, c) && !Displaces(g, op, c)))
  }

  lemma ReceiveKeepsSlots(g: Gateway, k: nat, requestId: nat, c: nat)
    requires Inv(g) && k < |g.sockets| && c < |g.ctls|
    ensures KeptUnlessDisplaced(g, Receive(k, requestId), c)
  {
    InMap(g, c);
    StepKeeps(g, Receive(k, requestId));
    InMap(Received(g, k, requestId), c);
    assert SocketOk(g, k) && CtlOk(g, c);
    PutMembers(g.sockets[k].active, requestId, |g.ctls|);
  }

  /** Dropping an id from the map of one socket removes exactly the slot with that id. */
  lemma DroppedSlot(g: Gateway, h: Gateway, k: nat, requestId: nat, i: nat, s: Slot)
    requires TablesOk(g) && k < |g.sockets| && i < |g.sockets|
    requires h.sockets == WithActive(g, k, Drop(g.sockets[k].active, requestId)).sockets
    ensures s in h.sockets[i].active <==> s in g.sockets[i].active && !(i == k && s.requestId == requestId)
  {
    assert SocketOk(g, k);
    DropMembers(g.sockets[k].active, requestId);
  }

  /** The registration of `c` in two gateways, by its slot. */
  lemma SameRegistration(g: Gateway, h: Gateway, c: nat)
    requires TablesOk(g) && TablesOk(h) && c < |g.ctls| && c < |h.ctls| && SameSlot(h.ctls[c], g.ctls[c])
    ensures var k, s := g.ctls[c].socket, Slot(g.ctls[c].requestId, c);
            && k < |g.sockets| && k < |h.sockets|
            && (Registered(g, c) <==> s in g.sockets[k].active) && (Registered(h, c) <==> s in h.sockets[k].active)
  {
    InMap(g, c);
    InMap(h, c);
  }

  lemma SettledMap(g: Gateway, d: nat, resolved: bool)
    requires d < |g.ctls| && g.ctls[d].socket < |g.sockets|
    ensures var k := g.ctls[d].socket;
            Settled(g, d, resolved).sockets == WithActive(g, k, Drop(g.sockets[k].active, g.ctls[d].requestId)).sockets
  {
  }

  lemma SettledRegistration(g: Gateway, d: nat, resolved: bool, c: nat)
    requires Inv(g) && d < |g.ctls| && g.ctls[d].outcome == Pending && g.ctls[d].socket < |g.sockets| && c < |g.ctls|
    ensures Registered(Settled(g, d, resolved), c) <==> Registered(g, c) && !SameSlot(g.ctls[c], g.ctls[d])
  {
    SettledKeepsTables(g, d, resolved);
    SettledCtls(g, d, resolved);
    SettledMap(g, d, resolved);
    SameRegistration(g, Settled(g, d, resolved), c);
    DroppedSlot(g, Settled(g, d, resolved), g.ctls[d].socket, g.ctls[d].requestId,
      g.ctls[c].socket, Slot(g.ctls[c].requestId, c));
  }

  lemma SettleKeepsSlots(g: Gateway, op: Op, d: nat, resolved: bool, c: nat)
    requires Inv(g) && Legal(g, op) && c < |g.ctls| && op == if resolved then WorkResolves(d) else WorkRejects(d)
    ensures KeptUnlessDisplaced(g, op, c)
  {
    SettledCtls(g, d, resolved);
    SettledRegistration(g, d, resolved, c);
  }

  lemma SameRequests(g: Gateway, op: Op)
    requires Inv(g) && Legal(g, op) && !op.Receive? && !op.WorkResolves? && !op.WorkRejects?
    ensures |Step(g, op).ctls| == |g.ctls|
    ensures forall c: nat | c < |g.ctls| ::
              Step(g, op).ctls[c].(aborted := true, interrupted := true)
                  == g.ctls[c].(aborted := true, interrupted := true)
    ensures op.Shutdown? ==> Step(g, op).sockets == g.sockets
  {
    match op
    case Cancel(k, requestId) =>
      var i := Find(g.sockets[k].active, requestId);
      if i >= 0 { AbortMarks(g.ctls, [g.sockets[k].active[i]], false); }
    case ConcludeCheck(t) => AbortMarks(g.ctls, g.sockets[g.timers[t].socket].active, false);
    case Shutdown =>
      DrainingTables(g);
      Sweep(g.(shuttingDown := true), |g.sockets|);
      assert g.sockets[..|g.sockets|] == g.sockets;
    case _ =>
  }

  lemma CancelKeepsSlots(g: Gateway, k: nat, requestId: nat, c: nat)
    requires Inv(g) && Legal(g, Cancel(k, requestId)) && c < |g.ctls|
    ensures KeptUnlessDisplaced(g, Cancel(k, requestId), c)
  {
    var h, op := Cancelled(g, k, requestId), Cancel(k, requestId);
    StepKeeps(g, op);
    SameRecord(g, op, c);
    AbortExactly(g, op, c);
    SameRegistration(g, h, c);
    if Find(g.sockets[k].active, requestId) >= 0 {
      DroppedSlot(g, h, k, requestId, g.ctls[c].socket, Slot(g.ctls[c].requestId, c));
    }
  }

  lemma SameRecord(g: Gateway, op: Op, c: nat)
    requires Inv(g) && Legal(g, op) && c < |g.ctls| && !op.Receive? && !op.WorkResolves? && !op.WorkRejects?
    ensures c < |Step(g, op).ctls| && SameSlot(Step(g, op).ctls[c], g.ctls[c])
    ensures Step(g, op).ctls[c].outcome == g.ctls[c].outcome
  {
    SameRequests(g, op);
    var a, b := Step(g, op).ctls[c], g.ctls[c];
    assert a.(aborted := true, interrupted := true) == b.(aborted := true, interrupted := true);
  }

  /** Steps other than these leave the maps of authenticated sockets alone. */
  lemma SameMaps(g: Gateway, op: Op, k: nat)
    requires Inv(g) && Legal(g, op) && k < |g.sockets| && g.sockets[k].user.Some?
    requires !op.Receive? && !op.WorkResolves? && !op.WorkRejects? && !op.Cancel?
    ensures k < |Step(g, op).sockets| && Step(g, op).sockets[k].active == g.sockets[k].active
  {
    if op.Shutdown? { SameRequests(g, op); }
  }

  lemma OthersKeepSlots(g: Gateway, op: Op, c: nat)
    requires Inv(g) && Legal(g, op) && c < |g.ctls|
    requires !op.Receive? && !op.WorkResolves? && !op.WorkRejects? && !op.Cancel?
    ensures KeptUnlessDisplaced(g, op, c)
  {
    StepKeeps(g, op);
    SameRequests(g, op);
    SameRecord(g, op, c);
    AbortExactly(g, op, c);
    assert CtlOk(g, c);
    SameMaps(g, op, g.ctls[c].socket);
    SameRegistration(g, Step(g, op), c);
  }

  lemma StepSlots(g: Gateway, op: Op, c: nat)
    requires Inv(g) && Legal(g, op) && c < |g.ctls|
    ensures KeptUnlessDisplaced(g, op, c)
  {
    match op
    case Receive(k, requestId) => ReceiveKeepsSlots(g, k, requestId, c);
    case WorkResolves(d) => SettleKeepsSlots(g, op, d, true, c);
    case WorkRejects(d) => SettleKeepsSlots(g, op, d, false, c);
    case Cancel(k, requestId) => CancelKeepsSlots(g, k, requestId, c);
    case _ => OthersKeepSlots(g, op, c);
  }

  /** A request is in its socket's map when it starts. */
  lemma StartsRegistered(g: Gateway, op: Op, c: nat)
    requires Inv(g) && Legal(g, op) && |g.ctls| <= c < |Step(g, op).ctls|
    ensures Registered(Step(g, op), c)
  {
    if op.Receive? {
      assert SocketOk(g, op.k);
      PutMembers(g.sockets[op.k].active, op.requestId, |g.ctls|);
      assert Slot(op.requestId, c) in Step(g, op).sockets[op.k].active;
    } else if !op.WorkResolves? && !op.WorkRejects? {
      SameRequests(g, op);
    }
  }

  // -------------------------------------------------------------------- over whole runs

  lemma {:induction false} AliveBefore(g: Gateway, ops: seq<Op>, c: nat)
    requires Inv(g) && LegalRun(g, ops) && c < |g.ctls|
    ensures c < |Run(g, ops).ctls| && (Alive(Run(g, ops).ctls[c]) ==> Alive(g.ctls[c]))
    decreases |ops|
  {
    if ops != [] {
      StepKeeps(g, ops[0]);
      StepSlots(g, ops[0], c);
      AliveBefore(Step(g, ops[0]), ops[1..], c);
    }
  }

  /** A request still alive at the end of a run is registered if and only if it was registered at
      the start, or started since, and no step of the run displaced it. */
  lemma {:induction false} RegisteredExactly(g: Gateway, ops: seq<Op>, c: nat)
    requires Inv(g) && LegalRun(g, ops) && c < |Run(g, ops).ctls| && Alive(Run(g, ops).ctls[c])
    ensures Registered(Run(g, ops), c) <==> (c < |g.ctls| ==> Registered(g, c)) && !Displaced(g, ops, c)
    decreases |ops|
  {
    if ops != [] {
      var h := Step(g, ops[0]);
      StepKeeps(g, ops[0]);
      RegisteredExactly(h, ops[1..], c);
      if c < |g.ctls| {
        StepSlots(g, ops[0], c);
        AliveBefore(h, ops[1..], c);
      } else if c < |h.ctls| {
        StartsRegistered(g, ops[0], c);
      }
    }
  }

  /** Of the requests still alive at shutdown, exactly those on a connected socket that no step of
      the run displaced get their one `interrupted` event and are aborted; the others hang. */
  lemma InterruptedExactly(ops: seq<Op>, c: nat)
    requires LegalRun(EMPTY_GATEWAY, ops) && Legal(Run(EMPTY_GATEWAY, ops), Shutdown)
    requires c < |Run(EMPTY_GATEWAY, ops).ctls| && Alive(Run(EMPTY_GATEWAY, ops).ctls[c])
    ensures var g := Run(EMPTY_GATEWAY, ops); var h := Step(g, Shutdown); var k := g.ctls[c].socket;
            && k < |g.sockets| && c < |h.ctls|
            && (h.ctls[c].aborted <==> g.sockets[k].connected && !Displaced(EMPTY_GATEWAY, ops, c))
            && Count(h.log, InterruptOf(c)) == One(h.ctls[c].aborted)
  {
    var g := Run(EMPTY_GATEWAY, ops);
    RunKeeps(EMPTY_GATEWAY, ops);
    RegisteredExactly(EMPTY_GATEWAY, ops, c);
    assert CtlOk(g, c);
    ShutdownNotifiesExactly(g, c);
  }

  // ------------------------------------------------------------------- ids not reused

  ghost predicate OwnIds(g: Gateway, ops: seq<Op>)
    requires LegalRun(g, ops)
    decreases |ops|
  {
    ops == [] || (OwnId(g, ops[0]) && OwnIds(Step(g, ops[0]), ops[1..]))
  }

  lemma OwnIdDisplacesNone(g: Gateway, op: Op, c: nat)
    requires Inv(g) && Legal(g, op) && NoTwins(g) && OwnId(g, op)
    ensures !Displaces(g, op, c)
  {
    if Displaces(g, op, c) {
      RegisteredPending(g, c);
      match op
      case WorkResolves(d) => assert Twins(g, c, d);
      case WorkRejects(d) => assert Twins(g, c, d);
      case _ =>
    }
  }

  lemma PendingBefore(g: Gateway, op: Op, c: nat)
    requires Inv(g) && Legal(g, op) && c < |g.ctls| && c < |Step(g, op).ctls|
    ensures Step(g, op).ctls[c].outcome == Pending ==> g.ctls[c].outcome == Pending
    ensures SameSlot(Step(g, op).ctls[c], g.ctls[c])
  {
    match op
    case Receive(k, requestId) => ReceivedCtls(g, k, requestId);
    case WorkResolves(d) => SettledCtls(g, d, true);
    case WorkRejects(d) => SettledCtls(g, d, false);
    case _ => SameRecord(g, op, c);
  }

  lemma NewTwin(g: Gateway, op: Op, c: nat, d: nat)
    requires Inv(g) && Legal(g, op) && OwnId(g, op) && |g.ctls| <= d && Twins(Step(g, op), c, d)
    ensures c == d
  {
    match op
    case Receive(k, requestId) =>
      ReceivedCtls(g, k, requestId);
    case WorkResolves(e) => SettledCtls(g, e, true);
    case WorkRejects(e) => SettledCtls(g, e, false);
    case _ => SameRequests(g, op);
  }

  lemma NoTwinsStep(g: Gateway, op: Op)
    requires Inv(g) && Legal(g, op) && NoTwins(g) && OwnId(g, op)
    ensures NoTwins(Step(g, op))
  {
    forall c: nat, d: nat | Twins(Step(g, op), c, d) ensures c == d {
      if c < |g.ctls| && d < |g.ctls| {
        PendingBefore(g, op, c);
        PendingBefore(g, op, d);
        assert Twins(g, c, d);
      } else if d >= |g.ctls| {
        NewTwin(g, op, c, d);
      } else {
        NewTwin(g, op, d, c);
      }
    }
  }

  lemma {:induction false} OwnIdsDisplaceNone(g: Gateway, ops: seq<Op>, c: nat)
    requires Inv(g) && LegalRun(g, ops) && NoTwins(g) && OwnIds(g, ops)
    ensures !Displaced(g, ops, c)
    decreases |ops|
  {
    if ops != [] {
      StepKeeps(g, ops[0]);
      OwnIdDisplacesNone(g, ops[0], c);
      NoTwinsStep(g, ops[0]);
      OwnIdsDisplaceNone(Step(g, ops[0]), ops[1..], c);
    }
  }

  /** With ids not reused while in flight, shutdown leaves no request hanging: every unsettled,
      unaborted request of a connected socket gets exactly one `interrupted` and is aborted. */
  lemma NobodyHangs(ops: seq<Op>, c: nat)
    requires LegalRun(EMPTY_GATEWAY, ops) && OwnIds(EMPTY_GATEWAY, ops) && Legal(Run(EMPTY_GATEWAY, ops), Shutdown)
    requires var g := Run(EMPTY_GATEWAY, ops);
             c < |g.ctls| && g.ctls[c].outcome == Pending && !g.ctls[c].aborted && g.ctls[c].socket < |g.sockets|
                 && g.sockets[g.ctls[c].socket].connected
    ensures var h := Step(Run(EMPTY_GATEWAY, ops), Shutdown);
            c < |h.ctls| && h.ctls[c].aborted && Count(h.log, InterruptOf(c)) == 1
  {
    OwnIdsDisplaceNone(EMPTY_GATEWAY, ops, c);
    InterruptedExactly(ops, c);
  }

  // ------------------------------------------------------------------------- witnesses

  lemma RunCons(g: Gateway, op: Op, ops: seq<Op>)
    requires Legal(g, op) && LegalRun(Step(g, op), ops)
    ensures LegalRun(g, [op] + ops) && Run(g, [op] + ops) == Run(Step(g, op), ops)
  {
    assert ([op] + ops)[1..] == ops;
  }

  lemma RunSnoc(g: Gateway, ops: seq<Op>, op: Op)
    requires LegalRun(g, ops) && Legal(Run(g, ops), op)
    ensures LegalRun(g, ops + [op]) && Run(g, ops + [op]) == Step(Run(g, ops), op)
    decreases |ops|
  {
    if ops == [] {
      assert [] + [op] == [op];
      RunCons(g, op, []);
      assert [op] + [] == [op];
    } else {
      assert (ops + [op])[0] == ops[0] && (ops + [op])[1..] == ops[1..] + [op];
      RunSnoc(Step(g, ops[0]), ops[1..], op);
    }
  }

  /** One authenticated socket with one request. */
  lemma OneRequest(user: nat, requestId: nat)
    ensures var ops := [Connect, Authenticate(0, user), Receive(0, requestId)];
            LegalRun(EMPTY_GATEWAY, ops)
            && Run(EMPTY_GATEWAY, ops) == Gateway(false, [Socket(Some(user), true, [Slot(requestId, 0)])],
                 [Ctl(0, requestId, user, false, false, Pending)], [], [Event(user, requestId, Started, Some(0))])
  {
    var a := Step(EMPTY_GATEWAY, Connect);
    var b := Step(a, Authenticate(0, user));
    assert a.sockets == [Socket(None, true, [])] && b.sockets == [Socket(Some(user), true, [])];
    var c := Step(b, Receive(0, requestId));
    assert Put([], requestId, 0) == [Slot(requestId, 0)];
    assert c.sockets == [Socket(Some(user), true, [Slot(requestId, 0)])];
    assert c.ctls == [Ctl(0, requestId, user, false, false, Pending)]
        && c.log == [Event(user, requestId, Started, Some(0))];
    RunSnoc(EMPTY_GATEWAY, [], Connect);
    assert [] + [Connect] == [Connect];
    RunSnoc(EMPTY_GATEWAY, [Connect], Authenticate(0, user));
    assert [Connect] + [Authenticate(0, user)] == [Connect, Authenticate(0, user)];
    RunSnoc(EMPTY_GATEWAY, [Connect, Authenticate(0, user)], Receive(0, requestId));
    assert [Connect, Authenticate(0, user)] + [Receive(0, requestId)]
        == [Connect, Authenticate(0, user), Receive(0, requestId)];
  }

  /** A request interrupted by shutdown whose work completes all the same gets two terminal events. */
  lemma TwoTerminalEvents(user: nat, requestId: nat)
    ensures var ops := [Connect, Authenticate(0, user), Receive(0, requestId)] + [Shutdown] + [WorkResolves(0)];
            LegalRun(EMPTY_GATEWAY, ops) && |Run(EMPTY_GATEWAY, ops).ctls| == 1
                && Count(Run(EMPTY_GATEWAY, ops).log, TerminalOf(0)) == 2
  {
    var ops := [Connect, Authenticate(0, user), Receive(0, requestId)];
    OneRequest(user, requestId);
    var g := Run(EMPTY_GATEWAY, ops);
    RunKeeps(EMPTY_GATEWAY, ops);
    assert Slot(requestId, 0) in g.sockets[0].active;
    ShutdownNotifiesExactly(g, 0);
    RunSnoc(EMPTY_GATEWAY, ops, Shutdown);
    RunSnoc(EMPTY_GATEWAY, ops + [Shutdown], WorkResolves(0));
    TerminalEvents(ops + [Shutdown] + [WorkResolves(0)], 0);
  }

  lemma TwoRequests(user: nat, requestId: nat) returns (g: Gateway)
    ensures var ops := [Connect, Authenticate(0, user), Receive(0, requestId)] + [Receive(0, requestId)];
            LegalRun(EMPTY_GATEWAY, ops) && g == Run(EMPTY_GATEWAY, ops)
    ensures Inv(g) && !g.shuttingDown && |g.ctls| == 2 && g.ctls[0] == Ctl(0, requestId, user, false, false, Pending)
    ensures |g.sockets| == 1 && g.sockets[0].active == [Slot(requestId, 1)]
  {
    var ops := [Connect, Authenticate(0, user), Receive(0, requestId)];
    OneRequest(user, requestId);
    RunSnoc(EMPTY_GATEWAY, ops, Receive(0, requestId));
    g := Run(EMPTY_GATEWAY, ops + [Receive(0, requestId)]);
    RunKeeps(EMPTY_GATEWAY, ops + [Receive(0, requestId)]);
    assert Put([Slot(requestId, 0)], requestId, 1) == [Slot(requestId, 1)];
  }

  lemma SilentAfterShutdown(g: Gateway, c: nat)
    requires Inv(g) && Legal(g, Shutdown) && c < |g.ctls| && !Registered(g, c) && g.ctls[c].outcome == Pending
    ensures c < |Step(g, Shutdown).ctls| && Step(g, Shutdown).ctls[c] == g.ctls[c]
    ensures Count(Step(g, Shutdown).log, TerminalOf(c)) == 0
  {
    ShutdownNotifiesExactly(g, c);
    StepKeeps(g, Shutdown);
    assert CtlOk(g, c);
  }

  /** A second request under the same id takes the first one's place in the map: shutdown does not
      notify the first, although it is still running. */
  lemma ReusedIdHangs(user: nat, requestId: nat)
    ensures var ops := [Connect, Authenticate(0, user), Receive(0, requestId)] + [Receive(0, requestId)];
            && LegalRun(EMPTY_GATEWAY, ops) && Legal(Run(EMPTY_GATEWAY, ops), Shutdown)
            && (var h := Step(Run(EMPTY_GATEWAY, ops), Shutdown);
                |h.ctls| == 2 && h.ctls[0].outcome == Pending && !h.ctls[0].aborted && Count(h.log, TerminalOf(0)) == 0)
  {
    var g := TwoRequests(user, requestId);
    SilentAfterShutdown(g, 0);
    ShutdownAddsNone(g);
  }
}
