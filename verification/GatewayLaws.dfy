/** What the stream gateway guarantees over all interleavings: who may abort a request, what shutdown
    does, and how many terminal events a request gets. */
module GatewayLaws {
  import opened Common
  import opened Tally
  import opened StreamGateway

  function TerminalOf(c: nat): Event -> bool { (e: Event) => e.ctl == Some(c) && e.kind != Started }

  function InterruptOf(c: nat): Event -> bool { (e: Event) => e.ctl == Some(c) && e.kind == Interrupted }

  predicate Registered(g: Gateway, c: nat) {
    c < |g.ctls| && g.ctls[c].socket < |g.sockets| && Holds(g.sockets[g.ctls[c].socket].active, c)
  }

  predicate SlotOk(g: Gateway, k: nat, s: Slot)
    requires k < |g.sockets|
  {
    && s.ctl < |g.ctls| && g.ctls[s.ctl].socket == k && g.ctls[s.ctl].requestId == s.requestId
    && g.ctls[s.ctl].outcome == Pending && g.sockets[k].user == Some(g.ctls[s.ctl].user)
  }

  ghost predicate SocketOk(g: Gateway, k: nat)
    requires k < |g.sockets|
  {
    UniqueIds(g.sockets[k].active) && forall s <- g.sockets[k].active :: SlotOk(g, k, s)
  }

  predicate CtlOk(g: Gateway, c: nat)
    requires c < |g.ctls|
  {
    var ctl := g.ctls[c];
    && ctl.socket < |g.sockets| && g.sockets[ctl.socket].user == Some(ctl.user)
    && (ctl.interrupted ==> ctl.aborted && g.shuttingDown && ctl.outcome != Failed)
  }

  predicate TimerOk(g: Gateway, t: Timer) {
    t.socket < |g.sockets| && !g.sockets[t.socket].connected && g.sockets[t.socket].user == Some(t.user)
  }

  function One(b: bool): nat { if b then 1 else 0 }

  predicate Told(ctl: Ctl) { ctl.outcome == Completed || ctl.outcome == Failed }

  ghost predicate LogOk(g: Gateway) {
    && (forall e <- g.log :: e.ctl.Some? ==> e.ctl.value < |g.ctls|)
    && (forall c: nat | c < |g.ctls| ::
          && Count(g.log, TerminalOf(c)) == One(g.ctls[c].interrupted) + One(Told(g.ctls[c]))
          && Count(g.log, InterruptOf(c)) == One(g.ctls[c].interrupted))
  }

  ghost predicate TablesOk(g: Gateway) {
    && (forall k: nat | k < |g.sockets| :: SocketOk(g, k))
    && (forall c: nat | c < |g.ctls| :: CtlOk(g, c))
    && (forall t <- g.timers :: TimerOk(g, t))
  }

  ghost predicate Inv(g: Gateway) { TablesOk(g) && LogOk(g) }

  // -------------------------------------------------------------------- aborting and events

  ghost predicate UniqueCtls(slots: seq<Slot>) {
    forall i, j | 0 <= i < j < |slots| :: slots[i].ctl != slots[j].ctl
  }

  lemma SocketCtlsUnique(g: Gateway, k: nat)
    requires k < |g.sockets| && SocketOk(g, k)
    ensures UniqueCtls(g.sockets[k].active)
  {
    var a := g.sockets[k].active;
    forall i, j | 0 <= i < j < |a| ensures a[i].ctl != a[j].ctl {
      assert a[i] in a && a[j] in a;
    }
  }

  lemma {:induction false} CountInterrupts(user: nat, slots: seq<Slot>, c: nat)
    requires UniqueCtls(slots)
    ensures Count(InterruptEvents(user, slots), InterruptOf(c)) == One(Holds(slots, c))
    ensures Count(InterruptEvents(user, slots), TerminalOf(c)) == One(Holds(slots, c))
    decreases |slots|
  {
    if slots != [] {
      var rest := slots[1..];
      CountInterrupts(user, rest, c);
      assert InterruptEvents(user, slots)[1..] == InterruptEvents(user, rest);
      assert forall s :: s in slots <==> s == slots[0] || s in rest;
      forall s <- rest ensures s.ctl != slots[0].ctl {
        var j :| 0 <= j < |rest| && rest[j] == s;
        assert slots[j + 1] == s;
      }
    }
  }

  /** A request that shutdown reaches: registered on a connected, authenticated socket. */
  predicate Hit(g: Gateway, c: nat, upto: nat) {
    Registered(g, c) && g.ctls[c].socket < upto && Reached(g.sockets[g.ctls[c].socket])
  }

  /** After the first `upto` sockets, exactly the requests hit are marked, with one event each. */
  ghost predicate Swept(g: Gateway, h: Gateway, upto: nat) {
    && |h.ctls| == |g.ctls| && h == g.(ctls := h.ctls, log := h.log)
    && (forall c: nat | c < |g.ctls| ::
          && h.ctls[c] == MarkedBy(g.ctls[c], Hit(g, c, upto), true)
          && Count(h.log, InterruptOf(c)) == Count(g.log, InterruptOf(c)) + One(Hit(g, c, upto))
          && Count(h.log, TerminalOf(c)) == Count(g.log, TerminalOf(c)) + One(Hit(g, c, upto)))
    && (forall e <- h.log :: e in g.log || (e.ctl.Some? && e.ctl.value < |g.ctls|))
  }

  lemma HitNext(g: Gateway, c: nat, k: nat)
    requires TablesOk(g) && c < |g.ctls| && k < |g.sockets|
    ensures Hit(g, c, k + 1) <==> Hit(g, c, k) || (Reached(g.sockets[k]) && Holds(g.sockets[k].active, c))
    ensures !(Hit(g, c, k) && Holds(g.sockets[k].active, c))
  {
    assert SocketOk(g, k);
  }

  lemma SweepOne(g: Gateway, h: Gateway, k: nat)
    requires TablesOk(g) && k < |g.sockets| && Swept(g, h, k)
    ensures Swept(g, InterruptSocket(h, g.sockets[k]), k + 1)
  {
    var s := g.sockets[k];
    var h' := InterruptSocket(h, s);
    forall c: nat | c < |g.ctls|
      ensures h'.ctls[c] == MarkedBy(g.ctls[c], Hit(g, c, k + 1), true)
      ensures Count(h'.log, InterruptOf(c)) == Count(g.log, InterruptOf(c)) + One(Hit(g, c, k + 1))
      ensures Count(h'.log, TerminalOf(c)) == Count(g.log, TerminalOf(c)) + One(Hit(g, c, k + 1))
    {
      HitNext(g, c, k);
      if Reached(s) { SweepCounts(g, h, k, c); }
    }
    if Reached(s) {
      assert SocketOk(g, k);
      forall e <- h'.log ensures e in g.log || (e.ctl.Some? && e.ctl.value < |g.ctls|) {
        if e !in h.log {
          assert e in InterruptEvents(s.user.value, s.active);
          var i :| 0 <= i < |s.active| && InterruptEvents(s.user.value, s.active)[i] == e;
          assert s.active[i] in s.active && SlotOk(g, k, s.active[i]);
        }
      }
    }
  }

  lemma SweepCounts(g: Gateway, h: Gateway, k: nat, c: nat)
    requires TablesOk(g) && k < |g.sockets| && c < |g.ctls| == |h.ctls| && Reached(g.sockets[k])
    ensures var s := g.sockets[k]; var h' := InterruptSocket(h, s);
            && h'.ctls[c] == MarkedBy(h.ctls[c], Holds(s.active, c), true)
            && Count(h'.log, InterruptOf(c)) == Count(h.log, InterruptOf(c)) + One(Holds(s.active, c))
            && Count(h'.log, TerminalOf(c)) == Count(h.log, TerminalOf(c)) + One(Holds(s.active, c))
  {
    var s := g.sockets[k];
    AbortMarks(h.ctls, s.active, true);
    SocketCtlsUnique(g, k);
    var es := InterruptEvents(s.user.value, s.active);
    CountInterrupts(s.user.value, s.active, c);
    CountAppend(h.log, es, InterruptOf(c));
    CountAppend(h.log, es, TerminalOf(c));
  }

  lemma {:induction false} Sweep(g: Gateway, upto: nat)
    requires TablesOk(g) && upto <= |g.sockets|
    ensures Swept(g, InterruptSockets(g, g.sockets[..upto]), upto)
  {
    if upto > 0 {
      Sweep(g, upto - 1);
      assert g.sockets[..upto][..upto - 1] == g.sockets[..upto - 1];
      SweepOne(g, InterruptSockets(g, g.sockets[..upto - 1]), upto - 1);
    }
  }

  lemma DrainingTables(g: Gateway)
    requires TablesOk(g)
    ensures TablesOk(g.(shuttingDown := true))
  {
    var s := g.(shuttingDown := true);
    forall k: nat | k < |s.sockets| ensures SocketOk(s, k) { assert SocketOk(g, k); }
    forall c: nat | c < |s.ctls| ensures CtlOk(s, c) { assert CtlOk(g, c); }
    forall t <- s.timers ensures TimerOk(s, t) { assert TimerOk(g, t); }
  }

  /** Shutdown sends exactly one `interrupted` to every request registered on a connected local
      socket, aborts it, and touches no other request. */
  lemma ShutdownNotifiesExactly(g: Gateway, c: nat)
    requires Inv(g) && Legal(g, Shutdown) && c < |g.ctls|
    ensures var h := Step(g, Shutdown);
            var hit := Registered(g, c) && Reached(g.sockets[g.ctls[c].socket]);
            && h.shuttingDown && h.sockets == g.sockets && |h.ctls| == |g.ctls|
            && Count(h.log, InterruptOf(c)) - Count(g.log, InterruptOf(c)) == One(hit)
            && h.ctls[c] == if hit then g.ctls[c].(aborted := true, interrupted := true) else g.ctls[c]
  {
    var s := g.(shuttingDown := true);
    DrainingTables(g);
    Sweep(s, |s.sockets|);
    assert s.sockets[..|s.sockets|] == s.sockets;
  }

  // ------------------------------------------------------------- every step keeps the tables

  lemma AbortKeepsTables(g: Gateway, h: Gateway, slots: seq<Slot>, byShutdown: bool)
    requires TablesOk(g) && h == g.(ctls := AbortSlots(g.ctls, slots, byShutdown)) && !byShutdown
    ensures TablesOk(h)
  {
    AbortMarks(g.ctls, slots, byShutdown);
    forall k: nat | k < |h.sockets| ensures SocketOk(h, k) {
      assert SocketOk(g, k);
      forall s <- h.sockets[k].active ensures SlotOk(h, k, s) { assert SlotOk(g, k, s); }
    }
    forall c: nat | c < |h.ctls| ensures CtlOk(h, c) { assert CtlOk(g, c); }
    forall t <- h.timers ensures TimerOk(h, t) { assert TimerOk(g, t); }
  }

  lemma ShutdownKeepsTables(g: Gateway)
    requires Inv(g) && Legal(g, Shutdown)
    ensures TablesOk(Step(g, Shutdown))
  {
    var h := Step(g, Shutdown);
    var s := g.(shuttingDown := true);
    DrainingTables(g);
    Sweep(s, |s.sockets|);
    assert s.sockets[..|s.sockets|] == s.sockets;
    forall k: nat | k < |h.sockets| ensures SocketOk(h, k) {
      assert SocketOk(s, k);
      forall x <- h.sockets[k].active ensures SlotOk(h, k, x) { assert SlotOk(s, k, x); }
    }
    forall c: nat | c < |h.ctls| ensures CtlOk(h, c) {
      assert CtlOk(s, c);
      if Hit(s, c, |s.sockets|) { RegisteredPending(s, c); }
    }
    forall t <- h.timers ensures TimerOk(h, t) { assert TimerOk(s, t); }
  }

  lemma RegisteredPending(g: Gateway, c: nat)
    requires TablesOk(g) && Registered(g, c)
    ensures g.ctls[c].outcome == Pending
  {
    var k := g.ctls[c].socket;
    assert SocketOk(g, k);
    var s :| s in g.sockets[k].active && s.ctl == c;
    assert SlotOk(g, k, s);
  }

  lemma ShutdownKeepsLog(g: Gateway)
    requires Inv(g) && Legal(g, Shutdown)
    ensures LogOk(Step(g, Shutdown))
  {
    var h := Step(g, Shutdown);
    var s := g.(shuttingDown := true);
    DrainingTables(g);
    Sweep(s, |s.sockets|);
    assert s.sockets[..|s.sockets|] == s.sockets;
    forall c: nat | c < |h.ctls|
      ensures Count(h.log, TerminalOf(c)) == One(h.ctls[c].interrupted) + One(Told(h.ctls[c]))
      ensures Count(h.log, InterruptOf(c)) == One(h.ctls[c].interrupted)
    {
      assert CtlOk(g, c);
    }
  }

  lemma CountOne(log: seq<Event>, e: Event, c: nat)
    ensures Count(log + [e], TerminalOf(c)) == Count(log, TerminalOf(c)) + One(e.ctl == Some(c) && e.kind != Started)
    ensures Count(log + [e], InterruptOf(c))
        == Count(log, InterruptOf(c)) + One(e.ctl == Some(c) && e.kind == Interrupted)
  {
    CountAppend(log, [e], TerminalOf(c));
    CountAppend(log, [e], InterruptOf(c));
  }

  lemma {:induction false} CountAbsent(log: seq<Event>, c: nat)
    requires forall e <- log :: e.ctl != Some(c)
    ensures Count(log, TerminalOf(c)) == 0 && Count(log, InterruptOf(c)) == 0
  {
    if log != [] {
      assert log[0] in log;
      CountAbsent(log[1..], c);
    }
  }

  lemma ReceivedKeepsTables(g: Gateway, k: nat, requestId: nat)
    requires Inv(g) && k < |g.sockets| && g.sockets[k].user.Some? && !g.shuttingDown
    ensures TablesOk(Received(g, k, requestId))
  {
    var h := Received(g, k, requestId);
    assert SocketOk(g, k);
    PutMembers(g.sockets[k].active, requestId, |g.ctls|);
    forall i: nat | i < |h.sockets| ensures SocketOk(h, i) {
      assert SocketOk(g, i);
      forall x <- h.sockets[i].active ensures SlotOk(h, i, x) {
        if x != Slot(requestId, |g.ctls|) { assert SlotOk(g, i, x); }
        else if i != k { assert SlotOk(g, i, x); }
      }
    }
    forall c: nat | c < |h.ctls| ensures CtlOk(h, c) {
      if c < |g.ctls| { assert CtlOk(g, c); }
    }
    forall t <- h.timers ensures TimerOk(h, t) { assert TimerOk(g, t); }
  }

  lemma ReceivedKeepsLog(g: Gateway, k: nat, requestId: nat)
    requires Inv(g) && k < |g.sockets|
    ensures LogOk(Received(g, k, requestId))
  {
    var h := Received(g, k, requestId);
    if h.log != g.log {
      var e := h.log[|g.log|];
      assert h.log == g.log + [e];
      forall c: nat | c < |h.ctls|
        ensures Count(h.log, TerminalOf(c)) == One(h.ctls[c].interrupted) + One(Told(h.ctls[c]))
        ensures Count(h.log, InterruptOf(c)) == One(h.ctls[c].interrupted)
      {
        CountOne(g.log, e, c);
        if c == |g.ctls| { CountAbsent(g.log, c); }
      }
    }
  }

  lemma SettledKeepsTables(g: Gateway, c: nat, resolved: bool)
    requires Inv(g) && c < |g.ctls| && g.ctls[c].outcome == Pending
    ensures g.ctls[c].socket < |g.sockets| && TablesOk(Settled(g, c, resolved))
  {
    assert CtlOk(g, c);
    var k, h := g.ctls[c].socket, Settled(g, c, resolved);
    assert SocketOk(g, k);
    DropMembers(g.sockets[k].active, g.ctls[c].requestId);
    forall i: nat | i < |h.sockets| ensures SocketOk(h, i) {
      assert SocketOk(g, i);
      forall x <- h.sockets[i].active ensures SlotOk(h, i, x) { assert SlotOk(g, i, x); }
    }
    forall x: nat | x < |h.ctls| ensures CtlOk(h, x) { assert CtlOk(g, x); }
    forall t <- h.timers ensures TimerOk(h, t) { assert TimerOk(g, t); }
  }

  lemma SettledKeepsLog(g: Gateway, c: nat, resolved: bool)
    requires Inv(g) && c < |g.ctls| && g.ctls[c].outcome == Pending && g.ctls[c].socket < |g.sockets|
    ensures LogOk(Settled(g, c, resolved))
  {
    var h := Settled(g, c, resolved);
    if h.log != g.log {
      var e := h.log[|g.log|];
      assert h.log == g.log + [e];
      forall x: nat | x < |h.ctls|
        ensures Count(h.log, TerminalOf(x)) == One(h.ctls[x].interrupted) + One(Told(h.ctls[x]))
        ensures Count(h.log, InterruptOf(x)) == One(h.ctls[x].interrupted)
      {
        CountOne(g.log, e, x);
      }
    }
  }

  lemma CancelKeepsTables(g: Gateway, k: nat, requestId: nat)
    requires TablesOk(g) && k < |g.sockets|
    ensures TablesOk(Cancelled(g, k, requestId))
  {
    var h, i := Cancelled(g, k, requestId), Find(g.sockets[k].active, requestId);
    if i >= 0 {
      var m := g.(ctls := AbortSlots(g.ctls, [g.sockets[k].active[i]], false));
      AbortKeepsTables(g, m, [g.sockets[k].active[i]], false);
      assert SocketOk(m, k);
      DropMembers(g.sockets[k].active, requestId);
      forall j: nat | j < |h.sockets| ensures SocketOk(h, j) {
        assert SocketOk(m, j);
        forall x <- h.sockets[j].active ensures SlotOk(h, j, x) { assert SlotOk(m, j, x); }
      }
      forall c: nat | c < |h.ctls| ensures CtlOk(h, c) { assert CtlOk(m, c); }
      forall t <- h.timers ensures TimerOk(h, t) { assert TimerOk(m, t); }
    }
  }

  /** Abort marks without shutdown leave outcomes and interrupts alone. */
  lemma AbortKeepsLog(g: Gateway, h: Gateway, slots: seq<Slot>)
    requires LogOk(g) && h.log == g.log && h.ctls == AbortSlots(g.ctls, slots, false)
    ensures LogOk(h)
  {
    AbortMarks(g.ctls, slots, false);
  }

  predicate IsQuiet(op: Op) { op.Connect? || op.Authenticate? || op.Disconnect? || op.TimerFires? || op.Observe? }

  /** Connections, authentication, disconnects and timers leave controllers and events alone. */
  lemma QuietKeeps(g: Gateway, op: Op)
    requires Inv(g) && Legal(g, op) && IsQuiet(op)
    ensures Inv(Step(g, op))
  {
    var h := Step(g, op);
    assert h.ctls == g.ctls && h.log == g.log;
    if op.Authenticate? { assert SocketOk(g, op.k); }
    forall k: nat | k < |h.sockets| ensures SocketOk(h, k) {
      if k < |g.sockets| {
        assert SocketOk(g, k);
        forall x <- h.sockets[k].active ensures SlotOk(h, k, x) { assert SlotOk(g, k, x); }
      }
    }
    forall c: nat | c < |h.ctls| ensures CtlOk(h, c) { assert CtlOk(g, c); }
    forall t <- h.timers ensures TimerOk(h, t) {
      if t in g.timers { assert TimerOk(g, t); }
      else if op.TimerFires? || op.Observe? { assert TimerOk(g, g.timers[op.t]); }
    }
  }

  lemma ConcludeKeeps(g: Gateway, t: nat)
    requires Inv(g) && Legal(g, ConcludeCheck(t))
    ensures Inv(Concluded(g, t))
  {
    var m := StageSet(g, t, Over);
    assert TimerOk(g, g.timers[t]);
    forall k: nat | k < |m.sockets| ensures SocketOk(m, k) { assert SocketOk(g, k); }
    forall c: nat | c < |m.ctls| ensures CtlOk(m, c) { assert CtlOk(g, c); }
    forall x <- m.timers ensures TimerOk(m, x) { if x in g.timers { assert TimerOk(g, x); } }
    var slots := g.sockets[g.timers[t].socket].active;
    var h := Concluded(g, t);
    if h.ctls != m.ctls {
      AbortKeepsTables(m, h, slots, false);
      AbortKeepsLog(m, h, slots);
    }
  }

  lemma StepKeeps(g: Gateway, op: Op)
    requires Inv(g) && Legal(g, op)
    ensures Inv(Step(g, op))
  {
    match op
    case ConcludeCheck(t) => ConcludeKeeps(g, t);
    case Receive(k, requestId) =>
      ReceivedKeepsLog(g, k, requestId);
      if g.sockets[k].user.Some? && !g.shuttingDown { ReceivedKeepsTables(g, k, requestId); }
      else { RefusedKeepsTables(g, Received(g, k, requestId)); }
    case WorkResolves(c) => SettledKeepsTables(g, c, true); SettledKeepsLog(g, c, true);
    case WorkRejects(c) => SettledKeepsTables(g, c, false); SettledKeepsLog(g, c, false);
    case Cancel(k, requestId) =>
      CancelKeepsTables(g, k, requestId);
      var i := Find(g.sockets[k].active, requestId);
      if i >= 0 { AbortKeepsLog(g, Cancelled(g, k, requestId), [g.sockets[k].active[i]]); }
    case Shutdown => ShutdownKeepsTables(g); ShutdownKeepsLog(g);
    case _ => QuietKeeps(g, op);
  }

  lemma RefusedKeepsTables(g: Gateway, h: Gateway)
    requires TablesOk(g) && h == g.(log := h.log)
    ensures TablesOk(h)
  {
    forall k: nat | k < |h.sockets| ensures SocketOk(h, k) { assert SocketOk(g, k); }
    forall c: nat | c < |h.ctls| ensures CtlOk(h, c) { assert CtlOk(g, c); }
    forall t <- h.timers ensures TimerOk(h, t) { assert TimerOk(g, t); }
  }

  lemma {:induction false} RunKeeps(g: Gateway, ops: seq<Op>)
    requires Inv(g) && LegalRun(g, ops)
    ensures Inv(Run(g, ops))
    decreases |ops|
  {
    if ops != [] {
      StepKeeps(g, ops[0]);
      RunKeeps(Step(g, ops[0]), ops[1..]);
    }
  }

  // ---------------------------------------------------------------------- abort provenance

  /** What may abort request `c`: a cancel naming it on its own socket; the end of a grace check of
      its own socket that saw no live socket or failed; a shutdown that reaches its socket. */
  predicate Causes(g: Gateway, op: Op, c: nat) {
    && Registered(g, c)
    && match op
       case Cancel(k, requestId) => k == g.ctls[c].socket && requestId == g.ctls[c].requestId
       case ConcludeCheck(t) =>
         t < |g.timers| && g.timers[t].socket == g.ctls[c].socket
             && (g.timers[t].stage == Saw(None) || g.timers[t].stage == Saw(Some(0)))
       case Shutdown => Reached(g.sockets[g.ctls[c].socket])
       case _ => false
  }

  lemma CancelAborts(g: Gateway, k: nat, requestId: nat, c: nat)
    requires TablesOk(g) && k < |g.sockets| && c < |g.ctls|
    ensures Cancelled(g, k, requestId).ctls[c].aborted <==> g.ctls[c].aborted || Causes(g, Cancel(k, requestId), c)
  {
    var active := g.sockets[k].active;
    var i := Find(active, requestId);
    assert SocketOk(g, k);
    if i >= 0 {
      AbortMarks(g.ctls, [active[i]], false);
      assert active[i] in active && SlotOk(g, k, active[i]);
      assert active[i] in [active[i]];
      if Causes(g, Cancel(k, requestId), c) {
        var s :| s in active && s.ctl == c;
        var j :| 0 <= j < |active| && active[j] == s;
        assert SlotOk(g, k, s);
        FindUnique(active, j);
      }
    }
  }

  lemma ConcludeAborts(g: Gateway, t: nat, c: nat)
    requires TablesOk(g) && Legal(g, ConcludeCheck(t)) && c < |g.ctls|
    ensures Concluded(g, t).ctls[c].aborted <==> g.ctls[c].aborted || Causes(g, ConcludeCheck(t), c)
  {
    var k, live := g.timers[t].socket, g.timers[t].stage.live;
    AbortMarks(g.ctls, g.sockets[k].active, false);
    assert SocketOk(g, k);
    assert g.timers[t].stage == Saw(live) && (live == None || live == Some(live.value));
    if Holds(g.sockets[k].active, c) {
      var s :| s in g.sockets[k].active && s.ctl == c;
      assert SlotOk(g, k, s);
    }
  }

  lemma QuietCtls(g: Gateway, op: Op)
    requires Legal(g, op) && IsQuiet(op)
    ensures Step(g, op).ctls == g.ctls
  {
  }

  lemma ReceivedCtls(g: Gateway, k: nat, requestId: nat)
    requires k < |g.sockets|
    ensures var h := Received(g, k, requestId);
            h.ctls == g.ctls || h.ctls == g.ctls + [Ctl(k, requestId, h.ctls[|g.ctls|].user, false, false, Pending)]
  {
  }

  lemma SettledCtls(g: Gateway, d: nat, resolved: bool)
    requires d < |g.ctls| && g.ctls[d].socket < |g.sockets|
    ensures var h := Settled(g, d, resolved);
            && |h.ctls| == |g.ctls| && h.ctls == g.ctls[d := g.ctls[d].(outcome := h.ctls[d].outcome)]
            && h.ctls[d].outcome != Pending && (h.ctls[d].outcome == Completed <==> resolved)
  {
  }

  /** A request becomes aborted exactly by one of the three causes. */
  lemma AbortExactly(g: Gateway, op: Op, c: nat)
    requires Inv(g) && Legal(g, op) && c < |g.ctls|
    ensures c < |Step(g, op).ctls| && (Step(g, op).ctls[c].aborted <==> g.ctls[c].aborted || Causes(g, op, c))
  {
    match op
    case Cancel(k, requestId) => CancelAborts(g, k, requestId, c);
    case ConcludeCheck(t) => ConcludeAborts(g, t, c);
    case Shutdown => ShutdownNotifiesExactly(g, c);
    case Receive(k, requestId) => ReceivedCtls(g, k, requestId);
    case WorkResolves(d) => SettledCtls(g, d, true);
    case WorkRejects(d) => SettledCtls(g, d, false);
    case _ => QuietCtls(g, op);
  }

  /** Some step of the run is a cause for `c`. */
  ghost predicate CauseSeen(g: Gateway, ops: seq<Op>, c: nat)
    requires LegalRun(g, ops)
    decreases |ops|
  {
    ops != [] && (Causes(g, ops[0], c) || CauseSeen(Step(g, ops[0]), ops[1..], c))
  }

  lemma ShutdownAddsNone(g: Gateway)
    requires Inv(g) && Legal(g, Shutdown)
    ensures |Step(g, Shutdown).ctls| == |g.ctls|
  {
    DrainingTables(g);
    Sweep(g.(shuttingDown := true), |g.sockets|);
    assert g.sockets[..|g.sockets|] == g.sockets;
  }

  lemma NewRequest(g: Gateway, op: Op, c: nat)
    requires Inv(g) && Legal(g, op) && |g.ctls| <= c < |Step(g, op).ctls|
    ensures !Step(g, op).ctls[c].aborted
  {
    if op.Shutdown? { ShutdownAddsNone(g); }
  }

  lemma {:induction false} AbortedIffCaused(g: Gateway, ops: seq<Op>, c: nat)
    requires Inv(g) && LegalRun(g, ops)
    ensures |g.ctls| <= |Run(g, ops).ctls|
    ensures c < |Run(g, ops).ctls| ==> (Run(g, ops).ctls[c].aborted
        <==> (c < |g.ctls| && g.ctls[c].aborted) || CauseSeen(g, ops, c))
    decreases |ops|
  {
    if ops != [] {
      var h := Step(g, ops[0]);
      StepKeeps(g, ops[0]);
      if |g.ctls| > 0 { AbortExactly(g, ops[0], |g.ctls| - 1); }
      AbortedIffCaused(h, ops[1..], c);
      if c < |g.ctls| { AbortExactly(g, ops[0], c); }
      else if c < |h.ctls| { NewRequest(g, ops[0], c); }
    }
  }

  /** Over every run from an empty gateway, a request is aborted if and only if it met a cause. */
  lemma AbortProvenance(ops: seq<Op>, c: nat)
    requires LegalRun(EMPTY_GATEWAY, ops) && c < |Run(EMPTY_GATEWAY, ops).ctls|
    ensures Run(EMPTY_GATEWAY, ops).ctls[c].aborted <==> CauseSeen(EMPTY_GATEWAY, ops, c)
  {
    AbortedIffCaused(EMPTY_GATEWAY, ops, c);
  }

  /** Whenever the check of timer `t` looks, its user has a live socket on this pod and the look succeeds. */
  ghost predicate SeenLive(g: Gateway, ops: seq<Op>, t: nat)
    requires LegalRun(g, ops)
    decreases |ops|
  {
    ops == [] || (
      && (ops[0].Observe? && ops[0].t == t ==> LiveHere(g, g.timers[t].user) && ops[0].live.Some?)
      && SeenLive(Step(g, ops[0]), ops[1..], t))
  }

  /** Timer `t` has not found its user gone. */
  predicate Sparing(g: Gateway, t: nat) {
    t < |g.timers| && (g.timers[t].stage.Saw? ==> g.timers[t].stage.live.Some? && g.timers[t].stage.live.value > 0)
  }

  lemma SparingStep(g: Gateway, op: Op, t: nat)
    requires Inv(g) && Legal(g, op) && Sparing(g, t)
    requires op.Observe? && op.t == t ==> LiveHere(g, g.timers[t].user) && op.live.Some?
    ensures Sparing(Step(g, op), t)
  {
    if op.Shutdown? {
      DrainingTables(g);
      Sweep(g.(shuttingDown := true), |g.sockets|);
      assert g.sockets[..|g.sockets|] == g.sockets;
    }
  }

  lemma {:induction false} SparingRun(g: Gateway, ops: seq<Op>, t: nat)
    requires Inv(g) && LegalRun(g, ops) && Sparing(g, t) && SeenLive(g, ops, t)
    ensures Sparing(Run(g, ops), t)
    decreases |ops|
  {
    if ops != [] {
      StepKeeps(g, ops[0]);
      SparingStep(g, ops[0], t);
      SparingRun(Step(g, ops[0]), ops[1..], t);
    }
  }

  /** From the disconnect that set the timer to the end of its check, whatever else happens: if the
      user is back on this pod when the check looks, its end aborts no request. */
  lemma ReconnectIsSafe(g: Gateway, ops: seq<Op>, t: nat)
    requires Inv(g) && LegalRun(g, ops) && t < |g.timers| && !g.timers[t].stage.Saw? && SeenLive(g, ops, t)
    requires Legal(Run(g, ops), ConcludeCheck(t))
    ensures Step(Run(g, ops), ConcludeCheck(t)).ctls == Run(g, ops).ctls
  {
    SparingRun(g, ops, t);
  }

  // --------------------------------------------------------------------- after a shutdown

  lemma SettledDrops(g: Gateway, c: nat, resolved: bool, k: nat, s: Slot)
    requires TablesOk(g) && c < |g.ctls| && g.ctls[c].socket < |g.sockets| && k < |g.sockets|
    requires s in Settled(g, c, resolved).sockets[k].active
    ensures s in g.sockets[k].active
  {
    assert SocketOk(g, g.ctls[c].socket);
    DropMembers(g.sockets[g.ctls[c].socket].active, g.ctls[c].requestId);
  }

  lemma DrainingTotals(g: Gateway, op: Op)
    requires Inv(g) && g.shuttingDown && Legal(g, op)
    ensures Step(g, op).shuttingDown && |Step(g, op).ctls| == |g.ctls| && |g.sockets| <= |Step(g, op).sockets|
  {
  }

  /** No request enters any map once the gateway is draining: an entry found later was there before. */
  lemma DrainingStep(g: Gateway, op: Op, k: nat, s: Slot)
    requires Inv(g) && g.shuttingDown && Legal(g, op) && k < |Step(g, op).sockets| && s in Step(g, op).sockets[k].active
    ensures k < |g.sockets| && s in g.sockets[k].active
  {
    match op
    case WorkResolves(c) => SettledDrops(g, c, true, k, s);
    case WorkRejects(c) => SettledDrops(g, c, false, k, s);
    case Cancel(i, requestId) => assert SocketOk(g, i); DropMembers(g.sockets[i].active, requestId);
    case _ =>
  }

  lemma {:induction false} DrainingAdmitsNothing(g: Gateway, ops: seq<Op>, k: nat, s: Slot)
    requires Inv(g) && g.shuttingDown && LegalRun(g, ops)
    ensures Run(g, ops).shuttingDown && |Run(g, ops).ctls| == |g.ctls|
    ensures k < |Run(g, ops).sockets| && s in Run(g, ops).sockets[k].active
        ==> k < |g.sockets| && s in g.sockets[k].active
    decreases |ops|
  {
    if ops != [] {
      var h := Step(g, ops[0]);
      StepKeeps(g, ops[0]);
      DrainingTotals(g, ops[0]);
      DrainingAdmitsNothing(h, ops[1..], k, s);
      if k < |h.sockets| && s in h.sockets[k].active { DrainingStep(g, ops[0], k, s); }
    }
  }

  // ----------------------------------------------------------------------- terminal events

  /** A request gets at most two terminal events, and two exactly when shutdown interrupted it and
      its work then completed anyway. */
  lemma TerminalEvents(ops: seq<Op>, c: nat)
    requires LegalRun(EMPTY_GATEWAY, ops) && c < |Run(EMPTY_GATEWAY, ops).ctls|
    ensures var g := Run(EMPTY_GATEWAY, ops);
            var n := Count(g.log, TerminalOf(c));
            && n <= 2
            && (n == 2 <==> g.ctls[c].interrupted && g.ctls[c].outcome == Completed)
            && (n == 0 <==> !g.ctls[c].interrupted && (g.ctls[c].outcome == Pending || g.ctls[c].outcome == Silent))
  {
    RunKeeps(EMPTY_GATEWAY, ops);
    assert CtlOk(Run(EMPTY_GATEWAY, ops), c);
  }
}
