/** The lifecycle of streamed requests (packages/backend/src/streaming/streaming.gateway.ts:221-394,
    606-614), one step per stretch between awaits. One generic handler stands for all of them; its
    last emission and its `finally` are one step. Controllers are numbered in order of creation. */
module StreamGateway {
  import opened Common
  import opened Tally

  /** One entry of a socket's map of active requests; the list keeps insertion order. */
  datatype Slot = Slot(requestId: nat, ctl: nat)

  /** `user` and the map are set together, by authentication. */
  datatype Socket = Socket(user: Option<nat>, connected: bool, active: seq<Slot>)

  datatype Outcome = Pending | Completed | Failed | Silent

  /** A request with its abort controller. */
  datatype Ctl = Ctl(socket: nat, requestId: nat, user: nat, aborted: bool, interrupted: bool, outcome: Outcome)

  datatype Kind = Started | Complete | Error | Interrupted

  /** `ctl` is absent on the refusal of a request that was never started. */
  datatype Event = Event(user: nat, requestId: nat, kind: Kind, ctl: Option<nat>)

  /** What a presence check has come to: `Saw(None)` means that it failed. */
  datatype Stage = Waiting | Fetching | Saw(live: Option<nat>) | Over

  datatype Timer = Timer(user: nat, socket: nat, stage: Stage)

  datatype Gateway = Gateway(
    shuttingDown: bool, sockets: seq<Socket>, ctls: seq<Ctl>, timers: seq<Timer>, log: seq<Event>)

  const EMPTY_GATEWAY := Gateway(false, [], [], [], [])

  // ------------------------------------------------------------------ the map of a socket

  function Find(active: seq<Slot>, requestId: nat): (i: int)
    ensures -1 <= i < |active|
    ensures i >= 0 ==> active[i].requestId == requestId
    ensures i < 0 ==> forall s <- active :: s.requestId != requestId
  {
    if active == [] then -1
    else if active[0].requestId == requestId then 0
    else var i := Find(active[1..], requestId); if i >= 0 then i + 1 else -1
  }

  /** Setting a key that is present keeps its place. */
  function Put(active: seq<Slot>, requestId: nat, ctl: nat): seq<Slot> {
    var i := Find(active, requestId);
    if i >= 0 then active[i := Slot(requestId, ctl)] else active + [Slot(requestId, ctl)]
  }

  function Drop(active: seq<Slot>, requestId: nat): seq<Slot> {
    var i := Find(active, requestId);
    if i >= 0 then active[..i] + active[i + 1..] else active
  }

  // ------------------------------------------------------------------------- operations

  datatype Op =
    | Connect
    | Authenticate(k: nat, user: nat)
    | Disconnect(k: nat)
    | TimerFires(t: nat)
    | Observe(t: nat, live: Option<nat>)
    | ConcludeCheck(t: nat)
    | Receive(k: nat, requestId: nat)
    | WorkResolves(c: nat)
    | WorkRejects(c: nat)
    | Cancel(k: nat, requestId: nat)
    | Shutdown

  /** The user's sockets that are live on this pod. */
  ghost predicate LiveHere(g: Gateway, user: nat) {
    exists k | 0 <= k < |g.sockets| :: g.sockets[k].connected && g.sockets[k].user == Some(user)
  }

  /** A presence check that succeeds counts at least the live sockets of this pod. A message received
      just before a disconnect may be handled just after it, and authentication may end after it. The
      shutdown hook is called once. */
  ghost predicate Legal(g: Gateway, op: Op) {
    match op
    case Connect => true
    case Authenticate(k, _) => k < |g.sockets| && g.sockets[k].user.None?
    case Disconnect(k) => k < |g.sockets| && g.sockets[k].connected
    case TimerFires(t) => t < |g.timers| && g.timers[t].stage == Waiting
    case Observe(t, live) => t < |g.timers| && g.timers[t].stage == Fetching
        && (LiveHere(g, g.timers[t].user) ==> live != Some(0))
    case ConcludeCheck(t) => t < |g.timers| && g.timers[t].stage.Saw? && g.timers[t].socket < |g.sockets|
    case Receive(k, _) => k < |g.sockets|
    case WorkResolves(c) => c < |g.ctls| && g.ctls[c].outcome == Pending && g.ctls[c].socket < |g.sockets|
    case WorkRejects(c) => c < |g.ctls| && g.ctls[c].outcome == Pending && g.ctls[c].socket < |g.sockets|
    case Cancel(k, _) => k < |g.sockets|
    case Shutdown => !g.shuttingDown
  }

  function WithActive(g: Gateway, k: nat, active: seq<Slot>): Gateway
    requires k < |g.sockets|
  {
    g.(sockets := g.sockets[k := g.sockets[k].(active := active)])
  }

  function Emit(g: Gateway, e: Event): Gateway { g.(log := g.log + [e]) }

  function AbortSlots(ctls: seq<Ctl>, slots: seq<Slot>, byShutdown: bool): (r: seq<Ctl>)
    ensures |r| == |ctls|
    decreases |slots|
  {
    if slots == [] then ctls
    else
      var r, c := AbortSlots(ctls, slots[..|slots| - 1], byShutdown), slots[|slots| - 1].ctl;
      if c < |r| then r[c := r[c].(aborted := true, interrupted := r[c].interrupted || byShutdown)] else r
  }

  function InterruptEvents(user: nat, slots: seq<Slot>): seq<Event> {
    seq(|slots|, i requires 0 <= i < |slots| => Event(user, slots[i].requestId, Interrupted, Some(slots[i].ctl)))
  }

  /** The sockets that shutdown looks into: connected, authenticated. */
  predicate Reached(s: Socket) { s.connected && s.user.Some? }

  function InterruptSocket(g: Gateway, s: Socket): Gateway {
    if Reached(s)
    then g.(ctls := AbortSlots(g.ctls, s.active, true), log := g.log + InterruptEvents(s.user.value, s.active))
    else g
  }

  function InterruptSockets(g: Gateway, sockets: seq<Socket>): Gateway
    decreases |sockets|
  {
    if sockets == [] then g else InterruptSocket(InterruptSockets(g, sockets[..|sockets| - 1]), sockets[|sockets| - 1])
  }

  function Disconnected(g: Gateway, k: nat): Gateway
    requires k < |g.sockets|
  {
    var s := g.sockets[k];
    var gone := g.(sockets := g.sockets[k := s.(connected := false)]);
    if s.user.Some? && s.active != [] then gone.(timers := g.timers + [Timer(s.user.value, k, Waiting)]) else gone
  }

  function StageSet(g: Gateway, t: nat, stage: Stage): Gateway
    requires t < |g.timers|
  {
    g.(timers := g.timers[t := g.timers[t].(stage := stage)])
  }

  function Concluded(g: Gateway, t: nat): Gateway
    requires t < |g.timers| && g.timers[t].stage.Saw? && g.timers[t].socket < |g.sockets|
  {
    var live := g.timers[t].stage.live;
    var over := StageSet(g, t, Over);
    if live.Some? && live.value > 0 then over
    else over.(ctls := AbortSlots(g.ctls, g.sockets[g.timers[t].socket].active, false))
  }

  function Received(g: Gateway, k: nat, requestId: nat): Gateway
    requires k < |g.sockets|
  {
    var s := g.sockets[k];
    if s.user.None? then g
    else if g.shuttingDown then Emit(g, Event(s.user.value, requestId, Interrupted, None))
    else
      var c := |g.ctls|;
      Emit(WithActive(g.(ctls := g.ctls + [Ctl(k, requestId, s.user.value, false, false, Pending)]), k,
          Put(s.active, requestId, c)),
           Event(s.user.value, requestId, Started, Some(c)))
  }

  /** Completion is emitted without looking at the abort signal; an error only if not aborted. */
  function Settled(g: Gateway, c: nat, resolved: bool): Gateway
    requires c < |g.ctls| && g.ctls[c].socket < |g.sockets|
  {
    var ctl := g.ctls[c];
    var outcome := if resolved then Completed else if ctl.aborted then Silent else Failed;
    var cleaned := WithActive(g.(ctls := g.ctls[c := ctl.(outcome := outcome)]), ctl.socket,
        Drop(g.sockets[ctl.socket].active, ctl.requestId));
    if outcome == Silent then cleaned
    else Emit(cleaned, Event(ctl.user, ctl.requestId, if resolved then Complete else Error, Some(c)))
  }

  function Cancelled(g: Gateway, k: nat, requestId: nat): Gateway
    requires k < |g.sockets|
  {
    var active := g.sockets[k].active;
    var i := Find(active, requestId);
    if i < 0 then g
    else WithActive(g.(ctls := AbortSlots(g.ctls, [active[i]], false)), k, Drop(active, requestId))
  }

  function Step(g: Gateway, op: Op): Gateway
    requires Legal(g, op)
  {
    match op
    case Connect => g.(sockets := g.sockets + [Socket(None, true, [])])
    case Authenticate(k, user) => g.(sockets := g.sockets[k := g.sockets[k].(user := Some(user), active := [])])
    case Disconnect(k) => Disconnected(g, k)
    case TimerFires(t) =>
      var k := g.timers[t].socket;
      StageSet(g, t, if k < |g.sockets| && g.sockets[k].active == [] then Over else Fetching)
    case Observe(t, live) => StageSet(g, t, Saw(live))
    case ConcludeCheck(t) => Concluded(g, t)
    case Receive(k, requestId) => Received(g, k, requestId)
    case WorkResolves(c) => Settled(g, c, true)
    case WorkRejects(c) => Settled(g, c, false)
    case Cancel(k, requestId) => Cancelled(g, k, requestId)
    case Shutdown => InterruptSockets(g.(shuttingDown := true), g.sockets)
  }

  ghost predicate LegalRun(g: Gateway, ops: seq<Op>)
    decreases |ops|
  {
    ops == [] || (Legal(g, ops[0]) && LegalRun(Step(g, ops[0]), ops[1..]))
  }

  ghost function Run(g: Gateway, ops: seq<Op>): Gateway
    requires LegalRun(g, ops)
    decreases |ops|
  {
    if ops == [] then g else Run(Step(g, ops[0]), ops[1..])
  }

  // ------------------------------------------------------------------- lists of slots

  ghost predicate UniqueIds(active: seq<Slot>) {
    forall i, j | 0 <= i < j < |active| :: active[i].requestId != active[j].requestId
  }

  lemma FindUnique(active: seq<Slot>, i: nat)
    requires UniqueIds(active) && i < |active|
    ensures Find(active, active[i].requestId) == i
  {
    assert active[i] in active;
    var j := Find(active, active[i].requestId);
  }

  lemma DropMembers(active: seq<Slot>, requestId: nat)
    requires UniqueIds(active)
    ensures UniqueIds(Drop(active, requestId))
    ensures forall s :: s in Drop(active, requestId) <==> s in active && s.requestId != requestId
  {
    var i, r := Find(active, requestId), Drop(active, requestId);
    if i >= 0 {
      forall s | s in active && s.requestId != requestId ensures s in r {
        var j :| 0 <= j < |active| && active[j] == s;
        assert r[if j < i then j else j - 1] == s;
      }
      forall j | 0 <= j < |r| ensures r[j] in active && r[j].requestId != requestId {
        assert r[j] == active[if j < i then j else j + 1];
      }
    }
  }

  lemma PutMembers(active: seq<Slot>, requestId: nat, ctl: nat)
    requires UniqueIds(active)
    ensures UniqueIds(Put(active, requestId, ctl))
    ensures forall s ::
             s in Put(active, requestId, ctl)
             <==> s == Slot(requestId, ctl) || (s in active && s.requestId != requestId)
  {
    var i, r := Find(active, requestId), Put(active, requestId, ctl);
    forall s | s == Slot(requestId, ctl) || (s in active && s.requestId != requestId) ensures s in r {
      if s == Slot(requestId, ctl) {
        assert r[if i >= 0 then i else |active|] == s;
      } else {
        var j :| 0 <= j < |active| && active[j] == s;
        assert r[j] == s;
      }
    }
    forall j | 0 <= j < |r| ensures r[j] == Slot(requestId, ctl) || (r[j] in active && r[j].requestId != requestId) {
      if j < |active| && j != i { assert active[j] in active; }
    }
  }

  predicate Holds(slots: seq<Slot>, c: nat) { exists s <- slots :: s.ctl == c }

  function MarkedBy(ctl: Ctl, hit: bool, byShutdown: bool): Ctl {
    if hit then ctl.(aborted := true, interrupted := ctl.interrupted || byShutdown) else ctl
  }

  lemma HoldsSnoc(slots: seq<Slot>, n: nat, c: nat)
    requires |slots| == n + 1
    ensures Holds(slots, c) <==> Holds(slots[..n], c) || slots[n].ctl == c
  {
    if Holds(slots[..n], c) {
      var s :| s in slots[..n] && s.ctl == c;
      assert s in slots;
    }
    if s :| s in slots && s.ctl == c && slots[n].ctl != c {
      var i :| 0 <= i < |slots| && slots[i] == s;
      assert slots[..n][i] == s;
    }
  }

  lemma {:induction false} AbortMarksOne(ctls: seq<Ctl>, slots: seq<Slot>, byShutdown: bool, c: nat)
    requires c < |ctls|
    ensures AbortSlots(ctls, slots, byShutdown)[c] == MarkedBy(ctls[c], Holds(slots, c), byShutdown)
    decreases |slots|
  {
    if slots != [] {
      var n := |slots| - 1;
      AbortMarksOne(ctls, slots[..n], byShutdown, c);
      HoldsSnoc(slots, n, c);
    }
  }

  /** Aborting a list of slots marks exactly the controllers in it. */
  lemma AbortMarks(ctls: seq<Ctl>, slots: seq<Slot>, byShutdown: bool)
    ensures forall c | 0 <= c < |ctls| ::
      AbortSlots(ctls, slots, byShutdown)[c] == MarkedBy(ctls[c], Holds(slots, c), byShutdown)
  {
    forall c | 0 <= c < |ctls|
      ensures AbortSlots(ctls, slots, byShutdown)[c] == MarkedBy(ctls[c], Holds(slots, c), byShutdown)
    {
      AbortMarksOne(ctls, slots, byShutdown, c);
    }
  }
}
