/** The gateway object of packages/backend/src/streaming/streaming.gateway.ts: its handlers and loops,
    proved against the steps of `StreamGateway`. */
module GatewayService {
  import opened Common
  import opened StreamGateway

  class Gateway {
    var shuttingDown: bool
    var sockets: seq<Socket>
    var ctls: seq<Ctl>
    var timers: seq<Timer>
    var log: seq<Event>

    ghost function State(): StreamGateway.Gateway
      reads this
    {
      StreamGateway.Gateway(shuttingDown, sockets, ctls, timers, log)
    }

    constructor ()
      ensures State() == EMPTY_GATEWAY
    {
      shuttingDown, sockets, ctls, timers, log := false, [], [], [], [];
    }

    method EmitEvent(e: Event)
      modifies this`log
      ensures State() == Emit(old(State()), e)
    {
      log := log + [e];
    }

    method Abort(c: nat)
      modifies this`ctls
      ensures ctls == AbortSlots(old(ctls), [Slot(0, c)], false)
    {
      assert AbortSlots(old(ctls), [Slot(0, c)][..0], false) == old(ctls);
      if c < |ctls| { ctls := ctls[c := ctls[c].(aborted := true)]; }
    }

    method SetActive(k: nat, active: seq<Slot>)
      requires k < |sockets|
      modifies this`sockets
      ensures State() == WithActive(old(State()), k, active)
    {
      sockets := sockets[k := sockets[k].(active := active)];
    }

    // connections

    method SocketConnects()
      modifies this`sockets
      ensures State() == Step(old(State()), Connect)
    {
      sockets := sockets + [Socket(None, true, [])];
    }

    /** The token was accepted; a refused client is disconnected instead. */
    method Authenticated(k: nat, user: nat)
      requires Legal(State(), Authenticate(k, user))
      modifies this`sockets
      ensures State() == Step(old(State()), Authenticate(k, user))
    {
      sockets := sockets[k := sockets[k].(user := Some(user), active := [])];
    }

    method HandleDisconnect(k: nat)
      requires Legal(State(), Disconnect(k))
      modifies this
      ensures State() == Step(old(State()), Disconnect(k))
    {
      var pending := |sockets[k].active|;
      sockets := sockets[k := sockets[k].(connected := false)];
      if sockets[k].user.None? || pending == 0 { return; }
      timers := timers + [Timer(sockets[k].user.value, k, Waiting)];
    }

    // the grace timer

    method GraceTimerFires(t: nat)
      requires Legal(State(), TimerFires(t))
      modifies this`timers
      ensures State() == Step(old(State()), TimerFires(t))
    {
      var k := timers[t].socket;
      var next := if k < |sockets| && sockets[k].active == [] then Over else Fetching;
      timers := timers[t := timers[t].(stage := next)];
    }

    method PresenceArrives(t: nat, live: Option<nat>)
      requires Legal(State(), Observe(t, live))
      modifies this`timers
      ensures State() == Step(old(State()), Observe(t, live))
    {
      timers := timers[t := timers[t].(stage := Saw(live))];
    }

    method AbortIfUserGone(t: nat)
      requires Legal(State(), ConcludeCheck(t))
      modifies this
      ensures State() == Step(old(State()), ConcludeCheck(t))
    {
      var liveSockets := if timers[t].stage.live.Some? then timers[t].stage.live.value else 0;
      var activeRequests := sockets[timers[t].socket].active;
      timers := timers[t := timers[t].(stage := Over)];
      if liveSockets > 0 { return; }
      for i := 0 to |activeRequests|
        invariant ctls == AbortSlots(old(ctls), activeRequests[..i], false)
        invariant State() == StageSet(old(State()), t, Over).(ctls := ctls)
      {
        Abort(activeRequests[i].ctl);
        assert activeRequests[..i + 1][..i] == activeRequests[..i];
        OneAbort(AbortSlots(old(ctls), activeRequests[..i], false), activeRequests[i]);
      }
      assert activeRequests[..|activeRequests|] == activeRequests;
    }

    lemma OneAbort(cs: seq<Ctl>, s: Slot)
      ensures AbortSlots(cs, [Slot(0, s.ctl)], false)
           == if s.ctl < |cs| then cs[s.ctl := cs[s.ctl].(aborted := true)] else cs
      ensures AbortSlots(cs, [s], false) == AbortSlots(cs, [Slot(0, s.ctl)], false)
    {
      assert [s][..0] == [] && [Slot(0, s.ctl)][..0] == [];
    }

    // requests

    method RejectIfDraining(user: nat, requestId: nat) returns (rejected: bool)
      modifies this`log
      ensures rejected == shuttingDown
      ensures State() == if rejected then Emit(old(State()), Event(user, requestId, Interrupted, None))
          else old(State())
    {
      if !shuttingDown { return false; }
      EmitEvent(Event(user, requestId, Interrupted, None));
      return true;
    }

    /** A handler up to its first await on the work. */
    method HandleRequest(k: nat, requestId: nat)
      requires Legal(State(), Receive(k, requestId))
      modifies this
      ensures State() == Step(old(State()), Receive(k, requestId))
    {
      if sockets[k].user.None? { return; }
      var userId := sockets[k].user.value;
      var rejected := RejectIfDraining(userId, requestId);
      if rejected { return; }
      var c := |ctls|;
      ctls := ctls + [Ctl(k, requestId, userId, false, false, Pending)];
      SetActive(k, Put(sockets[k].active, requestId, c));
      EmitEvent(Event(userId, requestId, Started, Some(c)));
    }

    /** The rest of the handler: completion or error, then `finally`. */
    method WorkSettles(c: nat, resolved: bool)
      requires Legal(State(), if resolved then WorkResolves(c) else WorkRejects(c))
      modifies this
      ensures State() == Step(old(State()), if resolved then WorkResolves(c) else WorkRejects(c))
    {
      var ctl := ctls[c];
      if resolved {
        EmitEvent(Event(ctl.user, ctl.requestId, Complete, Some(c)));
        ctls := ctls[c := ctl.(outcome := Completed)];
      } else if !ctl.aborted {
        EmitEvent(Event(ctl.user, ctl.requestId, Error, Some(c)));
        ctls := ctls[c := ctl.(outcome := Failed)];
      } else {
        ctls := ctls[c := ctl.(outcome := Silent)];
      }
      SetActive(ctl.socket, Drop(sockets[ctl.socket].active, ctl.requestId));
    }

    method HandleCancel(k: nat, requestId: nat)
      requires Legal(State(), Cancel(k, requestId))
      modifies this
      ensures State() == Step(old(State()), Cancel(k, requestId))
    {
      var active := sockets[k].active;
      var i := Find(active, requestId);
      if i >= 0 {
        OneAbort(ctls, active[i]);
        Abort(active[i].ctl);
      }
      SetActive(k, Drop(active, requestId));
    }

    // shutdown

    method InterruptOne(user: nat, s: Slot)
      modifies this`ctls, this`log
      ensures ctls
           == if s.ctl < |old(ctls)| then old(ctls)[s.ctl := old(ctls)[s.ctl].(aborted := true, interrupted := true)]
              else old(ctls)
      ensures log == old(log) + [Event(user, s.requestId, Interrupted, Some(s.ctl))]
    {
      EmitEvent(Event(user, s.requestId, Interrupted, Some(s.ctl)));
      if s.ctl < |ctls| { ctls := ctls[s.ctl := ctls[s.ctl].(aborted := true, interrupted := true)]; }
    }

    method InterruptAll(s: Socket)
      requires Reached(s)
      modifies this`ctls, this`log
      ensures State() == InterruptSocket(old(State()), s)
    {
      var active, user := s.active, s.user.value;
      for i := 0 to |active|
        invariant ctls == AbortSlots(old(ctls), active[..i], true)
        invariant log == old(log) + InterruptEvents(user, active[..i])
      {
        InterruptOne(user, active[i]);
        assert active[..i + 1][..i] == active[..i];
        assert InterruptEvents(user, active[..i + 1])
            == InterruptEvents(user, active[..i])
            + [Event(user, active[i].requestId, Interrupted, Some(active[i].ctl))];
      }
      assert active[..|active|] == active;
    }

    method OnApplicationShutdown()
      requires Legal(State(), Shutdown)
      modifies this
      ensures State() == Step(old(State()), Shutdown)
    {
      shuttingDown := true;
      ghost var start := State();
      var localSockets := sockets;
      for k := 0 to |localSockets|
        invariant State() == InterruptSockets(start, localSockets[..k])
      {
        var socket := localSockets[k];
        assert localSockets[..k + 1][..k] == localSockets[..k];
        if socket.connected && socket.user.Some? { InterruptAll(socket); }
      }
      assert localSockets[..|localSockets|] == localSockets;
    }
  }
}
