/** Commands are answered: what a waiting command gets when its answer comes, when its session ends, and when
    nobody is there. */
module RegistryAnswers {
  import opened Common
  import opened Registry
  import opened RegistryCommands

  /** The call waits for request r on channel c, which is pending and empty. */
  ghost predicate WaitsEmpty(h: Hub, call: CallID, s: SessionID, r: RequestID, c: ChanID) {
    && call in h.calls && h.calls[call] == Waiting(s, r, c)
    && s in h.table && r in h.table[s].pending && h.table[s].pending[r] == c
    && c in h.chans && h.chans[c].slot.None?
  }

  /** The first answer with its request ID reaches the call: it is in the channel, the call may receive, and what it
      receives is that answer. */
  lemma AnswerArrives(h: Hub, call: CallID, s: SessionID, r: RequestID, c: ChanID, route: RouteID, env: Envelope,
                      lookup: UUID -> NodeID)
    requires Correlated(h) && WaitsEmpty(h, call, s, r, c)
    requires route in h.routes && h.routes[route] == Route(s, env) && env.request == r
    ensures var k := Next(h, RouteDeliver(route), lookup);
            && !k.panicked && k.chans[c].slot == Some(env)
            && Enabled(k, CallReceives(call))
            && Next(k, CallReceives(call), lookup).calls[call] == Leaving(s, r, Response(env))
  {
    assert Pending(h, s, r, c);
  }

  /** A second answer does not replace the first. */
  lemma SecondAnswerIsDropped(h: Hub, s: SessionID, r: RequestID, c: ChanID, env: Envelope)
    requires Correlated(h) && s in h.table && r in h.table[s].pending && h.table[s].pending[r] == c
    requires c in h.chans && h.chans[c].slot.Some? && env.request == r
    ensures DoDeliver(h, s, env) == h
  {
    assert Pending(h, s, r, c);
  }

  /** An answer nobody waits for changes nothing. */
  lemma StrayAnswerIsDropped(h: Hub, s: SessionID, env: Envelope)
    requires s in h.table && env.request !in h.table[s].pending
    ensures DoDeliver(h, s, env) == h
  {}

  /** When the session is closed, by a reconnect or by its handler, a waiting call gets the answer that had
      come, or learns that the session is gone; it does not wait on. */
  lemma CloseWakesCall(h: Hub, call: CallID, s: SessionID, r: RequestID, c: ChanID, lookup: UUID -> NodeID)
    requires Correlated(h) && call in h.calls && h.calls[call] == Waiting(s, r, c)
    requires s in h.table && r in h.table[s].pending && h.table[s].pending[r] == c
    ensures var k := CloseSession(h, s);
            && !k.panicked && k.table[s].pending == map[]
            && Enabled(k, CallReceives(call))
            && Next(k, CallReceives(call), lookup).calls[call] ==
               Leaving(s, r, if h.chans[c].slot.Some? then Response(h.chans[c].slot.value) else SessionClosed)
  {
    assert Pending(h, s, r, c);
    CloseIsSafe(h, s);
    assert c in h.table[s].pending.Values;
  }

  /** Closing leaves every other session's channels open. */
  lemma CloseSparesOthers(h: Hub, s: SessionID, t: SessionID, r: RequestID)
    requires Correlated(h) && s in h.table && t in h.table && s != t && r in h.table[t].pending
    ensures var k := CloseSession(h, s); k.table[t] == h.table[t] && k.chans[h.table[t].pending[r]] == h.chans[h.table[t].pending[r]]
  {
    OwnChannelsOnly(h, s, t, r);
    assert Pending(h, t, r, h.table[t].pending[r]);
  }

  /** A reconnect closes the session it replaces; the handler of the current one closes its own. */
  lemma ReplacedIsClosed(h: Hub, uuid: UUID, node: NodeID, s: SessionID)
    requires uuid in h.sessions && h.sessions[uuid] in h.table && s !in h.table
    ensures var k := DoRegister(h, uuid, node, s);
            && k.table[h.sessions[uuid]].pending == map[]
            && k.chans == CloseSession(h, h.sessions[uuid]).chans
            && k.sessions[uuid] == s && k.byNodeID[node] == s && k.table[s] == Session(node, uuid, map[])
    ensures var k := DoUnregister(h, uuid, h.sessions[uuid]);
            k.table[h.sessions[uuid]].pending == map[] && k.chans == CloseSession(h, h.sessions[uuid]).chans && uuid !in k.sessions
  {}

  /** A command to an agent that is not connected says so at once; otherwise it is for the current session. */
  lemma PickIsCurrent(h: Hub, call: CallID, uuid: UUID, lookup: UUID -> NodeID)
    requires Enabled(h, CallPick(call, uuid))
    ensures Next(h, CallPick(call, uuid), lookup).calls[call] ==
            if uuid in h.sessions then Picked(h.sessions[uuid]) else Returned(None, NotConnected)
    ensures Next(h, CallPick(call, uuid), lookup).(calls := h.calls) == h
  {}

  /** Then it waits on a channel of its own, open, empty and pending under its request. */
  lemma PendWaits(h: Hub, call: CallID, r: RequestID, c: ChanID, lookup: UUID -> NodeID)
    requires Enabled(h, CallPend(call, r, c))
    ensures var k, s := Next(h, CallPend(call, r, c), lookup), h.calls[call].session;
            WaitsEmpty(k, call, s, r, c) && k.chans[c].isOpen
  {}

  /** An answer is routed to the agent's current session, and nowhere if it is gone. */
  lemma RouteIsCurrent(h: Hub, route: RouteID, uuid: UUID, env: Envelope, lookup: UUID -> NodeID)
    requires Enabled(h, RoutePick(route, uuid, env))
    ensures var k := Next(h, RoutePick(route, uuid, env), lookup);
            if uuid in h.sessions then route in k.routes && k.routes[route] == Route(h.sessions[uuid], env) else k == h
  {}

  /** When it returns, its pending entry is gone and its result is what it left with. */
  lemma LeavingCleansUp(h: Hub, call: CallID, lookup: UUID -> NodeID)
    requires Enabled(h, CallLeaves(call)) && h.calls[call].session in h.table
    ensures var k, w := Next(h, CallLeaves(call), lookup), h.calls[call];
            && k.calls[call] == Returned(Some(w.request), w.result)
            && w.request !in k.table[w.session].pending
            && forall q :: q in h.table[w.session].pending && q != w.request ==>
                 q in k.table[w.session].pending && k.table[w.session].pending[q] == h.table[w.session].pending[q]
  {}

  lemma GivingUpSaysWhy(h: Hub, call: CallID, lookup: UUID -> NodeID)
    requires call in h.calls && h.calls[call].Waiting?
    ensures Next(h, CallTimesOut(call), lookup).calls[call] == Leaving(h.calls[call].session, h.calls[call].request, TimedOut)
    ensures Next(h, CallSendFails(call), lookup).calls[call] == Leaving(h.calls[call].session, h.calls[call].request, SendFailed)
  {}

  /** End to end: in any hub a run can reach, a connected agent that answers is heard. From the pick to the return,
      with nothing in between, the command returns the agent's answer. */
  lemma CommandIsAnswered(h: Hub, uuid: UUID, call: CallID, r: RequestID, c: ChanID, route: RouteID, payload: string,
                          lookup: UUID -> NodeID) returns (k: Hub)
    requires Correlated(h) && uuid in h.sessions && call !in h.calls && route !in h.routes
    requires c !in h.chans && forall x :: x in h.chans ==> h.chans[x].request != r
    ensures Correlated(k) && call in k.calls && k.calls[call] == Returned(Some(r), Response(Envelope(r, payload)))
  {
    var s, env := h.sessions[uuid], Envelope(r, payload);
    StepCorrelates(h, CallPick(call, uuid), lookup);
    PickIsCurrent(h, call, uuid, lookup);
    var h1 := Next(h, CallPick(call, uuid), lookup);
    assert Enabled(h1, CallPend(call, r, c));
    StepCorrelates(h1, CallPend(call, r, c), lookup);
    PendWaits(h1, call, r, c, lookup);
    k := AnsweredFrom(Next(h1, CallPend(call, r, c), lookup), uuid, call, s, r, c, route, env, lookup);
  }

  lemma AnsweredFrom(h: Hub, uuid: UUID, call: CallID, s: SessionID, r: RequestID, c: ChanID, route: RouteID,
                     env: Envelope, lookup: UUID -> NodeID) returns (k: Hub)
    requires Correlated(h) && uuid in h.sessions && h.sessions[uuid] == s && WaitsEmpty(h, call, s, r, c)
    requires route !in h.routes && env.request == r
    ensures Correlated(k) && call in k.calls && k.calls[call] == Returned(Some(r), Response(env))
  {
    RouteIsCurrent(h, route, uuid, env, lookup);
    StepCorrelates(h, RoutePick(route, uuid, env), lookup);
    var h1 := Next(h, RoutePick(route, uuid, env), lookup);
    assert WaitsEmpty(h1, call, s, r, c);
    AnswerArrives(h1, call, s, r, c, route, env, lookup);
    StepCorrelates(h1, RouteDeliver(route), lookup);
    var h2 := Next(h1, RouteDeliver(route), lookup);
    StepCorrelates(h2, CallReceives(call), lookup);
    var h3 := Next(h2, CallReceives(call), lookup);
    StepCorrelates(h3, CallLeaves(call), lookup);
    k := Next(h3, CallLeaves(call), lookup);
  }
}
