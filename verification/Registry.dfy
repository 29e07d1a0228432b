/** The registry of reverse-connected agents: sessions by UUID and by node, and the commands that
    wait for answers on a session. Every step is one lock-held section. */
module Registry {
  import opened Common

  type UUID = string
  type NodeID = nat
  type SessionID = nat
  type RequestID = nat
  type ChanID = nat
  type CallID = nat
  type RouteID = nat

  datatype Envelope = Envelope(request: RequestID, payload: string)

  /** A response channel with its one buffered slot; session and request are whom it was made for. */
  datatype Chan = Chan(session: SessionID, request: RequestID, isOpen: bool, slot: Option<Envelope>)

  datatype Session = Session(node: NodeID, uuid: UUID, pending: map<RequestID, ChanID>)

  datatype Result = NotConnected | SendFailed | TimedOut | SessionClosed | Response(envelope: Envelope)

  /** Where a SendCommand stands. Leaving: it has its result and still has to run its deferred
      removal of the pending entry. */
  datatype Call =
    | Picked(session: SessionID)
    | Waiting(session: SessionID, request: RequestID, chan: ChanID)
    | Leaving(session: SessionID, request: RequestID, result: Result)
    | Returned(asked: Option<RequestID>, result: Result)

  /** A RouteResponse that has looked its session up and not delivered yet. */
  datatype Route = Route(session: SessionID, envelope: Envelope)

  datatype Hub = Hub(
    sessions: map<UUID, SessionID>,
    byNodeID: map<NodeID, SessionID>,
    table: map<SessionID, Session>,       // every session there ever was
    chans: map<ChanID, Chan>,
    calls: map<CallID, Call>,
    routes: map<RouteID, Route>,
    panicked: bool)                       // a close of a closed channel, or a send on one

  const EMPTY := Hub(map[], map[], map[], map[], map[], map[], false)

  datatype Step =
    | Register(uuid: UUID, session: SessionID)
    | Unregister(uuid: UUID, session: SessionID)
    | CallPick(call: CallID, uuid: UUID)
    | CallPend(call: CallID, request: RequestID, chan: ChanID)
    | CallSendFails(call: CallID)
    | CallTimesOut(call: CallID)
    | CallReceives(call: CallID)
    | CallLeaves(call: CallID)
    | RoutePick(route: RouteID, uuid: UUID, envelope: Envelope)
    | RouteDeliver(route: RouteID)

  // ---------- closing a session's channels

  /** One channel per request and all of them open: closing them in turn cannot panic. */
  predicate SafeToClose(chans: map<ChanID, Chan>, pending: map<RequestID, ChanID>) {
    && (forall r :: r in pending ==> pending[r] in chans && chans[pending[r]].isOpen)
    && forall r, q :: r in pending && q in pending && r != q ==> pending[r] != pending[q]
  }

  function Closed(chans: map<ChanID, Chan>, pending: map<RequestID, ChanID>): map<ChanID, Chan> {
    map c | c in chans :: if c in pending.Values then chans[c].(isOpen := false) else chans[c]
  }

  function CloseSession(h: Hub, s: SessionID): Hub {
    if s in h.table then
      var pending := h.table[s].pending;
      h.(chans := Closed(h.chans, pending),
         table := h.table[s := h.table[s].(pending := map[])],
         panicked := h.panicked || !SafeToClose(h.chans, pending))
    else h
  }

  // ---------- the steps

  function DoRegister(h: Hub, uuid: UUID, node: NodeID, s: SessionID): Hub {
    var h' :=
      if uuid in h.sessions then
        var prior := h.sessions[uuid];
        var k := CloseSession(h, prior);
        if prior in h.table then k.(byNodeID := k.byNodeID - {h.table[prior].node}) else k
      else h;
    h'.(table := h'.table[s := Session(node, uuid, map[])],
        sessions := h'.sessions[uuid := s],
        byNodeID := h'.byNodeID[node := s])
  }

  function DoUnregister(h: Hub, uuid: UUID, s: SessionID): Hub {
    if uuid !in h.sessions || h.sessions[uuid] != s then h
    else
      var k := CloseSession(h, s);
      k.(sessions := k.sessions - {uuid},
         byNodeID := if s in h.table then k.byNodeID - {h.table[s].node} else k.byNodeID)
  }

  function DoPend(h: Hub, s: SessionID, r: RequestID, c: ChanID): Hub
    requires s in h.table
  {
    h.(chans := h.chans[c := Chan(s, r, true, None)],
       table := h.table[s := h.table[s].(pending := h.table[s].pending[r := c])])
  }

  function DoUnpend(h: Hub, s: SessionID, r: RequestID): Hub {
    if s in h.table then h.(table := h.table[s := h.table[s].(pending := h.table[s].pending - {r})]) else h
  }

  /** Deliver under the session's lock: into an empty slot, dropped when the slot is taken. */
  function DoDeliver(h: Hub, s: SessionID, env: Envelope): Hub {
    if s !in h.table || env.request !in h.table[s].pending then h
    else
      var c := h.table[s].pending[env.request];
      if c !in h.chans || !h.chans[c].isOpen then h.(panicked := true)
      else if h.chans[c].slot.None? then h.(chans := h.chans[c := h.chans[c].(slot := Some(env))])
      else h
  }

  /** What a receive on the channel gives, if anything: the buffered answer first, then the close. */
  function Received(c: Chan): Option<Result> {
    if c.slot.Some? then Some(Response(c.slot.value)) else if !c.isOpen then Some(SessionClosed) else None
  }

  predicate Enabled(h: Hub, step: Step) {
    match step
    case Register(_, s) => s !in h.table
    case Unregister(uuid, s) => s in h.table && h.table[s].uuid == uuid
    case CallPick(call, _) => call !in h.calls
    case CallPend(call, r, c) =>
      && call in h.calls && h.calls[call].Picked? && h.calls[call].session in h.table
      && c !in h.chans && (forall x :: x in h.chans ==> h.chans[x].request != r)
    case CallSendFails(call) => call in h.calls && h.calls[call].Waiting?
    case CallTimesOut(call) => call in h.calls && h.calls[call].Waiting?
    case CallReceives(call) =>
      && call in h.calls && h.calls[call].Waiting? && h.calls[call].chan in h.chans
      && Received(h.chans[h.calls[call].chan]).Some?
    case CallLeaves(call) => call in h.calls && h.calls[call].Leaving?
    case RoutePick(route, _, _) => route !in h.routes
    case RouteDeliver(route) => route in h.routes
  }

  function Leave(h: Hub, call: CallID, result: Result): Hub
    requires call in h.calls && h.calls[call].Waiting?
  {
    h.(calls := h.calls[call := Leaving(h.calls[call].session, h.calls[call].request, result)])
  }

  function Next(h: Hub, step: Step, lookup: UUID -> NodeID): Hub
    requires Enabled(h, step)
  {
    match step
    case Register(uuid, s) => DoRegister(h, uuid, lookup(uuid), s)
    case Unregister(uuid, s) => DoUnregister(h, uuid, s)
    case CallPick(call, uuid) =>
      h.(calls := h.calls[call := if uuid in h.sessions then Picked(h.sessions[uuid]) else Returned(None, NotConnected)])
    case CallPend(call, r, c) =>
      var s := h.calls[call].session;
      DoPend(h, s, r, c).(calls := h.calls[call := Waiting(s, r, c)])
    case CallSendFails(call) => Leave(h, call, SendFailed)
    case CallTimesOut(call) => Leave(h, call, TimedOut)
    case CallReceives(call) =>
      var c := h.calls[call].chan;
      Leave(h, call, Received(h.chans[c]).value).(chans := h.chans[c := h.chans[c].(slot := None)])
    case CallLeaves(call) =>
      var w := h.calls[call];
      DoUnpend(h, w.session, w.request).(calls := h.calls[call := Returned(Some(w.request), w.result)])
    case RoutePick(route, uuid, env) =>
      if uuid in h.sessions then h.(routes := h.routes[route := Route(h.sessions[uuid], env)]) else h
    case RouteDeliver(route) => DoDeliver(h, h.routes[route].session, h.routes[route].envelope)
  }

  ghost predicate IsRun(hubs: seq<Hub>, steps: seq<Step>, lookup: UUID -> NodeID) {
    && |hubs| == |steps| + 1
    && hubs[0] == EMPTY
    && forall i :: 0 <= i < |steps| ==> Enabled(hubs[i], steps[i]) && hubs[i + 1] == Next(hubs[i], steps[i], lookup)
  }
}
