/** Commands and their answers: no interleaving closes or fills a closed channel, and a command never
    gets another command's answer. */
module RegistryCommands {
  import opened Common
  import opened Registry

  /** The channel waits, open, under its own request and session. */
  ghost predicate Pending(h: Hub, s: SessionID, r: RequestID, c: ChanID) {
    c in h.chans && h.chans[c].isOpen && h.chans[c].request == r && h.chans[c].session == s
  }

  ghost predicate PendingOpen(h: Hub) {
    forall s, r :: s in h.table && r in h.table[s].pending ==> Pending(h, s, r, h.table[s].pending[r])
  }

  ghost predicate SlotsMatch(h: Hub) {
    forall c :: c in h.chans && h.chans[c].slot.Some? ==> h.chans[c].slot.value.request == h.chans[c].request
  }

  /** What a call may rely on, and what it may have been given. */
  ghost predicate CallFits(h: Hub, call: Call) {
    match call
    case Picked(s) => s in h.table
    case Waiting(s, r, c) => s in h.table && c in h.chans && h.chans[c].request == r
    case Leaving(s, r, result) => result.Response? ==> result.envelope.request == r
    case Returned(asked, result) => result.Response? ==> asked == Some(result.envelope.request)
  }

  ghost predicate CallsFit(h: Hub) {
    forall x :: x in h.calls ==> CallFits(h, h.calls[x])
  }

  ghost predicate SessionsKnown(h: Hub) {
    forall u :: u in h.sessions ==> h.sessions[u] in h.table
  }

  ghost predicate Correlated(h: Hub) {
    PendingOpen(h) && SlotsMatch(h) && CallsFit(h) && SessionsKnown(h) && !h.panicked
  }

  // ---------- closing

  lemma OwnChannelsOnly(h: Hub, s: SessionID, t: SessionID, r: RequestID)
    requires PendingOpen(h) && s in h.table && t in h.table && s != t && r in h.table[t].pending
    ensures h.table[t].pending[r] !in h.table[s].pending.Values
  {
    var c := h.table[t].pending[r];
    assert Pending(h, t, r, c);
    forall q | q in h.table[s].pending ensures h.table[s].pending[q] != c {
      assert Pending(h, s, q, h.table[s].pending[q]);
    }
  }

  lemma CloseIsSafe(h: Hub, s: SessionID)
    requires PendingOpen(h) && s in h.table
    ensures SafeToClose(h.chans, h.table[s].pending)
  {
    var pending := h.table[s].pending;
    forall r | r in pending ensures pending[r] in h.chans && h.chans[pending[r]].isOpen && h.chans[pending[r]].request == r {
      assert Pending(h, s, r, pending[r]);
    }
  }

  lemma CloseKeepsPending(h: Hub, s: SessionID)
    requires PendingOpen(h) && s in h.table
    ensures PendingOpen(CloseSession(h, s))
  {
    var k := CloseSession(h, s);
    forall t, r | t in k.table && r in k.table[t].pending ensures Pending(k, t, r, k.table[t].pending[r]) {
      assert t != s && k.table[t] == h.table[t];
      assert Pending(h, t, r, h.table[t].pending[r]);
      OwnChannelsOnly(h, s, t, r);
    }
  }

  /** Closing a session's channels keeps everything: its pending map is emptied with it. */
  lemma CloseCorrelates(h: Hub, s: SessionID)
    requires Correlated(h) && s in h.table
    ensures Correlated(CloseSession(h, s)) && CloseSession(h, s).table.Keys == h.table.Keys
  {
    CloseIsSafe(h, s);
    CloseKeepsPending(h, s);
    var k := CloseSession(h, s);
    forall x | x in k.calls ensures CallFits(k, k.calls[x]) {
      assert CallFits(h, h.calls[x]);
    }
  }

  /** Only the indexes differ, and what they name is known. */
  lemma ReindexCorrelates(h: Hub, k: Hub)
    requires Correlated(h) && SessionsKnown(k)
    requires k.table == h.table && k.chans == h.chans && k.calls == h.calls && k.panicked == h.panicked
    ensures Correlated(k)
  {
    forall s, r | s in k.table && r in k.table[s].pending ensures Pending(k, s, r, k.table[s].pending[r]) {
      assert Pending(h, s, r, h.table[s].pending[r]);
    }
    forall x | x in k.calls ensures CallFits(k, k.calls[x]) {
      assert CallFits(h, h.calls[x]);
    }
  }

  /** A new session has nothing pending. */
  lemma NewSessionCorrelates(h: Hub, k: Hub, s: SessionID)
    requires Correlated(h) && s !in h.table && k.table.Keys == h.table.Keys + {s} && SessionsKnown(k)
    requires k.table[s].pending == map[] && (forall t :: t in h.table ==> k.table[t] == h.table[t])
    requires k.chans == h.chans && k.calls == h.calls && k.panicked == h.panicked
    ensures Correlated(k)
  {
    forall t, r | t in k.table && r in k.table[t].pending ensures Pending(k, t, r, k.table[t].pending[r]) {
      assert Pending(h, t, r, h.table[t].pending[r]);
    }
    forall x | x in k.calls ensures CallFits(k, k.calls[x]) {
      assert CallFits(h, h.calls[x]);
    }
  }

  lemma RegisterCorrelates(h: Hub, uuid: UUID, node: NodeID, s: SessionID)
    requires Correlated(h) && s !in h.table
    ensures Correlated(DoRegister(h, uuid, node, s))
  {
    if uuid in h.sessions {
      var prior := h.sessions[uuid];
      CloseCorrelates(h, prior);
      NewSessionCorrelates(CloseSession(h, prior), DoRegister(h, uuid, node, s), s);
    } else {
      NewSessionCorrelates(h, DoRegister(h, uuid, node, s), s);
    }
  }

  lemma UnregisterCorrelates(h: Hub, uuid: UUID, s: SessionID)
    requires Correlated(h)
    ensures Correlated(DoUnregister(h, uuid, s))
  {
    if uuid in h.sessions && h.sessions[uuid] == s {
      CloseCorrelates(h, s);
      ReindexCorrelates(CloseSession(h, s), DoUnregister(h, uuid, s));
    }
  }

  // ---------- calls

  /** Only one call's entry differs, and it fits. */
  lemma CallCorrelates(h: Hub, k: Hub, call: CallID)
    requires Correlated(h) && k == h.(calls := k.calls) && k.calls.Keys == h.calls.Keys + {call}
    requires (forall x :: x in h.calls && x != call ==> k.calls[x] == h.calls[x]) && CallFits(k, k.calls[call])
    ensures Correlated(k)
  {
    forall s, r | s in k.table && r in k.table[s].pending ensures Pending(k, s, r, k.table[s].pending[r]) {
      assert Pending(h, s, r, h.table[s].pending[r]);
    }
    forall x | x in k.calls ensures CallFits(k, k.calls[x]) {
      if x != call {
        assert CallFits(h, h.calls[x]);
      }
    }
  }

  lemma PendCorrelates(h: Hub, s: SessionID, r: RequestID, c: ChanID)
    requires Correlated(h) && s in h.table && c !in h.chans
    ensures Correlated(DoPend(h, s, r, c))
  {
    var k := DoPend(h, s, r, c);
    forall t, q | t in k.table && q in k.table[t].pending ensures Pending(k, t, q, k.table[t].pending[q]) {
      if !(t == s && q == r) {
        assert Pending(h, t, q, h.table[t].pending[q]);
      }
    }
    forall x | x in k.calls ensures CallFits(k, k.calls[x]) {
      assert CallFits(h, h.calls[x]);
    }
  }

  lemma UnpendCorrelates(h: Hub, s: SessionID, r: RequestID)
    requires Correlated(h)
    ensures Correlated(DoUnpend(h, s, r))
  {
    var k := DoUnpend(h, s, r);
    forall t, q | t in k.table && q in k.table[t].pending ensures Pending(k, t, q, k.table[t].pending[q]) {
      assert Pending(h, t, q, h.table[t].pending[q]);
    }
    forall x | x in k.calls ensures CallFits(k, k.calls[x]) {
      assert CallFits(h, h.calls[x]);
    }
  }

  /** A slot is filled with the channel's own answer, or emptied. */
  lemma SlotCorrelates(h: Hub, c: ChanID, slot: Option<Envelope>)
    requires Correlated(h) && c in h.chans && (slot.Some? ==> slot.value.request == h.chans[c].request)
    ensures Correlated(h.(chans := h.chans[c := h.chans[c].(slot := slot)]))
  {
    var k := h.(chans := h.chans[c := h.chans[c].(slot := slot)]);
    forall t, q | t in k.table && q in k.table[t].pending ensures Pending(k, t, q, k.table[t].pending[q]) {
      assert Pending(h, t, q, h.table[t].pending[q]);
    }
    forall x | x in k.calls ensures CallFits(k, k.calls[x]) {
      assert CallFits(h, h.calls[x]);
    }
  }

  lemma DeliverCorrelates(h: Hub, s: SessionID, env: Envelope)
    requires Correlated(h)
    ensures Correlated(DoDeliver(h, s, env))
  {
    if s in h.table && env.request in h.table[s].pending {
      var c := h.table[s].pending[env.request];
      assert Pending(h, s, env.request, c);
      SlotCorrelates(h, c, Some(env));
    }
  }

  lemma ReceiveCorrelates(h: Hub, call: CallID, lookup: UUID -> NodeID)
    requires Correlated(h) && Enabled(h, CallReceives(call))
    ensures Correlated(Next(h, CallReceives(call), lookup))
  {
    assert CallFits(h, h.calls[call]);
    var c := h.calls[call].chan;
    var k := h.(chans := h.chans[c := h.chans[c].(slot := None)]);
    SlotCorrelates(h, c, None);
    CallCorrelates(k, Next(h, CallReceives(call), lookup), call);
  }

  lemma StepCorrelates(h: Hub, step: Step, lookup: UUID -> NodeID)
    requires Correlated(h) && Enabled(h, step)
    ensures Correlated(Next(h, step, lookup))
  {
    var k := Next(h, step, lookup);
    match step {
      case Register(uuid, s) => RegisterCorrelates(h, uuid, lookup(uuid), s);
      case Unregister(uuid, s) => UnregisterCorrelates(h, uuid, s);
      case CallPick(call, _) => CallCorrelates(h, k, call);
      case CallPend(call, r, c) =>
        PendCorrelates(h, h.calls[call].session, r, c);
        CallCorrelates(DoPend(h, h.calls[call].session, r, c), k, call);
      case CallSendFails(call) => CallCorrelates(h, k, call);
      case CallTimesOut(call) => CallCorrelates(h, k, call);
      case CallReceives(call) => ReceiveCorrelates(h, call, lookup);
      case CallLeaves(call) =>
        assert CallFits(h, h.calls[call]);
        UnpendCorrelates(h, h.calls[call].session, h.calls[call].request);
        CallCorrelates(DoUnpend(h, h.calls[call].session, h.calls[call].request), k, call);
      case RoutePick(_, _, _) => ReindexCorrelates(h, k);
      case RouteDeliver(route) => DeliverCorrelates(h, h.routes[route].session, h.routes[route].envelope);
    }
  }

  /** In every interleaving: no channel is closed twice or sent to after its close, every channel in
      a pending map is open, and a call that returns a response returns one to its own request. */
  lemma {:induction false} CommandsCorrelate(hubs: seq<Hub>, steps: seq<Step>, lookup: UUID -> NodeID, i: nat)
    requires IsRun(hubs, steps, lookup) && i <= |steps|
    ensures !hubs[i].panicked && PendingOpen(hubs[i])
    ensures forall x :: x in hubs[i].calls && hubs[i].calls[x].Returned? && hubs[i].calls[x].result.Response? ==>
              hubs[i].calls[x].asked == Some(hubs[i].calls[x].result.envelope.request)
    ensures Correlated(hubs[i])
  {
    if i > 0 {
      CommandsCorrelate(hubs, steps, lookup, i - 1);
      StepCorrelates(hubs[i - 1], steps[i - 1], lookup);
    }
    forall x | x in hubs[i].calls && hubs[i].calls[x].Returned? && hubs[i].calls[x].result.Response?
      ensures hubs[i].calls[x].asked == Some(hubs[i].calls[x].result.envelope.request)
    {
      assert CallFits(hubs[i], hubs[i].calls[x]);
    }
  }

  predicate HasResult(h: Hub, call: CallID) {
    call in h.calls && (h.calls[call].Leaving? || h.calls[call].Returned?)
  }

  lemma StepKeepsResult(h: Hub, step: Step, lookup: UUID -> NodeID, call: CallID)
    requires Enabled(h, step) && HasResult(h, call)
    ensures HasResult(Next(h, step, lookup), call)
    ensures Next(h, step, lookup).calls[call].result == h.calls[call].result
  {
  }

  /** A call takes at most one result: once it has one, later steps leave it. */
  lemma {:induction false} ResultIsFinal(hubs: seq<Hub>, steps: seq<Step>, lookup: UUID -> NodeID, i: nat, j: nat, call: CallID)
    requires IsRun(hubs, steps, lookup) && i <= j <= |steps| && HasResult(hubs[i], call)
    ensures HasResult(hubs[j], call) && hubs[j].calls[call].result == hubs[i].calls[call].result
    decreases j
  {
    if i < j {
      ResultIsFinal(hubs, steps, lookup, i, j - 1, call);
      StepKeepsResult(hubs[j - 1], steps[j - 1], lookup, call);
    }
  }
}
