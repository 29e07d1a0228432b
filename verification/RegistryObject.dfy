/** The registry's maps changed in place. Each method is one lock-held section and does what the
    step of the same name does; the channels it closes are open, as every run guarantees. */
module RegistryObject {
  import opened Common
  import opened Registry

  lemma NothingClosed(chans: map<ChanID, Chan>)
    ensures Closed(chans, map[]) == chans
  {
  }

  lemma CloseOneMore(chans: map<ChanID, Chan>, done: map<RequestID, ChanID>, id: RequestID, ch: ChanID)
    requires id !in done && ch in chans
    ensures Closed(chans, done[id := ch])
         == Closed(chans, done)[ch := Closed(chans, done)[ch].(isOpen := false)]
  {
    var more := done[id := ch];
    forall c ensures c in more.Values <==> c in done.Values || c == ch {
      if c in done.Values {
        var r :| r in done && done[r] == c;
        assert more[r] == c;
      }
      assert more[id] == ch;
    }
  }

  lemma StillOpen(chans: map<ChanID, Chan>, pending: map<RequestID, ChanID>, done: map<RequestID, ChanID>, id: RequestID)
    requires SafeToClose(chans, pending) && id in pending && id !in done
    requires forall r :: r in done ==> r in pending && pending[r] == done[r]
    ensures pending[id] in chans && Closed(chans, done)[pending[id]].isOpen
  {
  }

  class ConnectedAgentRegistry {
    var sessions: map<UUID, SessionID>
    var byNodeID: map<NodeID, SessionID>
    var table: map<SessionID, Session>
    var chans: map<ChanID, Chan>

    function View(): Hub
      reads this
    {
      EMPTY.(sessions := sessions, byNodeID := byNodeID, table := table, chans := chans)
    }

    /** No session that is in use has a closed or shared channel pending. */
    ghost predicate Closable()
      reads this
    {
      forall u :: u in sessions ==> sessions[u] in table && SafeToClose(chans, table[sessions[u]].pending)
    }

    constructor ()
      ensures View() == EMPTY
    {
      sessions, byNodeID, table, chans := map[], map[], map[], map[];
    }

    /** Close every channel in a pending map, one after the other. */
    method CloseChans(pending: map<RequestID, ChanID>)
      requires SafeToClose(chans, pending)
      modifies this`chans
      ensures chans == Closed(old(chans), pending)
    {
      var left := pending;
      ghost var done: map<RequestID, ChanID> := map[];
      NothingClosed(chans);
      while left != map[]
        invariant done.Keys !! left.Keys && done.Keys + left.Keys == pending.Keys
        invariant forall r :: r in done ==> done[r] == pending[r]
        invariant forall r :: r in left ==> left[r] == pending[r]
        invariant chans == Closed(old(chans), done)
        decreases left.Keys
      {
        var id :| id in left;
        var ch := left[id];
        StillOpen(old(chans), pending, done, id);
        assert chans[ch].isOpen;
        CloseOneMore(old(chans), done, id, ch);
        chans := chans[ch := chans[ch].(isOpen := false)];
        left := left - {id};
        done := done[id := ch];
      }
      assert done == pending;
    }

    /** Close every channel a session's commands wait on, and forget them. */
    method ClosePending(s: SessionID)
      requires s in table && SafeToClose(chans, table[s].pending)
      modifies this`chans, this`table
      ensures View() == CloseSession(old(View()), s)
    {
      CloseChans(table[s].pending);
      table := table[s := table[s].(pending := map[])];
    }

    method Register(uuid: UUID, node: NodeID, s: SessionID)
      requires s !in table && Closable()
      modifies this
      ensures View() == DoRegister(old(View()), uuid, node, s)
    {
      if uuid in sessions {
        var prior := sessions[uuid];
        ClosePending(prior);
        byNodeID := byNodeID - {table[prior].node};
      }
      table := table[s := Session(node, uuid, map[])];
      sessions := sessions[uuid := s];
      byNodeID := byNodeID[node := s];
    }

    method Unregister(uuid: UUID, s: SessionID)
      requires Closable()
      modifies this
      ensures View() == DoUnregister(old(View()), uuid, s)
    {
      if uuid !in sessions || sessions[uuid] != s {
        return;
      }
      ClosePending(s);
      sessions := sessions - {uuid};
      byNodeID := byNodeID - {table[s].node};
    }

    method AddPending(s: SessionID, r: RequestID, c: ChanID)
      requires s in table
      modifies this
      ensures View() == DoPend(old(View()), s, r, c)
    {
      chans := chans[c := Chan(s, r, true, None)];
      table := table[s := table[s].(pending := table[s].pending[r := c])];
    }

    method RemovePending(s: SessionID, r: RequestID)
      requires s in table
      modifies this
      ensures View() == DoUnpend(old(View()), s, r)
    {
      table := table[s := table[s].(pending := table[s].pending - {r})];
    }

    /** The delivering half of RouteResponse. */
    method Deliver(s: SessionID, env: Envelope)
      requires s in table && SafeToClose(chans, table[s].pending)
      modifies this
      ensures View() == DoDeliver(old(View()), s, env)
    {
      if env.request !in table[s].pending {
        return;
      }
      var ch := table[s].pending[env.request];
      if chans[ch].slot.None? {
        chans := chans[ch := chans[ch].(slot := Some(env))];
      }
    }
  }
}
