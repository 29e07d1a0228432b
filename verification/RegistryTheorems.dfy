/** What holds of the registry in every interleaving. */
module RegistryTheorems {
  import opened Common
  import opened Registry

  // ---------- the two indexes

  ghost predicate Injective(lookup: UUID -> NodeID) {
    forall u, v :: lookup(u) == lookup(v) ==> u == v
  }

  /** sessions and byNodeID index the same sessions. */
  ghost predicate Consistent(h: Hub, lookup: UUID -> NodeID) {
    && (forall u :: u in h.sessions ==> lookup(u) in h.byNodeID && h.byNodeID[lookup(u)] == h.sessions[u])
    && (forall n :: n in h.byNodeID ==> exists u :: u in h.sessions && lookup(u) == n && h.sessions[u] == h.byNodeID[n])
  }

  ghost predicate TableMatches(h: Hub, lookup: UUID -> NodeID) {
    && (forall s :: s in h.table ==> h.table[s].node == lookup(h.table[s].uuid))
    && (forall u :: u in h.sessions ==> h.sessions[u] in h.table && h.table[h.sessions[u]].uuid == u)
  }

  ghost predicate Forward(h: Hub, lookup: UUID -> NodeID) {
    forall u :: u in h.sessions ==> lookup(u) in h.byNodeID && h.byNodeID[lookup(u)] == h.sessions[u]
  }

  ghost predicate Backward(h: Hub) {
    forall n :: n in h.byNodeID ==>
      var s := h.byNodeID[n];
      s in h.table && h.table[s].node == n && h.table[s].uuid in h.sessions && h.sessions[h.table[s].uuid] == s
  }

  ghost predicate Indexed(h: Hub, lookup: UUID -> NodeID) {
    TableMatches(h, lookup) && Forward(h, lookup) && Backward(h)
  }

  lemma IndexedIsConsistent(h: Hub, lookup: UUID -> NodeID)
    requires Indexed(h, lookup)
    ensures Consistent(h, lookup)
  {
    forall n | n in h.byNodeID ensures exists u :: u in h.sessions && lookup(u) == n && h.sessions[u] == h.byNodeID[n] {
      var u := h.table[h.byNodeID[n]].uuid;
      assert u in h.sessions && lookup(u) == n;
    }
  }

  /** k has the same sessions as h, who each of them is unchanged. */
  ghost predicate SameTable(h: Hub, k: Hub) {
    && h.table.Keys <= k.table.Keys
    && forall s :: s in h.table ==> k.table[s].node == h.table[s].node && k.table[s].uuid == h.table[s].uuid
  }

  lemma RegisterEffect(h: Hub, uuid: UUID, node: NodeID, s: SessionID)
    requires s !in h.table && (uuid in h.sessions ==> h.sessions[uuid] in h.table)
    ensures var k := DoRegister(h, uuid, node, s);
            && k.sessions == h.sessions[uuid := s]
            && k.byNodeID == (if uuid in h.sessions then h.byNodeID - {h.table[h.sessions[uuid]].node} else h.byNodeID)[node := s]
            && k.table.Keys == h.table.Keys + {s}
            && k.table[s] == Session(node, uuid, map[])
            && SameTable(h, k)
  {
  }

  lemma UnregisterEffect(h: Hub, uuid: UUID, s: SessionID)
    requires uuid in h.sessions && h.sessions[uuid] == s && s in h.table
    ensures var k := DoUnregister(h, uuid, s);
            && k.sessions == h.sessions - {uuid}
            && k.byNodeID == h.byNodeID - {h.table[s].node}
            && k.table.Keys == h.table.Keys
            && SameTable(h, k)
  {
  }

  lemma RegisterIndexes(h: Hub, k: Hub, uuid: UUID, s: SessionID, lookup: UUID -> NodeID)
    requires Indexed(h, lookup) && s !in h.table && Injective(lookup)
    requires k.sessions == h.sessions[uuid := s] && k.byNodeID == h.byNodeID[lookup(uuid) := s] && SameTable(h, k)
    requires k.table.Keys == h.table.Keys + {s} && k.table[s] == Session(lookup(uuid), uuid, map[])
    ensures Indexed(k, lookup)
  {
    assert TableMatches(k, lookup);
    assert Forward(k, lookup);
    RegisterBackward(h, k, uuid, s, lookup);
  }

  lemma RegisterBackward(h: Hub, k: Hub, uuid: UUID, s: SessionID, lookup: UUID -> NodeID)
    requires Indexed(h, lookup) && s !in h.table
    requires k.sessions == h.sessions[uuid := s] && k.byNodeID == h.byNodeID[lookup(uuid) := s] && SameTable(h, k)
    requires k.table.Keys == h.table.Keys + {s} && k.table[s] == Session(lookup(uuid), uuid, map[])
    ensures Backward(k)
  {
    forall n | n in k.byNodeID
      ensures var s := k.byNodeID[n];
              s in k.table && k.table[s].node == n && k.table[s].uuid in k.sessions && k.sessions[k.table[s].uuid] == s
    {
      if n != lookup(uuid) {
        var x := h.byNodeID[n];
        assert h.table[x].uuid != uuid;
      }
    }
  }

  lemma UnregisterIndexes(h: Hub, k: Hub, uuid: UUID, lookup: UUID -> NodeID)
    requires Indexed(h, lookup) && Injective(lookup) && uuid in h.sessions
    requires k.sessions == h.sessions - {uuid} && k.byNodeID == h.byNodeID - {lookup(uuid)}
    requires k.table.Keys == h.table.Keys && SameTable(h, k)
    ensures Indexed(k, lookup)
  {
  }

  /** The steps that leave both indexes, and who each session is, alone. */
  ghost predicate SameIndexes(h: Hub, k: Hub) {
    k.sessions == h.sessions && k.byNodeID == h.byNodeID && k.table.Keys == h.table.Keys && SameTable(h, k)
  }

  lemma CallsKeepIndexes(h: Hub, step: Step, lookup: UUID -> NodeID)
    requires Enabled(h, step)
    requires step.CallPick? || step.CallPend? || step.CallSendFails? || step.CallTimesOut?
    ensures SameIndexes(h, Next(h, step, lookup))
  {
  }

  lemma AnswersKeepIndexes(h: Hub, step: Step, lookup: UUID -> NodeID)
    requires Enabled(h, step)
    requires step.CallReceives? || step.CallLeaves? || step.RoutePick? || step.RouteDeliver?
    ensures SameIndexes(h, Next(h, step, lookup))
  {
  }

  lemma OthersKeepIndexes(h: Hub, step: Step, lookup: UUID -> NodeID)
    requires Enabled(h, step) && !step.Register? && !step.Unregister?
    ensures SameIndexes(h, Next(h, step, lookup))
  {
    if step.CallPick? || step.CallPend? || step.CallSendFails? || step.CallTimesOut? {
      CallsKeepIndexes(h, step, lookup);
    } else {
      AnswersKeepIndexes(h, step, lookup);
    }
  }

  lemma SameIndexesIndexed(h: Hub, k: Hub, lookup: UUID -> NodeID)
    requires SameIndexes(h, k) && Indexed(h, lookup)
    ensures Indexed(k, lookup)
  {
  }

  lemma StepIndexes(h: Hub, step: Step, lookup: UUID -> NodeID)
    requires Enabled(h, step) && Indexed(h, lookup) && Injective(lookup)
    ensures Indexed(Next(h, step, lookup), lookup)
  {
    match step {
      case Register(uuid, s) =>
        RegisterEffect(h, uuid, lookup(uuid), s);
        RegisterIndexes(h, DoRegister(h, uuid, lookup(uuid), s), uuid, s, lookup);
      case Unregister(uuid, s) =>
        if uuid in h.sessions && h.sessions[uuid] == s {
          UnregisterEffect(h, uuid, s);
          UnregisterIndexes(h, DoUnregister(h, uuid, s), uuid, lookup);
        }
      case _ =>
        OthersKeepIndexes(h, step, lookup);
        SameIndexesIndexed(h, Next(h, step, lookup), lookup);
    }
  }

  lemma {:induction false} RunIndexes(hubs: seq<Hub>, steps: seq<Step>, lookup: UUID -> NodeID, i: nat)
    requires IsRun(hubs, steps, lookup) && Injective(lookup) && i <= |steps|
    ensures Indexed(hubs[i], lookup)
  {
    if i > 0 {
      RunIndexes(hubs, steps, lookup, i - 1);
      StepIndexes(hubs[i - 1], steps[i - 1], lookup);
    }
  }

  ghost predicate AlwaysConsistent(lookup: UUID -> NodeID) {
    forall hubs, steps, i :: IsRun(hubs, steps, lookup) && 0 <= i <= |steps| ==> Consistent(hubs[i], lookup)
  }

  /** The two indexes agree in every run exactly when no two UUIDs share a node ID. */
  lemma ConsistentExactlyWhenInjective(lookup: UUID -> NodeID)
    ensures AlwaysConsistent(lookup) <==> Injective(lookup)
  {
    if Injective(lookup) {
      forall hubs, steps, i | IsRun(hubs, steps, lookup) && 0 <= i <= |steps| ensures Consistent(hubs[i], lookup) {
        RunIndexes(hubs, steps, lookup, i);
        IndexedIsConsistent(hubs[i], lookup);
      }
    } else {
      var u, v :| lookup(u) == lookup(v) && u != v;
      var hubs, steps := TwoRegister(lookup, u, v);
    }
  }

  /** Two agents whose UUIDs share a node ID: the second takes the first one's place in byNodeID. */
  lemma TwoRegister(lookup: UUID -> NodeID, u: UUID, v: UUID) returns (hubs: seq<Hub>, steps: seq<Step>)
    requires lookup(u) == lookup(v) && u != v
    ensures IsRun(hubs, steps, lookup) && |steps| == 2 && !Consistent(hubs[2], lookup)
  {
    RegisterEffect(EMPTY, u, lookup(u), 0);
    var h1 := DoRegister(EMPTY, u, lookup(u), 0);
    RegisterEffect(h1, v, lookup(v), 1);
    var h2 := DoRegister(h1, v, lookup(v), 1);
    assert h2.sessions[u] == 0 && h2.byNodeID[lookup(u)] == 1;
    assert h1 == Next(EMPTY, Register(u, 0), lookup) && h2 == Next(h1, Register(v, 1), lookup);
    hubs, steps := [EMPTY, h1, h2], [Register(u, 0), Register(v, 1)];
  }

  // ---------- the current session

  /** The session registered last for a UUID. */
  function LastRegistered(steps: seq<Step>, u: UUID): Option<SessionID> {
    if steps == [] then None
    else
      var last := steps[|steps| - 1];
      if last.Register? && last.uuid == u then Some(last.session) else LastRegistered(steps[..|steps| - 1], u)
  }

  predicate Ended(steps: seq<Step>, u: UUID, s: SessionID) {
    Unregister(u, s) in steps
  }

  function Current(h: Hub, u: UUID): Option<SessionID> {
    if u in h.sessions then Some(h.sessions[u]) else None
  }

  lemma {:induction false} EndedAreKnown(hubs: seq<Hub>, steps: seq<Step>, lookup: UUID -> NodeID, i: nat)
    requires IsRun(hubs, steps, lookup) && i <= |steps|
    ensures forall u, s :: Ended(steps[..i], u, s) ==> s in hubs[i].table
    ensures forall u :: LastRegistered(steps[..i], u).Some? ==> LastRegistered(steps[..i], u).value in hubs[i].table
    ensures i > 0 ==> hubs[i - 1].table.Keys <= hubs[i].table.Keys
  {
    if i > 0 {
      EndedAreKnown(hubs, steps, lookup, i - 1);
      assert steps[..i] == steps[..i - 1] + [steps[i - 1]];
      assert steps[..i][..i - 1] == steps[..i - 1];
      TableGrows(hubs[i - 1], steps[i - 1], lookup);
      forall u, s | Ended(steps[..i], u, s) ensures s in hubs[i].table {
        assert Ended(steps[..i - 1], u, s) || steps[i - 1] == Unregister(u, s);
      }
    }
  }

  lemma TableGrows(h: Hub, step: Step, lookup: UUID -> NodeID)
    requires Enabled(h, step)
    ensures h.table.Keys <= Next(h, step, lookup).table.Keys
    ensures step.Register? ==> step.session in Next(h, step, lookup).table
  {
  }

  lemma StepCurrent(h: Hub, step: Step, lookup: UUID -> NodeID, u: UUID)
    requires Enabled(h, step)
    ensures Current(Next(h, step, lookup), u)
         == if step.Register? && step.uuid == u then Some(step.session)
            else if step.Unregister? && step.uuid == u && Current(h, u) == Some(step.session) then None
            else Current(h, u)
  {
  }

  /** However stale handlers interleave, the session for a UUID is the one registered last, until
      that session's own handler unregisters it; then there is none. */
  lemma {:induction false} CurrentIsLastRegistered(hubs: seq<Hub>, steps: seq<Step>, lookup: UUID -> NodeID, i: nat, u: UUID)
    requires IsRun(hubs, steps, lookup) && i <= |steps|
    ensures var last := LastRegistered(steps[..i], u);
            Current(hubs[i], u) == if last.None? || Ended(steps[..i], u, last.value) then None else last
  {
    if i > 0 {
      CurrentIsLastRegistered(hubs, steps, lookup, i - 1, u);
      EndedAreKnown(hubs, steps, lookup, i - 1);
      var step := steps[i - 1];
      assert steps[..i] == steps[..i - 1] + [step];
      assert steps[..i][..i - 1] == steps[..i - 1];
      StepCurrent(hubs[i - 1], step, lookup, u);
      if step.Register? && step.uuid == u {
        assert !Ended(steps[..i - 1], u, step.session);
      }
    }
  }
}
