/** The terminal rendezvous: an opener registers a waiter, the agent's stream is put in its slot, and
    whoever leaves last closes what is left. */
module Terminals {
  import opened Common

  // ---------- the objects

  /** terminalSessionStream: closed at most once, whoever asks. */
  class Session {
    var isClosed: bool

    constructor ()
      ensures !isClosed
    {
      isClosed := false;
    }

    method Close()
      modifies this
      ensures isClosed
    {
      if !isClosed {
        isClosed := true;
      }
    }
  }

  /** A channel with one buffered slot. */
  class Waiter {
    var slot: Option<Session>

    constructor ()
      ensures slot == None
    {
      slot := None;
    }
  }

  class HubServer {
    var waiters: map<string, Waiter>

    constructor ()
      ensures waiters == map[]
    {
      waiters := map[];
    }

    method RegisterTerminalWaiter(id: string) returns (w: Waiter)
      modifies this
      ensures fresh(w) && w.slot == None && waiters == old(waiters)[id := w]
    {
      w := new Waiter();
      waiters := waiters[id := w];
    }

    /** The locked part of TerminalChannel: into the waiter's slot if it is free, refused otherwise. */
    method Offer(id: string, stream: Session) returns (ok: bool)
      modifies if id in waiters then {waiters[id]} else {}
      ensures ok == (id in waiters && old(waiters[id].slot) == None)
      ensures id in waiters ==> waiters[id].slot == if ok then Some(stream) else old(waiters[id].slot)
    {
      ok := false;
      if id in waiters && waiters[id].slot == None {
        waiters[id].slot := Some(stream);
        ok := true;
      }
    }

    /** Forget the waiter; a stream delivered and never taken is closed. */
    method CleanupTerminalWaiter(id: string)
      modifies this, if id in waiters then {waiters[id]} else {},
               if id in waiters && waiters[id].slot.Some? then {waiters[id].slot.value} else {}
      ensures waiters == old(waiters) - {id}
      ensures id in old(waiters) ==>
                var w := old(waiters)[id];
                w.slot == None && (old(w.slot).Some? ==> old(w.slot).value.isClosed)
    {
      if id in waiters {
        var w := waiters[id];
        waiters := waiters - {id};
        if w.slot.Some? {
          var stream := w.slot.value;
          w.slot := None;
          stream.Close();
        }
      }
    }
  }

  // ---------- every interleaving

  type SessionID = nat
  type ChanID = nat
  type StreamID = nat
  type OpenerID = nat

  /** Where an OpenTerminal stands. Got and GaveUp still have to run the deferred cleanup. */
  datatype Opener =
    | Waiting(id: SessionID, chan: ChanID)
    | Got(id: SessionID, chan: ChanID, stream: StreamID)
    | GaveUp(id: SessionID, chan: ChanID)
    | Done(id: SessionID, chan: ChanID, got: Option<StreamID>)

  datatype Hub = Hub(
    waiters: map<SessionID, ChanID>,
    slots: map<ChanID, Option<StreamID>>,
    openers: map<OpenerID, Opener>,
    accepted: set<StreamID>,
    refused: set<StreamID>,
    closed: set<StreamID>)

  const EMPTY := Hub(map[], map[], map[], {}, {}, {})

  datatype Step =
    | Open(opener: OpenerID, id: SessionID, chan: ChanID)
    | Arrive(stream: StreamID, id: SessionID)
    | Take(opener: OpenerID)
    | GiveUp(opener: OpenerID)
    | CleanUp(opener: OpenerID)
    | CloseHeld(opener: OpenerID)

  predicate IsFresh(h: Hub, id: SessionID) {
    forall o :: o in h.openers ==> h.openers[o].id != id
  }

  predicate Enabled(h: Hub, step: Step) {
    match step
    case Open(o, id, c) => o !in h.openers && c !in h.slots
    case Arrive(s, _) => s !in h.accepted && s !in h.refused
    case Take(o) =>
      o in h.openers && h.openers[o].Waiting? && h.openers[o].chan in h.slots && h.slots[h.openers[o].chan].Some?
    case GiveUp(o) => o in h.openers && h.openers[o].Waiting?
    case CleanUp(o) => o in h.openers && (h.openers[o].Got? || h.openers[o].GaveUp?)
    case CloseHeld(o) => o in h.openers && Holding(h.openers[o]).Some?
  }

  /** The stream the opener has received. */
  function Holding(o: Opener): Option<StreamID> {
    match o
    case Got(_, _, s) => Some(s)
    case Done(_, _, got) => got
    case _ => None
  }

  predicate HasRoom(h: Hub, id: SessionID) {
    id in h.waiters && h.waiters[id] in h.slots && h.slots[h.waiters[id]].None?
  }

  function Drained(h: Hub, id: SessionID): Hub {
    if id !in h.waiters then h
    else
      var c := h.waiters[id];
      var k := h.(waiters := h.waiters - {id});
      if c in h.slots && h.slots[c].Some?
      then k.(slots := h.slots[c := None], closed := h.closed + {h.slots[c].value})
      else k
  }

  function Next(h: Hub, step: Step): Hub
    requires Enabled(h, step)
  {
    match step
    case Open(o, id, c) =>
      h.(waiters := h.waiters[id := c], slots := h.slots[c := None], openers := h.openers[o := Waiting(id, c)])
    case Arrive(s, id) =>
      if HasRoom(h, id) then h.(slots := h.slots[h.waiters[id] := Some(s)], accepted := h.accepted + {s})
      else h.(refused := h.refused + {s})
    case Take(o) =>
      var w := h.openers[o];
      h.(slots := h.slots[w.chan := None], openers := h.openers[o := Got(w.id, w.chan, h.slots[w.chan].value)])
    case GiveUp(o) => h.(openers := h.openers[o := GaveUp(h.openers[o].id, h.openers[o].chan)])
    case CleanUp(o) =>
      var w := h.openers[o];
      Drained(h, w.id).(openers := h.openers[o := Done(w.id, w.chan, Holding(w))])
    case CloseHeld(o) => h.(closed := h.closed + {Holding(h.openers[o]).value})
  }

  ghost predicate IsRun(hubs: seq<Hub>, steps: seq<Step>) {
    && |hubs| == |steps| + 1
    && hubs[0] == EMPTY
    && forall i :: 0 <= i < |steps| ==> Enabled(hubs[i], steps[i]) && hubs[i + 1] == Next(hubs[i], steps[i])
  }

  ghost predicate FreshIDs(hubs: seq<Hub>, steps: seq<Step>)
    requires IsRun(hubs, steps)
  {
    forall i :: 0 <= i < |steps| && steps[i].Open? ==> IsFresh(hubs[i], steps[i].id)
  }

  // ---------- the three places

  ghost predicate InSlot(h: Hub, s: StreamID) {
    exists c :: c in h.slots && h.slots[c] == Some(s)
  }

  ghost predicate Received(h: Hub, s: StreamID) {
    exists o :: o in h.openers && Holding(h.openers[o]) == Some(s)
  }

  ghost predicate AtOpener(h: Hub, s: StreamID) {
    Received(h, s) && s !in h.closed
  }

  /** An accepted stream is in the slot, at the opener, or closed: in exactly one of the three. */
  ghost predicate InOnePlace(h: Hub, s: StreamID) {
    && (InSlot(h, s) || AtOpener(h, s) || s in h.closed)
    && !(InSlot(h, s) && AtOpener(h, s))
    && !(InSlot(h, s) && s in h.closed)
  }

  // ---------- invariants of every run

  /** Every opener has a channel of its own. */
  ghost predicate ChansApart(h: Hub) {
    && (forall o :: o in h.openers ==> h.openers[o].chan in h.slots)
    && (forall o, p :: o in h.openers && p in h.openers && o != p ==> h.openers[o].chan != h.openers[p].chan)
  }

  ghost predicate Waits(h: Hub, o: OpenerID, id: SessionID, c: ChanID) {
    o in h.openers && !h.openers[o].Done? && h.openers[o].id == id && h.openers[o].chan == c
  }

  ghost predicate HasOpener(h: Hub, id: SessionID, c: ChanID) {
    exists o: OpenerID :: Waits(h, o, id, c)
  }

  /** A registered channel is the channel of an opener of that ID that has not returned. */
  ghost predicate Registered(h: Hub) {
    forall id: SessionID :: id in h.waiters ==> HasOpener(h, id, h.waiters[id])
  }

  ghost predicate Kept(h: Hub) {
    forall s: StreamID :: s in h.accepted ==> InSlot(h, s) || Received(h, s) || s in h.closed
  }

  /** What is in a slot is nowhere else, and no two openers hold the same stream. */
  ghost predicate Sole(h: Hub) {
    && (forall c :: c in h.slots && h.slots[c].Some? ==>
          h.slots[c].value in h.accepted && h.slots[c].value !in h.closed)
    && (forall c, o :: c in h.slots && h.slots[c].Some? && o in h.openers ==> Holding(h.openers[o]) != h.slots[c])
    && (forall c, d :: c in h.slots && d in h.slots && c != d && h.slots[c].Some? ==> h.slots[c] != h.slots[d])
    && (forall o :: o in h.openers && Holding(h.openers[o]).Some? ==> Holding(h.openers[o]).value in h.accepted)
    && (forall o, p :: o in h.openers && p in h.openers && o != p && Holding(h.openers[o]).Some? ==>
          Holding(h.openers[o]) != Holding(h.openers[p]))
    && h.closed <= h.accepted && h.accepted !! h.refused
  }

  ghost predicate Invariant(h: Hub) {
    ChansApart(h) && Registered(h) && Kept(h) && Sole(h)
  }

  // ---------- every step keeps them

  lemma StepApart(h: Hub, step: Step)
    requires ChansApart(h) && Enabled(h, step)
    ensures ChansApart(Next(h, step))
  {}

  lemma StillWaits(h: Hub, step: Step, o: OpenerID, id: SessionID, c: ChanID)
    requires Enabled(h, step) && Waits(h, o, id, c) && step != CleanUp(o)
    ensures HasOpener(Next(h, step), id, c)
  {
    assert Waits(Next(h, step), o, id, c);
  }

  lemma StepRegistered(h: Hub, step: Step)
    requires Registered(h) && Enabled(h, step)
    ensures Registered(Next(h, step))
  {
    var k := Next(h, step);
    forall id: SessionID | id in k.waiters ensures HasOpener(k, id, k.waiters[id]) {
      if step.Open? && step.id == id {
        assert Waits(k, step.opener, id, step.chan);
      } else {
        assert id in h.waiters && k.waiters[id] == h.waiters[id];
        assert HasOpener(h, id, h.waiters[id]);
        var o: OpenerID :| Waits(h, o, id, h.waiters[id]);
        StillWaits(h, step, o, id, h.waiters[id]);
      }
    }
  }

  lemma SlotSurvives(h: Hub, k: Hub, s: StreamID)
    requires InSlot(h, s)
    requires forall c :: c in h.slots && h.slots[c] == Some(s) ==> c in k.slots && k.slots[c] == Some(s)
    ensures InSlot(k, s)
  {
    var c :| c in h.slots && h.slots[c] == Some(s);
    assert k.slots[c] == Some(s);
  }

  lemma HoldSurvives(h: Hub, k: Hub, s: StreamID)
    requires Received(h, s)
    requires forall o :: o in h.openers && Holding(h.openers[o]) == Some(s) ==>
               o in k.openers && Holding(k.openers[o]) == Some(s)
    ensures Received(k, s)
  {
    var o :| o in h.openers && Holding(h.openers[o]) == Some(s);
    assert Holding(k.openers[o]) == Some(s);
  }

  lemma StaysKept(h: Hub, step: Step, s: StreamID)
    requires Enabled(h, step)
    requires InSlot(h, s) || Received(h, s) || s in h.closed
    ensures var k := Next(h, step); InSlot(k, s) || Received(k, s) || s in k.closed
  {
    var k := Next(h, step);
    if s in h.closed {
    } else if Received(h, s) {
      HoldSurvives(h, k, s);
    } else {
      LeavesSlotWell(h, step, s);
    }
  }

  /** A stream leaves its slot only into the opener's hands or by being closed. */
  lemma LeavesSlotWell(h: Hub, step: Step, s: StreamID)
    requires Enabled(h, step) && InSlot(h, s)
    ensures var k := Next(h, step); InSlot(k, s) || Received(k, s) || s in k.closed
  {
    var k := Next(h, step);
    match step
    case Take(o) =>
      if h.slots[h.openers[o].chan] == Some(s) {
        assert Holding(k.openers[o]) == Some(s);
      } else {
        SlotSurvives(h, k, s);
      }
    case CleanUp(o) =>
      if s !in k.closed {
        SlotSurvives(h, k, s);
      }
    case _ => SlotSurvives(h, k, s);
  }

  lemma StepKept(h: Hub, step: Step)
    requires Enabled(h, step) && Kept(h)
    ensures Kept(Next(h, step))
  {
    var k := Next(h, step);
    forall s: StreamID | s in k.accepted ensures InSlot(k, s) || Received(k, s) || s in k.closed {
      if s in h.accepted {
        StaysKept(h, step, s);
      } else {
        assert k.slots[h.waiters[step.id]] == Some(s);
      }
    }
  }

  lemma OpenSole(h: Hub, o: OpenerID, id: SessionID, c: ChanID)
    requires Sole(h) && Enabled(h, Open(o, id, c))
    ensures Sole(Next(h, Open(o, id, c)))
  {}

  lemma DrainSole(h: Hub, id: SessionID)
    requires Sole(h)
    ensures Sole(Drained(h, id))
  {}

  lemma RenameSole(h: Hub, o: OpenerID, w: Opener)
    requires Sole(h) && o in h.openers && Holding(w) == Holding(h.openers[o])
    ensures Sole(h.(openers := h.openers[o := w]))
  {}

  lemma ArriveSole(h: Hub, s: StreamID, id: SessionID)
    requires Sole(h) && Enabled(h, Arrive(s, id))
    ensures Sole(Next(h, Arrive(s, id)))
  {}

  lemma TakeSole(h: Hub, o: OpenerID)
    requires Sole(h) && Enabled(h, Take(o))
    ensures Sole(Next(h, Take(o)))
  {}

  lemma StepSole(h: Hub, step: Step)
    requires Sole(h) && Enabled(h, step)
    ensures Sole(Next(h, step))
  {
    match step
    case Open(o, id, c) => OpenSole(h, o, id, c);
    case Arrive(s, id) => ArriveSole(h, s, id);
    case Take(o) => TakeSole(h, o);
    case GiveUp(o) => RenameSole(h, o, GaveUp(h.openers[o].id, h.openers[o].chan));
    case CleanUp(o) =>
      var w := h.openers[o];
      DrainSole(h, w.id);
      RenameSole(Drained(h, w.id), o, Done(w.id, w.chan, Holding(w)));
    case CloseHeld(o) =>
  }

  lemma StepKeeps(h: Hub, step: Step)
    requires Invariant(h) && Enabled(h, step)
    ensures Invariant(Next(h, step))
  {
    StepApart(h, step);
    StepRegistered(h, step);
    StepKept(h, step);
    StepSole(h, step);
  }

  lemma {:induction false} RunKeeps(hubs: seq<Hub>, steps: seq<Step>, i: nat)
    requires IsRun(hubs, steps) && i < |hubs|
    ensures Invariant(hubs[i])
  {
    if i > 0 {
      RunKeeps(hubs, steps, i - 1);
      StepKeeps(hubs[i - 1], steps[i - 1]);
    }
  }

  /** At every moment of every run, whatever the session IDs, an accepted stream is in exactly one of the
      three places. */
  lemma AlwaysInOnePlace(hubs: seq<Hub>, steps: seq<Step>, i: nat, s: StreamID)
    requires IsRun(hubs, steps) && i < |hubs| && s in hubs[i].accepted
    ensures InOnePlace(hubs[i], s)
  {
    RunKeeps(hubs, steps, i);
  }

  // ---------- handing a stream over

  ghost predicate OfOpener(h: Hub, o: OpenerID, s: StreamID) {
    o in h.openers && h.openers[o].chan in h.slots && h.slots[h.openers[o].chan] == Some(s)
  }

  /** A stream that arrives for a waiting opener is accepted, taken by that opener and open in its hands. */
  lemma StreamIsHandedOver(h: Hub, o: OpenerID, s: StreamID)
    requires Invariant(h) && o in h.openers && h.openers[o].Waiting? && h.openers[o].id in h.waiters
    requires h.waiters[h.openers[o].id] == h.openers[o].chan && h.slots[h.openers[o].chan] == None
    requires Enabled(h, Arrive(s, h.openers[o].id))
    ensures var k := Next(h, Arrive(s, h.openers[o].id));
            && s in k.accepted && OfOpener(k, o, s) && Enabled(k, Take(o))
            && var t := Next(k, Take(o));
            && Holding(t.openers[o]) == Some(s) && s !in t.closed && !InSlot(t, s)
  {
    var k := Next(h, Arrive(s, h.openers[o].id));
    StepSole(h, Arrive(s, h.openers[o].id));
    var t := Next(k, Take(o));
    StepSole(k, Take(o));
    assert Holding(t.openers[o]) == Some(s);
  }

  /** A stream for an ID nobody waits under, or whose slot is taken, is refused and changes nothing else. */
  lemma StreamIsRefused(h: Hub, s: StreamID, id: SessionID)
    requires Enabled(h, Arrive(s, id)) && !HasRoom(h, id)
    ensures Next(h, Arrive(s, id)) == h.(refused := h.refused + {s})
  {}

  /** An opener that gave up after its stream had come closes it; one that has its stream keeps it. */
  lemma CleanUpCloses(h: Hub, o: OpenerID, s: StreamID)
    requires Invariant(h) && Enabled(h, CleanUp(o))
    ensures var k := Next(h, CleanUp(o));
            && h.openers[o].id !in k.waiters && k.openers[o].Done? && Holding(k.openers[o]) == Holding(h.openers[o])
            && (h.openers[o].id in h.waiters && h.slots[h.waiters[h.openers[o].id]] == Some(s) ==> s in k.closed && !InSlot(k, s))
            && (Holding(h.openers[o]) == Some(s) && s !in h.closed ==> s !in k.closed)
  {
    var k := Next(h, CleanUp(o));
    if h.openers[o].id in h.waiters {
      assert HasOpener(h, h.openers[o].id, h.waiters[h.openers[o].id]);
    }
    StepSole(h, CleanUp(o));
  }

  /** The holder of a stream can close it, and closing it closes no other. */
  lemma HolderCloses(h: Hub, o: OpenerID, s: StreamID)
    requires Enabled(h, CloseHeld(o)) && Holding(h.openers[o]) == Some(s)
    ensures var k := Next(h, CloseHeld(o)); s in k.closed && k.closed == h.closed + {s} && k.openers == h.openers && k.slots == h.slots
  {}

  // ---------- streams nobody will look for

  predicate IsRegistered(h: Hub, c: ChanID) {
    c in h.waiters.Values
  }

  /** Every stream in a slot is in one that a cleanup will find. */
  ghost predicate Homed(h: Hub) {
    forall c: ChanID :: c in h.slots && h.slots[c].Some? ==> IsRegistered(h, c)
  }

  predicate HoldsStream(h: Hub, id: SessionID) {
    id in h.waiters && h.waiters[id] in h.slots && h.slots[h.waiters[id]].Some?
  }

  /** The step does not open a session whose registered slot holds a stream. */
  predicate OpensClear(h: Hub, step: Step) {
    step.Open? ==> !HoldsStream(h, step.id)
  }

  lemma StepHomed(h: Hub, step: Step)
    requires Homed(h) && Enabled(h, step) && OpensClear(h, step)
    ensures Homed(Next(h, step))
  {
    var k := Next(h, step);
    forall c: ChanID | c in k.slots && k.slots[c].Some? ensures IsRegistered(k, c) {
      if step.Arrive? && HasRoom(h, step.id) && c == h.waiters[step.id] {
        assert k.waiters[step.id] == c;
      } else {
        assert c in h.slots && h.slots[c].Some?;
        var id :| id in h.waiters && h.waiters[id] == c;
        assert id in k.waiters && k.waiters[id] == c;
      }
    }
  }

  /** Opening over a stream takes its registration away, and nothing else has it. */
  lemma OpenOverStrands(h: Hub, o: OpenerID, id: SessionID, c: ChanID)
    requires ChansApart(h) && Registered(h) && Enabled(h, Open(o, id, c)) && HoldsStream(h, id)
    ensures !Homed(Next(h, Open(o, id, c)))
  {
    var k, d := Next(h, Open(o, id, c)), h.waiters[id];
    assert HasOpener(h, id, d);
    var p: OpenerID :| Waits(h, p, id, d);
    assert forall x :: x in k.waiters && x != id ==> k.waiters[x] != d by {
      forall x | x in k.waiters && x != id ensures k.waiters[x] != d {
        assert HasOpener(h, x, h.waiters[x]);
        var q: OpenerID :| Waits(h, q, x, h.waiters[x]);
        assert p != q;
      }
    }
    assert k.waiters[id] == c && c != d;
    assert !IsRegistered(k, d);
    assert d in k.slots && k.slots[d].Some?;
  }

  lemma {:induction false} ClearRunsAreHomed(hubs: seq<Hub>, steps: seq<Step>, i: nat)
    requires IsRun(hubs, steps) && i < |hubs|
    requires forall j :: 0 <= j < i ==> OpensClear(hubs[j], steps[j])
    ensures Homed(hubs[i])
  {
    if i > 0 {
      ClearRunsAreHomed(hubs, steps, i - 1);
      StepHomed(hubs[i - 1], steps[i - 1]);
    }
  }

  /** Throughout a run every stream in a slot is registered, exactly when no session is opened while the slot
      registered for its ID holds a stream. */
  lemma HomedExactlyWhenOpensClear(hubs: seq<Hub>, steps: seq<Step>)
    requires IsRun(hubs, steps)
    ensures (forall i :: 0 <= i < |hubs| ==> Homed(hubs[i]))
            <==> (forall i :: 0 <= i < |steps| ==> OpensClear(hubs[i], steps[i]))
  {
    if forall i :: 0 <= i < |steps| ==> OpensClear(hubs[i], steps[i]) {
      forall i | 0 <= i < |hubs| ensures Homed(hubs[i]) {
        ClearRunsAreHomed(hubs, steps, i);
      }
    } else {
      var i :| 0 <= i < |steps| && !OpensClear(hubs[i], steps[i]);
      RunKeeps(hubs, steps, i);
      OpenOverStrands(hubs[i], steps[i].opener, steps[i].id, steps[i].chan);
      assert !Homed(hubs[i + 1]);
    }
  }

  // ---------- no orphans

  lemma HomedHasOpener(h: Hub, c: ChanID, s: StreamID) returns (o: OpenerID)
    requires Homed(h) && Invariant(h) && c in h.slots && h.slots[c] == Some(s)
    ensures OfOpener(h, o, s) && !h.openers[o].Done? && h.openers[o].id in h.waiters && h.waiters[h.openers[o].id] == c
  {
    assert IsRegistered(h, c);
    var id :| id in h.waiters && h.waiters[id] == c;
    assert HasOpener(h, id, c);
    o :| Waits(h, o, id, c);
  }

  /** No orphans, as long as no session is opened over a stream: a stream is in exactly one of the three places,
      a slot that holds one belongs to an OpenTerminal that has not returned and that will find it, and
      the slot of one that has returned is empty. */
  lemma NoOrphans(hubs: seq<Hub>, steps: seq<Step>, i: nat, s: StreamID)
    requires IsRun(hubs, steps) && i < |hubs| && s in hubs[i].accepted
    requires forall j :: 0 <= j < i ==> OpensClear(hubs[j], steps[j])
    ensures InOnePlace(hubs[i], s)
    ensures InSlot(hubs[i], s) ==> exists o :: OfOpener(hubs[i], o, s) && !hubs[i].openers[o].Done?
    ensures forall o :: OfOpener(hubs[i], o, s) ==> !hubs[i].openers[o].Done?
  {
    var h := hubs[i];
    RunKeeps(hubs, steps, i);
    ClearRunsAreHomed(hubs, steps, i);
    if InSlot(h, s) {
      var c :| c in h.slots && h.slots[c] == Some(s);
      var o := HomedHasOpener(h, c, s);
      assert OfOpener(h, o, s);
    }
    forall o | OfOpener(h, o, s) ensures !h.openers[o].Done? {
      var p := HomedHasOpener(h, h.openers[o].chan, s);
    }
  }

  /** Once every OpenTerminal has returned, what was accepted is with an opener or closed. */
  lemma AllReturned(hubs: seq<Hub>, steps: seq<Step>, i: nat, s: StreamID)
    requires IsRun(hubs, steps) && i < |hubs| && s in hubs[i].accepted
    requires forall j :: 0 <= j < i ==> OpensClear(hubs[j], steps[j])
    requires forall o :: o in hubs[i].openers ==> hubs[i].openers[o].Done?
    ensures !InSlot(hubs[i], s) && (AtOpener(hubs[i], s) <==> s !in hubs[i].closed)
  {
    NoOrphans(hubs, steps, i, s);
  }

  /** An ID none of whose openers is still about can be opened again; a fresh one has none at all. */
  lemma ReturnedIDsOpenClear(hubs: seq<Hub>, steps: seq<Step>, i: nat)
    requires IsRun(hubs, steps) && i < |steps| && steps[i].Open?
    requires forall o :: o in hubs[i].openers && hubs[i].openers[o].id == steps[i].id ==> hubs[i].openers[o].Done?
    ensures OpensClear(hubs[i], steps[i])
  {
    RunKeeps(hubs, steps, i);
    var h, id := hubs[i], steps[i].id;
    assert id in h.waiters ==> HasOpener(h, id, h.waiters[id]);
  }

  lemma FreshIDsOpenClear(hubs: seq<Hub>, steps: seq<Step>, i: nat)
    requires IsRun(hubs, steps) && FreshIDs(hubs, steps) && i < |steps|
    ensures OpensClear(hubs[i], steps[i])
  {
    if steps[i].Open? {
      ReturnedIDsOpenClear(hubs, steps, i);
    }
  }

  /** What an open over a stream leads to: the first opener returns, its cleanup drains the second one's slot,
      and its own stream stays open in a slot nobody looks at. */
  lemma ReusedIDStrands(id: SessionID, s: StreamID) returns (hubs: seq<Hub>, steps: seq<Step>)
    ensures IsRun(hubs, steps) && |steps| == 5 && !OpensClear(hubs[2], steps[2])
    ensures var h := hubs[5]; OfOpener(h, 0, s) && h.openers[0].Done? && s in h.accepted && s !in h.closed
  {
    steps := [Open(0, id, 0), Arrive(s, id), Open(1, id, 1), GiveUp(0), CleanUp(0)];
    var a := Next(EMPTY, steps[0]);
    var b := Next(a, steps[1]);
    var c := Next(b, steps[2]);
    var d := Next(c, steps[3]);
    var e := Next(d, steps[4]);
    hubs := [EMPTY, a, b, c, d, e];
  }
}
