/** Flood events on their way to the feed: coalesced per entry and kind, flushed by a timer, folded
    into the feed. */
module Bursts {
  import opened Common
  import opened Feed
  import opened FeedTheorems

  const BURST_EVERY: Time := 1_000_000_000

  /** One entry's burst of one kind. The timer, when set, fires at due or later. sentAt is a record of
      the emission times. */
  datatype Burst = Burst(kind: Kind, sent: Time, held: nat, lastAt: Time, lastDetail: Text, due: Option<Time>,
                         sentAt: seq<Time>)

  function NewBurst(kind: Kind): Burst {
    Burst(kind, 0, 0, 0, [], None, [])
  }

  predicate MaySendNow(b: Burst, now: Time) {
    b.due.None? && now - b.sent >= BURST_EVERY
  }

  /** coalesce: send at once, or hold and make sure a timer is running. */
  function Coalesced(b: Burst, at: Time, detail: Text, now: Time): Burst {
    if MaySendNow(b, now) then b.(sent := now, sentAt := b.sentAt + [now])
    else b.(held := b.held + 1, lastAt := at, lastDetail := detail,
            due := if b.due.None? then Some(b.sent + BURST_EVERY) else b.due)
  }

  /** flush: the timer fired. */
  function Flushed(b: Burst, now: Time): Burst {
    b.(held := 0, due := None, sent := now, sentAt := if b.held > 0 then b.sentAt + [now] else b.sentAt)
  }

  function FloodOf(kind: Kind, at: Time, detail: Text, n: nat): Event {
    Event(at, kind, Warn, if kind == Refused then [] else detail, n)
  }

  class Entry {
    var bursts: map<Kind, Burst>

    constructor ()
      ensures bursts == map[]
    {
      bursts := map[];
    }

    function Get(kind: Kind): Burst
      reads this
    {
      if kind in bursts then bursts[kind] else NewBurst(kind)
    }

    /** True: the caller emits the event itself, alone. */
    method Coalesce(kind: Kind, at: Time, detail: Text, now: Time) returns (send: bool)
      modifies this
      ensures send == MaySendNow(old(Get(kind)), now)
      ensures bursts == old(bursts)[kind := Coalesced(old(Get(kind)), at, detail, now)]
    {
      if kind !in bursts {
        bursts := bursts[kind := NewBurst(kind)];
      }
      var b := bursts[kind];
      if b.due.None? && now - b.sent >= BURST_EVERY {
        bursts := bursts[kind := b.(sent := now, sentAt := b.sentAt + [now])];
        return true;
      }
      b := b.(held := b.held + 1, lastAt := at, lastDetail := detail);
      if b.due.None? {
        var wait := b.sent + BURST_EVERY - now;
        b := b.(due := Some(now + wait));
      }
      bursts := bursts[kind := b];
      return false;
    }

    /** The burst to emit, if anything was held. */
    method Flush(kind: Kind, now: Time) returns (out: Option<Event>)
      requires kind in bursts
      modifies this
      ensures bursts == old(bursts)[kind := Flushed(old(bursts)[kind], now)]
      ensures var b := old(bursts)[kind];
              out == if b.held > 0 then Some(FloodOf(kind, b.lastAt, b.lastDetail, b.held)) else None
    {
      var b := bursts[kind];
      var n := b.held;
      bursts := bursts[kind := b.(held := 0, due := None, sent := now,
                                  sentAt := if n > 0 then b.sentAt + [now] else b.sentAt)];
      if n > 0 {
        return Some(FloodOf(kind, b.lastAt, b.lastDetail, n));
      }
      return None;
    }
  }

  // ---------- every interleaving

  /** One node: the bursts of all its entries, past and present, what is between a burst and the
      feed, the feed's ring, and a record of what was seen and what the ring lost. */
  datatype Node = Node(
    clock: Time,
    bursts: seq<Burst>,
    inFlight: seq<Event>,
    ring: seq<Event>,
    lost: seq<Event>,
    seen: seq<Kind>)

  datatype Step =
    | Start(kind: Kind)                                    // an entry sees its first event of a kind
    | See(slot: nat, at: Time, detail: Text, now: Time)    // coalesce, under the entry's lock
    | Fire(slot: nat, now: Time)                           // flush, once the timer is due
    | Deliver(index: nat, now: Time)                       // flood, under the feed's lock
    | Other(ev: Event, now: Time)                          // anything else added to the feed

  predicate IsFlood(k: Kind) {
    k == Refused || k == EgressFailed
  }

  predicate Enabled(n: Node, step: Step) {
    match step
    case Start(kind) => IsFlood(kind)
    case See(slot, _, _, now) => slot < |n.bursts| && n.clock <= now
    case Fire(slot, now) => slot < |n.bursts| && n.bursts[slot].due.Some? && n.bursts[slot].due.value <= now && n.clock <= now
    case Deliver(i, now) => i < |n.inFlight| && n.clock <= now
    case Other(ev, now) => !IsFlood(ev.kind) && n.clock <= now
  }

  function Next(n: Node, step: Step): Node
    requires Enabled(n, step)
  {
    match step
    case Start(kind) => n.(bursts := n.bursts + [NewBurst(kind)])
    case See(slot, at, detail, now) =>
      var b := n.bursts[slot];
      n.(clock := now, seen := n.seen + [b.kind],
         bursts := n.bursts[slot := Coalesced(b, at, detail, now)],
         inFlight := n.inFlight + if MaySendNow(b, now) then [FloodOf(b.kind, at, detail, 1)] else [])
    case Fire(slot, now) =>
      var b := n.bursts[slot];
      n.(clock := now,
         bursts := n.bursts[slot := Flushed(b, now)],
         inFlight := n.inFlight + if b.held > 0 then [FloodOf(b.kind, b.lastAt, b.lastDetail, b.held)] else [])
    case Deliver(i, now) =>
      var ev := n.inFlight[i];
      n.(clock := now,
         inFlight := n.inFlight[..i] + n.inFlight[i + 1..],
         ring := Flooded(n.ring, ev, now),
         lost := n.lost + FloodPushesOut(n.ring, ev))
    case Other(ev, now) =>
      n.(clock := now, ring := Added(n.ring, ev, now), lost := n.lost + PushedOut(n.ring))
  }

  ghost predicate IsRun(nodes: seq<Node>, steps: seq<Step>) {
    && |nodes| == |steps| + 1
    && nodes[0].clock >= BURST_EVERY && nodes[0] == Node(nodes[0].clock, [], [], [], [], [])
    && forall i :: 0 <= i < |steps| ==> Enabled(nodes[i], steps[i]) && nodes[i + 1] == Next(nodes[i], steps[i])
  }

  // ---------- sums

  function Held(bursts: seq<Burst>, kind: Kind): nat {
    if bursts == [] then 0
    else Held(bursts[..|bursts| - 1], kind) + HeldIn(bursts[|bursts| - 1], kind)
  }

  function HeldIn(b: Burst, kind: Kind): nat {
    if b.kind == kind then b.held else 0
  }

  function Seen(seen: seq<Kind>, kind: Kind): nat {
    if seen == [] then 0
    else Seen(seen[..|seen| - 1], kind) + if seen[|seen| - 1] == kind then 1 else 0
  }

  lemma {:induction false} HeldUpdate(bursts: seq<Burst>, i: nat, b: Burst, kind: Kind)
    requires i < |bursts|
    ensures Held(bursts[i := b], kind) + HeldIn(bursts[i], kind) == Held(bursts, kind) + HeldIn(b, kind)
  {
    var n := |bursts|;
    if i == n - 1 {
      assert bursts[i := b][..n - 1] == bursts[..n - 1];
    } else {
      HeldUpdate(bursts[..n - 1], i, b, kind);
      assert bursts[i := b][..n - 1] == bursts[..n - 1][i := b];
    }
  }

  lemma CountDrop(events: seq<Event>, i: nat, kind: Kind)
    requires i < |events|
    ensures CountOf(events[..i] + events[i + 1..], kind) + Share(events[i], kind) == CountOf(events, kind)
  {
    assert events == events[..i] + [events[i]] + events[i + 1..];
    CountConcat(events[..i] + [events[i]], events[i + 1..], kind);
    CountConcat(events[..i], [events[i]], kind);
    CountConcat(events[..i], events[i + 1..], kind);
    CountOne(events[i], kind);
  }

  lemma CountAppend(events: seq<Event>, ev: Event, kind: Kind)
    ensures CountOf(events + [ev], kind) == CountOf(events, kind) + Share(ev, kind)
  {
    CountConcat(events, [ev], kind);
    CountOne(ev, kind);
  }

  lemma SeenAppend(seen: seq<Kind>, k: Kind, kind: Kind)
    ensures Seen(seen + [k], kind) == Seen(seen, kind) + if k == kind then 1 else 0
  {
    assert (seen + [k])[..|seen|] == seen;
  }

  // ---------- conservation

  /** Events seen of a kind: held back, on the way, in the ring, or lost from it. */
  ghost predicate Balanced(n: Node, kind: Kind) {
    Seen(n.seen, kind) == Held(n.bursts, kind) + CountOf(n.inFlight, kind) + CountOf(n.ring, kind) + CountOf(n.lost, kind)
  }

  lemma SeeBalances(n: Node, slot: nat, at: Time, detail: Text, now: Time, kind: Kind)
    requires Enabled(n, See(slot, at, detail, now)) && Balanced(n, kind)
    ensures Balanced(Next(n, See(slot, at, detail, now)), kind)
  {
    var b := n.bursts[slot];
    var c, send := Coalesced(b, at, detail, now), MaySendNow(b, now);
    assert HeldIn(c, kind) == HeldIn(b, kind) + if b.kind == kind && !send then 1 else 0;
    SeenAppend(n.seen, b.kind, kind);
    HeldUpdate(n.bursts, slot, c, kind);
    SentAppend(n.inFlight, send, FloodOf(b.kind, at, detail, 1), kind);
    var n' := Next(n, See(slot, at, detail, now));
    assert n'.bursts == n.bursts[slot := c];
    assert n'.inFlight == n.inFlight + if send then [FloodOf(b.kind, at, detail, 1)] else [];
  }

  lemma SentAppend(events: seq<Event>, send: bool, ev: Event, kind: Kind)
    ensures CountOf(events + if send then [ev] else [], kind) == CountOf(events, kind) + if send then Share(ev, kind) else 0
  {
    if send {
      CountAppend(events, ev, kind);
    } else {
      assert events + [] == events;
    }
  }

  lemma FireBalances(n: Node, step: Step, kind: Kind)
    requires step.Fire? && Enabled(n, step) && Balanced(n, kind)
    ensures Balanced(Next(n, step), kind)
  {
    var b := n.bursts[step.slot];
    HeldUpdate(n.bursts, step.slot, Flushed(b, step.now), kind);
    SentAppend(n.inFlight, b.held > 0, FloodOf(b.kind, b.lastAt, b.lastDetail, b.held), kind);
  }

  lemma DeliverBalances(n: Node, step: Step, kind: Kind)
    requires step.Deliver? && Enabled(n, step) && Balanced(n, kind)
    ensures Balanced(Next(n, step), kind)
  {
    var ev := n.inFlight[step.index];
    CountDrop(n.inFlight, step.index, kind);
    FloodConserves(n.ring, ev, step.now, kind);
    CountConcat(n.lost, FloodPushesOut(n.ring, ev), kind);
  }

  lemma OtherBalances(n: Node, step: Step, kind: Kind)
    requires step.Other? && Enabled(n, step) && Balanced(n, kind) && IsFlood(kind)
    ensures Balanced(Next(n, step), kind)
  {
    AddedConserves(n.ring, step.ev, step.now, kind);
    CountConcat(n.lost, PushedOut(n.ring), kind);
  }

  lemma StepBalances(n: Node, step: Step, kind: Kind)
    requires Enabled(n, step) && Balanced(n, kind) && IsFlood(kind)
    ensures Balanced(Next(n, step), kind)
  {
    match step {
      case Start(k) =>
        assert (n.bursts + [NewBurst(k)])[..|n.bursts|] == n.bursts;
      case See(slot, at, detail, now) => SeeBalances(n, slot, at, detail, now, kind);
      case Fire(_, _) => FireBalances(n, step, kind);
      case Deliver(_, _) => DeliverBalances(n, step, kind);
      case Other(_, _) => OtherBalances(n, step, kind);
    }
  }

  /** In every interleaving no flood event is lost or counted twice on its way to the feed, and the
      ring stays within its bound. */
  lemma {:induction false} FloodsAddUp(nodes: seq<Node>, steps: seq<Step>, i: nat, kind: Kind)
    requires IsRun(nodes, steps) && i <= |steps| && IsFlood(kind)
    ensures Seen(nodes[i].seen, kind)
         == Held(nodes[i].bursts, kind) + CountOf(nodes[i].inFlight, kind)
            + CountOf(nodes[i].ring, kind) + CountOf(nodes[i].lost, kind)
    ensures |nodes[i].ring| <= FEED_CAP
  {
    if i > 0 {
      FloodsAddUp(nodes, steps, i - 1, kind);
      StepBalances(nodes[i - 1], steps[i - 1], kind);
      if steps[i - 1].Deliver? {
        FloodKeepsOthers(nodes[i - 1].ring, nodes[i - 1].inFlight[steps[i - 1].index], steps[i - 1].now);
      }
    }
  }

  // ---------- spacing

  ghost predicate Spaced(b: Burst, clock: Time) {
    && b.sent <= clock
    && b.sent == (if b.sentAt == [] then 0 else b.sentAt[|b.sentAt| - 1])
    && (b.due.Some? <==> b.held > 0)
    && (b.due.Some? ==> b.due.value == b.sent + BURST_EVERY)
    && forall i :: 0 <= i < |b.sentAt| - 1 ==> b.sentAt[i + 1] - b.sentAt[i] >= BURST_EVERY
  }

  ghost predicate AllSpaced(n: Node) {
    n.clock >= BURST_EVERY && forall i :: 0 <= i < |n.bursts| ==> Spaced(n.bursts[i], n.clock)
  }

  lemma StepKeepsSpacing(n: Node, step: Step)
    requires Enabled(n, step) && AllSpaced(n)
    ensures AllSpaced(Next(n, step))
  {
    match step {
      case See(slot, at, detail, now) =>
        assert Spaced(n.bursts[slot], n.clock);
        assert Spaced(Coalesced(n.bursts[slot], at, detail, now), now);
      case Fire(slot, now) =>
        assert Spaced(n.bursts[slot], n.clock);
        assert Spaced(Flushed(n.bursts[slot], now), now);
      case _ =>
    }
  }

  /** Successive emissions of one entry and kind are at least BURST_EVERY apart, and a timer is
      running exactly while something is held. */
  lemma {:induction false} EmissionsAreSpaced(nodes: seq<Node>, steps: seq<Step>, i: nat)
    requires IsRun(nodes, steps) && i <= |steps|
    ensures AllSpaced(nodes[i])
  {
    if i > 0 {
      EmissionsAreSpaced(nodes, steps, i - 1);
      StepKeepsSpacing(nodes[i - 1], steps[i - 1]);
    }
  }

  // ---------- what a burst carries

  /** The step hands an event or a burst over. */
  predicate Emits(n: Node, step: Step) {
    match step
    case See(slot, _, _, now) => slot < |n.bursts| && MaySendNow(n.bursts[slot], now)
    case Fire(slot, _) => slot < |n.bursts| && n.bursts[slot].held > 0
    case _ => false
  }

  /** The time and detail of the last event a slot saw before step j. */
  function LastSeen(steps: seq<Step>, m: nat, j: nat): Option<(Time, Text)>
    requires j <= |steps|
  {
    if j == 0 then None
    else if steps[j - 1].See? && steps[j - 1].slot == m then Some((steps[j - 1].at, steps[j - 1].detail))
    else LastSeen(steps, m, j - 1)
  }

  lemma HeldStep(n: Node, step: Step, m: nat)
    requires Enabled(n, step) && AllSpaced(n) && m < |Next(n, step).bursts| && Next(n, step).bursts[m].held > 0
    ensures m < |n.bursts|
    ensures var b, c := n.bursts[m], Next(n, step).bursts[m];
            if step.See? && step.slot == m then c.lastAt == step.at && c.lastDetail == step.detail && c.held == b.held + 1
            else c.lastAt == b.lastAt && c.lastDetail == b.lastDetail && c.held == b.held
  {
    if m < |n.bursts| {
      assert Spaced(n.bursts[m], n.clock);
    }
  }

  /** A burst that holds events carries the time and detail of the last one its entry saw. */
  lemma {:induction false} HeldCarriesLast(nodes: seq<Node>, steps: seq<Step>, j: nat, m: nat)
    requires IsRun(nodes, steps) && j <= |steps| && m < |nodes[j].bursts| && nodes[j].bursts[m].held > 0
    ensures LastSeen(steps, m, j) == Some((nodes[j].bursts[m].lastAt, nodes[j].bursts[m].lastDetail))
  {
    if j > 0 {
      EmissionsAreSpaced(nodes, steps, j - 1);
      HeldStep(nodes[j - 1], steps[j - 1], m);
      if !(steps[j - 1].See? && steps[j - 1].slot == m) {
        HeldCarriesLast(nodes, steps, j - 1, m);
      }
    }
  }

  /** What a timer hands over: one event for all that is held, with their number and the time of the last of them,
      and its detail unless that would name a refused destination. What is sent at once is the event itself. */
  lemma EmissionSays(nodes: seq<Node>, steps: seq<Step>, j: nat)
    requires IsRun(nodes, steps) && j < |steps| && Emits(nodes[j], steps[j])
    ensures var n, k, slot := nodes[j], nodes[j + 1], steps[j].slot;
            && |k.inFlight| == |n.inFlight| + 1 && k.inFlight[..|n.inFlight|] == n.inFlight
            && var ev := k.inFlight[|n.inFlight|];
            && ev.kind == n.bursts[slot].kind && ev.level == Warn
            && ev.count == (if steps[j].Fire? then n.bursts[slot].held else 1)
            && var last := if steps[j].See? then Some((steps[j].at, steps[j].detail)) else LastSeen(steps, slot, j);
            && last.Some? && ev.at == last.value.0
            && ev.detail == if ev.kind == Refused then [] else last.value.1
  {
    if steps[j].Fire? {
      HeldCarriesLast(nodes, steps, j, steps[j].slot);
    }
  }

  // ---------- one node, all its entries

  /** It does so for this kind. */
  predicate EmitsKind(n: Node, step: Step, kind: Kind) {
    Emits(n, step) && n.bursts[step.slot].kind == kind
  }

  /** Every burst of the kind on the node that has sent did so at least BURST_EVERY before now. */
  ghost predicate FindsQuiet(n: Node, kind: Kind, now: Time) {
    forall m :: 0 <= m < |n.bursts| && n.bursts[m].kind == kind && n.bursts[m].sentAt != [] ==>
      now - n.bursts[m].sent >= BURST_EVERY
  }

  /** Emissions of the kind, from whichever entries, are at least BURST_EVERY apart. */
  ghost predicate NodeSpaced(nodes: seq<Node>, steps: seq<Step>, kind: Kind)
    requires IsRun(nodes, steps)
  {
    forall i, j :: 0 <= i < j < |steps| && EmitsKind(nodes[i], steps[i], kind) && EmitsKind(nodes[j], steps[j], kind) ==>
      steps[j].now - steps[i].now >= BURST_EVERY
  }

  /** What a step does to the burst in slot m. */
  lemma BurstStep(n: Node, step: Step, m: nat)
    requires Enabled(n, step) && AllSpaced(n) && m < |n.bursts|
    ensures var b, c := n.bursts[m], Next(n, step).bursts;
            && m < |c| && c[m].kind == b.kind
            && if Emits(n, step) && step.slot == m then c[m].sent == step.now && c[m].sentAt != []
               else c[m].sent == b.sent && c[m].sentAt == b.sentAt
  {
    assert Spaced(n.bursts[m], n.clock);
  }

  lemma NewSlot(n: Node, step: Step, m: nat)
    requires Enabled(n, step) && |n.bursts| <= m < |Next(n, step).bursts|
    ensures Next(n, step).bursts[m].sentAt == []
  {}

  /** A burst's last time of sending is that of an earlier emission of its kind. */
  lemma {:induction false} SentIsEmission(nodes: seq<Node>, steps: seq<Step>, j: nat, m: nat) returns (i: nat)
    requires IsRun(nodes, steps) && j <= |steps| && m < |nodes[j].bursts| && nodes[j].bursts[m].sentAt != []
    ensures i < j && EmitsKind(nodes[i], steps[i], nodes[j].bursts[m].kind) && steps[i].now == nodes[j].bursts[m].sent
    decreases j
  {
    var n, step := nodes[j - 1], steps[j - 1];
    EmissionsAreSpaced(nodes, steps, j - 1);
    if m < |n.bursts| {
      BurstStep(n, step, m);
      if Emits(n, step) && step.slot == m {
        i := j - 1;
      } else {
        i := SentIsEmission(nodes, steps, j - 1, m);
      }
    } else {
      NewSlot(n, step, m);
    }
  }

  /** After an emission its burst has sent no earlier than that. */
  lemma {:induction false} EmissionIsSent(nodes: seq<Node>, steps: seq<Step>, i: nat, j: nat)
    requires IsRun(nodes, steps) && i < j <= |steps| && Emits(nodes[i], steps[i])
    ensures var m := steps[i].slot;
            && m < |nodes[j].bursts| && nodes[j].bursts[m].kind == nodes[i].bursts[m].kind
            && nodes[j].bursts[m].sentAt != [] && nodes[j].bursts[m].sent >= steps[i].now
    decreases j
  {
    var m := steps[i].slot;
    EmissionsAreSpaced(nodes, steps, j - 1);
    if i < j - 1 {
      EmissionIsSent(nodes, steps, i, j - 1);
      assert Spaced(nodes[j - 1].bursts[m], nodes[j - 1].clock);
    }
    BurstStep(nodes[j - 1], steps[j - 1], m);
  }

  /** The node's emissions of a kind are BURST_EVERY apart exactly when each of them finds every burst of that
      kind on the node quiet for that long. */
  lemma NodeSpacedExactlyWhenQuiet(nodes: seq<Node>, steps: seq<Step>, kind: Kind)
    requires IsRun(nodes, steps)
    ensures NodeSpaced(nodes, steps, kind) <==>
              forall j :: 0 <= j < |steps| && EmitsKind(nodes[j], steps[j], kind) ==> FindsQuiet(nodes[j], kind, steps[j].now)
  {
    if NodeSpaced(nodes, steps, kind) {
      forall j | 0 <= j < |steps| && EmitsKind(nodes[j], steps[j], kind) ensures FindsQuiet(nodes[j], kind, steps[j].now) {
        forall m | 0 <= m < |nodes[j].bursts| && nodes[j].bursts[m].kind == kind && nodes[j].bursts[m].sentAt != []
          ensures steps[j].now - nodes[j].bursts[m].sent >= BURST_EVERY
        {
          var i := SentIsEmission(nodes, steps, j, m);
        }
      }
    }
    if forall j :: 0 <= j < |steps| && EmitsKind(nodes[j], steps[j], kind) ==> FindsQuiet(nodes[j], kind, steps[j].now) {
      forall i, j | 0 <= i < j < |steps| && EmitsKind(nodes[i], steps[i], kind) && EmitsKind(nodes[j], steps[j], kind)
        ensures steps[j].now - steps[i].now >= BURST_EVERY
      {
        EmissionIsSent(nodes, steps, i, j);
        assert FindsQuiet(nodes[j], kind, steps[j].now);
      }
    }
  }

  /** A node with one burst of the kind, one entry that is never replaced, keeps its promise. */
  lemma OneEntryIsSpaced(nodes: seq<Node>, steps: seq<Step>, kind: Kind)
    requires IsRun(nodes, steps)
    requires forall j, m, k :: 0 <= j < |steps| && 0 <= m < k < |nodes[j].bursts| ==>
               nodes[j].bursts[m].kind != kind || nodes[j].bursts[k].kind != kind
    ensures NodeSpaced(nodes, steps, kind)
  {
    forall j | 0 <= j < |steps| && EmitsKind(nodes[j], steps[j], kind) ensures FindsQuiet(nodes[j], kind, steps[j].now) {
      var n, step := nodes[j], steps[j];
      EmissionsAreSpaced(nodes, steps, j);
      assert Spaced(n.bursts[step.slot], n.clock);
      forall m | 0 <= m < |n.bursts| && n.bursts[m].kind == kind && n.bursts[m].sentAt != []
        ensures step.now - n.bursts[m].sent >= BURST_EVERY
      {
        assert m == step.slot;
      }
    }
    NodeSpacedExactlyWhenQuiet(nodes, steps, kind);
  }

  /** An entry replaced during a flood: the old and the new one emit at once. */
  lemma ReplacedEntryDoublesUp(kind: Kind, t: Time) returns (nodes: seq<Node>, steps: seq<Step>)
    requires IsFlood(kind) && t >= BURST_EVERY
    ensures IsRun(nodes, steps) && |steps| == 4 && EmitsKind(nodes[2], steps[2], kind) && EmitsKind(nodes[3], steps[3], kind)
    ensures steps[2].now == steps[3].now == t && !NodeSpaced(nodes, steps, kind)
  {
    steps := [Start(kind), Start(kind), See(0, t, [], t), See(1, t, [], t)];
    var z := Node(t, [], [], [], [], []);
    var a := Next(z, steps[0]);
    var b := Next(a, steps[1]);
    var c := Next(b, steps[2]);
    var d := Next(c, steps[3]);
    nodes := [z, a, b, c, d];
    assert EmitsKind(nodes[2], steps[2], kind) && EmitsKind(nodes[3], steps[3], kind);
  }
}
