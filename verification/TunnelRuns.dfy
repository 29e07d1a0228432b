/** The tunnel tracker under every interleaving: links open, speak and close, refreshes judge under
    the lock and close what they found dead one by one afterwards, flows come and go. */
module TunnelRuns {
  import opened TunnelTracker

  datatype Link = Link(openedAt: Time, heard: Time)
  datatype Judgement = Judgement(now: Time, up: bool)

  datatype State = State(
    created: Time,
    links: map<nat, Link>,      // every link there ever was
    tracked: set<nat>,          // those in the tunnel's set
    closed: set<nat>,
    doomed: set<nat>,           // judged dead by a refresh that has not closed them yet
    up: bool,
    since: Time,
    history: seq<Judgement>,    // what each refresh decided
    weighed: set<nat>,          // the links in the set at the last refresh
    flows: int,
    openFlows: set<nat>,
    closedFlows: set<nat>)

  datatype Step =
    | Open(id: nat, now: Time)
    | Hear(id: nat, now: Time)
    | Close(id: nat)
    | Judge(now: Time)
    | CloseDoomed(id: nat)
    | OpenFlow(flow: nat)
    | CloseFlow(flow: nat)

  function Start(now: Time): State {
    State(now, map[], {}, {}, {}, false, now, [], {}, 0, {}, {})
  }

  /** Every clock is read before the step it is for, so a refresh may judge by an older reading than an earlier
      step's, or than an earlier refresh's, and a link may join long after it was opened. Reads of one link come
      one after the other. */
  predicate Enabled(s: State, step: Step) {
    match step
    case Open(id, now) => id !in s.links && 0 < now
    case Hear(id, now) => id in s.links && s.links[id].openedAt <= now && s.links[id].heard <= now
    case Close(id) => id in s.links
    case Judge(now) => true
    case CloseDoomed(id) => id in s.doomed
    case OpenFlow(f) => f !in s.openFlows && f !in s.closedFlows
    case CloseFlow(f) => f in s.openFlows || f in s.closedFlows
  }

  /** Close: once-guarded, so a second call only closes the socket again. */
  function Closed(s: State, id: nat): State {
    s.(tracked := s.tracked - {id}, closed := s.closed + {id})
  }

  predicate Speaks(s: State, id: nat, now: Time) {
    id in s.links && CountsAsUp(s.links[id].openedAt, s.links[id].heard, now)
  }

  predicate Silent(s: State, id: nat, now: Time) {
    id in s.links && IsDead(s.links[id].openedAt, s.links[id].heard, now)
  }

  /** The locked part of refresh. */
  function Judged(s: State, now: Time): State {
    var up := exists id :: id in s.tracked && Speaks(s, id, now);
    s.(up := up, since := if up == s.up then s.since else now,
       doomed := s.doomed + (set id | id in s.tracked && Silent(s, id, now)),
       history := s.history + [Judgement(now, up)], weighed := s.tracked)
  }

  function Next(s: State, step: Step): State
    requires Enabled(s, step)
  {
    match step
    case Open(id, now) => s.(links := s.links[id := Link(now, 0)], tracked := s.tracked + {id})
    case Hear(id, now) => s.(links := s.links[id := s.links[id].(heard := now)])
    case Close(id) => Closed(s, id)
    case Judge(now) => Judged(s, now)
    case CloseDoomed(id) => Closed(s, id).(doomed := s.doomed - {id})
    case OpenFlow(f) => s.(flows := s.flows + 1, openFlows := s.openFlows + {f})
    case CloseFlow(f) =>
      if f in s.openFlows
      then s.(flows := s.flows - 1, openFlows := s.openFlows - {f}, closedFlows := s.closedFlows + {f})
      else s
  }

  ghost predicate IsRun(states: seq<State>, steps: seq<Step>, start: Time) {
    && start > 0
    && |states| == |steps| + 1
    && states[0] == Start(start)
    && forall i :: 0 <= i < |steps| ==> Enabled(states[i], steps[i]) && states[i + 1] == Next(states[i], steps[i])
  }

  // ---------- what every state satisfies

  /** The judgement at k differs from the one before it; a tunnel starts out down. */
  predicate FlipAt(h: seq<Judgement>, k: nat)
    requires k < |h|
  {
    h[k].up != (if k == 0 then false else h[k - 1].up)
  }

  /** The time of the last flip, or the start if there has been none. */
  function LastFlip(h: seq<Judgement>, created: Time): Time {
    if h == [] then created
    else if FlipAt(h, |h| - 1) then h[|h| - 1].now
    else LastFlip(h[..|h| - 1], created)
  }

  lemma {:induction false} LastFlipIsLast(h: seq<Judgement>, created: Time, k: nat)
    requires k < |h| && FlipAt(h, k) && forall j :: k < j < |h| ==> !FlipAt(h, j)
    ensures LastFlip(h, created) == h[k].now
  {
    if k < |h| - 1 {
      var init := h[..|h| - 1];
      assert forall j :: 0 <= j < |init| ==> FlipAt(init, j) == FlipAt(h, j);
      LastFlipIsLast(init, created, k);
    }
  }

  lemma {:induction false} NoFlipYet(h: seq<Judgement>, created: Time)
    requires forall j :: 0 <= j < |h| ==> !FlipAt(h, j)
    ensures LastFlip(h, created) == created
  {
    if h != [] {
      var init := h[..|h| - 1];
      assert forall j :: 0 <= j < |init| ==> FlipAt(init, j) == FlipAt(h, j);
      NoFlipYet(init, created);
    }
  }

  ghost predicate UpIsLastJudgement(s: State) {
    s.up == (s.history != [] && s.history[|s.history| - 1].up)
  }

  /** As of the last refresh, a link it judged that is still tracked and that no refresh is about to close has not
      been silent for too long. */
  ghost predicate NoDeadLink(s: State) {
    forall id :: s.history != [] && id in s.weighed && id in s.tracked && id !in s.doomed ==>
      !Silent(s, id, s.history[|s.history| - 1].now)
  }

  ghost predicate Times(s: State) {
    forall id :: id in s.links ==>
      0 < s.links[id].openedAt && (s.links[id].heard == 0 || s.links[id].openedAt <= s.links[id].heard)
  }

  ghost predicate Holds(s: State) {
    && Times(s)
    && s.weighed <= s.links.Keys && s.doomed <= s.links.Keys && s.tracked !! s.closed && s.links.Keys == s.tracked + s.closed
    && s.flows == |s.openFlows|
    && UpIsLastJudgement(s)
    && s.since == LastFlip(s.history, s.created)
    && NoDeadLink(s)
  }

  lemma JudgeKeepsFlips(s: State, now: Time)
    requires UpIsLastJudgement(s) && s.since == LastFlip(s.history, s.created)
    ensures UpIsLastJudgement(Judged(s, now))
    ensures Judged(s, now).since == LastFlip(Judged(s, now).history, s.created)
  {
    var h := Judged(s, now).history;
    assert h[..|h| - 1] == s.history;
    assert |h| >= 2 ==> h[|h| - 2] == s.history[|s.history| - 1];
  }

  lemma JudgeLeavesNoDead(s: State, now: Time)
    requires s.tracked <= s.links.Keys
    ensures NoDeadLink(Judged(s, now))
  {
  }

  lemma StepHolds(s: State, step: Step)
    requires Holds(s) && Enabled(s, step)
    ensures Holds(Next(s, step))
  {
    match step {
      case Judge(now) =>
        JudgeKeepsFlips(s, now);
        JudgeLeavesNoDead(s, now);
      case CloseDoomed(id) =>
      case Open(id, now) =>
      case Hear(id, now) =>
      case _ =>
    }
  }

  lemma {:induction false} RunHolds(states: seq<State>, steps: seq<Step>, start: Time, i: nat)
    requires IsRun(states, steps, start) && i <= |steps|
    ensures Holds(states[i])
  {
    if i > 0 {
      RunHolds(states, steps, start, i - 1);
      StepHolds(states[i - 1], steps[i - 1]);
    }
  }

  // ---------- the promises

  predicate Closes(step: Step, id: nat) {
    (step.Close? || step.CloseDoomed?) && step.id == id
  }

  predicate Hears(step: Step, id: nat) {
    step.Hear? && step.id == id
  }

  ghost predicate ClosedIn(steps: seq<Step>, id: nat, j: nat, i: nat)
    requires i <= |steps|
  {
    exists k :: j <= k < i && Closes(steps[k], id)
  }

  ghost predicate HeardIn(steps: seq<Step>, id: nat, j: nat, i: nat)
    requires i <= |steps|
  {
    exists k :: j <= k < i && Hears(steps[k], id)
  }

  /** When the link was last heard in steps j to i, else the given time. */
  function LastHear(heard: Time, steps: seq<Step>, id: nat, j: nat, i: nat): Time
    requires i <= |steps|
  {
    if i <= j then heard
    else if Hears(steps[i - 1], id) then steps[i - 1].now
    else LastHear(heard, steps, id, j, i - 1)
  }

  lemma LinkStep(s: State, step: Step, id: nat)
    requires Enabled(s, step) && id in s.links && s.links.Keys == s.tracked + s.closed && s.tracked !! s.closed
    ensures var t := Next(s, step);
            && id in t.links && t.links[id].openedAt == s.links[id].openedAt
            && t.links[id].heard == (if Hears(step, id) then step.now else s.links[id].heard)
            && (id in t.tracked <==> id in s.tracked && !Closes(step, id))
  {}

  lemma OneMore(steps: seq<Step>, id: nat, j: nat, i: nat)
    requires j < i <= |steps|
    ensures ClosedIn(steps, id, j, i) <==> ClosedIn(steps, id, j, i - 1) || Closes(steps[i - 1], id)
    ensures HeardIn(steps, id, j, i) <==> HeardIn(steps, id, j, i - 1) || Hears(steps[i - 1], id)
  {}

  /** A link's times, from the steps alone. */
  lemma {:induction false} LinkTimes(states: seq<State>, steps: seq<Step>, start: Time, id: nat, j: nat, i: nat)
    requires IsRun(states, steps, start) && j <= i <= |steps| && id in states[j].links
    ensures var l := states[j].links[id];
            && id in states[i].links && states[i].links[id].openedAt == l.openedAt
            && states[i].links[id].heard == LastHear(l.heard, steps, id, j, i)
  {
    if j < i {
      LinkTimes(states, steps, start, id, j, i - 1);
      RunHolds(states, steps, start, i - 1);
      LinkStep(states[i - 1], steps[i - 1], id);
    }
  }

  /** And whether it is tracked. */
  lemma {:induction false} LinkTracked(states: seq<State>, steps: seq<Step>, start: Time, id: nat, j: nat, i: nat)
    requires IsRun(states, steps, start) && j <= i <= |steps| && id in states[j].links
    ensures id in states[i].links
    ensures id in states[i].tracked <==> id in states[j].tracked && !ClosedIn(steps, id, j, i)
  {
    if j < i {
      LinkTracked(states, steps, start, id, j, i - 1);
      RunHolds(states, steps, start, i - 1);
      LinkStep(states[i - 1], steps[i - 1], id);
      OneMore(steps, id, j, i);
    }
  }

  /** The last time heard is a real one exactly if the link was heard at all. */
  lemma {:induction false} LastHearIsReal(states: seq<State>, steps: seq<Step>, start: Time, id: nat, j: nat, i: nat)
    requires IsRun(states, steps, start) && j <= i <= |steps| && id in states[j].links
    ensures var heard := states[j].links[id].heard;
            if HeardIn(steps, id, j, i) then LastHear(heard, steps, id, j, i) != 0
            else LastHear(heard, steps, id, j, i) == heard
  {
    if j < i {
      LastHearIsReal(states, steps, start, id, j, i - 1);
      OneMore(steps, id, j, i);
      if Hears(steps[i - 1], id) {
        RunHolds(states, steps, start, i - 1);
        assert 0 < states[i - 1].links[id].openedAt <= steps[i - 1].now;
      }
    }
  }

  lemma LinkHistory(states: seq<State>, steps: seq<Step>, start: Time, id: nat, j: nat, i: nat)
    requires IsRun(states, steps, start) && j <= i <= |steps| && id in states[j].links
    ensures var s, l := states[j], states[j].links[id];
            && id in states[i].links && states[i].links[id].openedAt == l.openedAt
            && states[i].links[id].heard == LastHear(l.heard, steps, id, j, i)
            && (id in states[i].tracked <==> id in s.tracked && !ClosedIn(steps, id, j, i))
            && (if HeardIn(steps, id, j, i) then states[i].links[id].heard != 0 else states[i].links[id].heard == l.heard)
  {
    LinkTimes(states, steps, start, id, j, i);
    LinkTracked(states, steps, start, id, j, i);
    LastHearIsReal(states, steps, start, id, j, i);
  }

  /** The link opened at step k speaks for the tunnel at a judgement at step i. */
  ghost predicate SpeaksFrom(steps: seq<Step>, k: nat, i: nat, now: Time)
    requires k < i <= |steps|
  {
    && steps[k].Open?
    && var id := steps[k].id;
    && !ClosedIn(steps, id, k + 1, i) && HeardIn(steps, id, k + 1, i)
    && now - steps[k].now >= UP_AFTER && now - LastHear(0, steps, id, k + 1, i) <= STALE_AFTER
  }

  lemma OpenedAt(states: seq<State>, steps: seq<Step>, start: Time, k: nat, i: nat, now: Time)
    requires IsRun(states, steps, start) && k < i <= |steps| && steps[k].Open?
    ensures SpeaksFrom(steps, k, i, now) <==> steps[k].id in states[i].tracked && Speaks(states[i], steps[k].id, now)
  {
    LinkHistory(states, steps, start, steps[k].id, k + 1, i);
  }

  lemma {:induction false} WasOpened(states: seq<State>, steps: seq<Step>, start: Time, id: nat, i: nat) returns (k: nat)
    requires IsRun(states, steps, start) && i <= |steps| && id in states[i].links
    ensures k < i && steps[k].Open? && steps[k].id == id
  {
    if id in states[i - 1].links {
      k := WasOpened(states, steps, start, id, i - 1);
    } else {
      k := i - 1;
    }
  }

  /** A tracked link that has been silent for more than DEAD_AFTER, since it was last heard or else since it was opened. */
  predicate HasDied(s: State, id: nat, now: Time) {
    && id in s.tracked && id in s.links
    && (s.links[id].heard != 0 ==> now - s.links[id].heard > DEAD_AFTER)
    && (s.links[id].heard == 0 ==> now - s.links[id].openedAt > DEAD_AFTER)
  }

  /** After each refresh the tunnel is up exactly if some link that was opened and not closed since has been heard,
      is old enough and has not been silent for too long; the stamp is the time of the last flip; and no link
      that speaks for the tunnel is one this refresh marks for closing, which are exactly those that have died. */
  lemma RefreshJudges(states: seq<State>, steps: seq<Step>, start: Time, i: nat)
    requires IsRun(states, steps, start) && i < |steps| && steps[i].Judge?
    ensures var s, now := states[i + 1], steps[i].now;
            && (s.up <==> exists k :: 0 <= k < i && SpeaksFrom(steps, k, i, now))
            && (forall id :: id in s.tracked && Silent(states[i], id, now) ==> !Speaks(s, id, now))
            && (forall id :: id in s.doomed <==> id in states[i].doomed || HasDied(states[i], id, now))
            && s.since == LastFlip(s.history, s.created)
  {
    RunHolds(states, steps, start, i + 1);
    var s, now := states[i], steps[i].now;
    if states[i + 1].up {
      var id :| id in s.tracked && Speaks(s, id, now);
      var k := WasOpened(states, steps, start, id, i);
      OpenedAt(states, steps, start, k, i, now);
    }
    if k :| 0 <= k < i && SpeaksFrom(steps, k, i, now) {
      OpenedAt(states, steps, start, k, i, now);
    }
  }

  /** A link that an earlier refresh, at step j, found dead and has yet to close: a later one counts it as up
      exactly when it has been heard in between, recently enough, and is old enough. */
  lemma MarkedLinkSpeaksExactlyWhenHeard(states: seq<State>, steps: seq<Step>, start: Time, j: nat, i: nat, id: nat)
    requires IsRun(states, steps, start) && j < i < |steps| && steps[j].Judge? && steps[i].Judge?
    requires id in states[j].tracked && Silent(states[j], id, steps[j].now)
    requires steps[j].now - steps[i].now <= DEAD_AFTER - STALE_AFTER
    ensures id in states[j + 1].doomed
    ensures var l, now := states[j].links[id], steps[i].now;
            Speaks(states[i + 1], id, now) <==>
              && HeardIn(steps, id, j, i)
              && now - LastHear(l.heard, steps, id, j, i) <= STALE_AFTER
              && now - l.openedAt >= UP_AFTER
  {
    LinkHistory(states, steps, start, id, j, i);
    LinkStep(states[i], steps[i], id) by {
      RunHolds(states, steps, start, i);
    }
  }

  /** Such a link is then closed although the tunnel stands on it alone. */
  lemma ClosedWhileUp(id: nat, start: Time) returns (states: seq<State>, steps: seq<Step>)
    requires start > 0
    ensures IsRun(states, steps, start) && |steps| == 5 && steps[3].Judge? && steps[4] == CloseDoomed(id)
    ensures states[4].up && states[4].tracked == {id} && Speaks(states[4], id, steps[3].now)
    ensures states[5].up && states[5].tracked == {}
  {
    var later := DEAD_AFTER + 10_000_000_000;
    steps := [Open(id, start), Judge(start + later), Hear(id, start + later + 1), Judge(start + later + 1), CloseDoomed(id)];
    var a := Next(Start(start), steps[0]);
    var b := Next(a, steps[1]);
    var c := Next(b, steps[2]);
    var d := Next(c, steps[3]);
    var e := Next(d, steps[4]);
    states := [Start(start), a, b, c, d, e];
    assert id in a.tracked && Silent(a, id, start + later);
    assert id in c.tracked && Speaks(c, id, start + later + 1);
  }

  /** Whenever no refresh is between its judgement and its closing, no link that the last refresh judged and that is
      still tracked had been silent for more than DEAD_AFTER at that refresh. */
  lemma NoDeadLinkRemains(states: seq<State>, steps: seq<Step>, start: Time, i: nat, id: nat)
    requires IsRun(states, steps, start) && i <= |steps|
    requires states[i].doomed == {} && states[i].history != [] && id in states[i].tracked && id in states[i].weighed
    ensures var s := states[i]; id in s.links && var l := s.links[id];
              s.history[|s.history| - 1].now - LastSign(l.openedAt, l.heard) <= DEAD_AFTER
  {
    RunHolds(states, steps, start, i);
    assert !Silent(states[i], id, states[i].history[|states[i].history| - 1].now);
  }

  ghost predicate Happened(steps: seq<Step>, i: nat, step: Step)
    requires i <= |steps|
  {
    exists k :: 0 <= k < i && steps[k] == step
  }

  lemma HappenedNext(steps: seq<Step>, i: nat, step: Step)
    requires 0 < i <= |steps|
    ensures Happened(steps, i, step) <==> Happened(steps, i - 1, step) || steps[i - 1] == step
  {}

  /** The flow counter is the number of flow connections opened and not yet closed. */
  lemma FlowsAreCounted(states: seq<State>, steps: seq<Step>, start: Time, i: nat)
    requires IsRun(states, steps, start) && i <= |steps|
    ensures states[i].flows == |states[i].openFlows|
    ensures forall f: nat :: f in states[i].openFlows <==>
              Happened(steps, i, OpenFlow(f)) && !Happened(steps, i, CloseFlow(f))
  {
    RunHolds(states, steps, start, i);
    FlowHistory(states, steps, start, i);
  }

  lemma FlowStep(s: State, step: Step)
    requires Enabled(s, step) && s.openFlows !! s.closedFlows
    ensures var t := Next(s, step);
            && t.openFlows !! t.closedFlows
            && t.closedFlows == s.closedFlows + (if step.CloseFlow? then {step.flow} else {})
            && t.openFlows + t.closedFlows == s.openFlows + s.closedFlows + (if step.OpenFlow? then {step.flow} else {})
  {}

  lemma {:induction false} FlowHistory(states: seq<State>, steps: seq<Step>, start: Time, i: nat)
    requires IsRun(states, steps, start) && i <= |steps|
    ensures forall f: nat :: f in states[i].closedFlows <==> Happened(steps, i, CloseFlow(f))
    ensures forall f: nat :: f in states[i].openFlows + states[i].closedFlows <==> Happened(steps, i, OpenFlow(f))
    ensures states[i].openFlows !! states[i].closedFlows
  {
    if i > 0 {
      FlowHistory(states, steps, start, i - 1);
      FlowStep(states[i - 1], steps[i - 1]);
      forall f: nat
        ensures f in states[i].closedFlows <==> Happened(steps, i, CloseFlow(f))
        ensures f in states[i].openFlows + states[i].closedFlows <==> Happened(steps, i, OpenFlow(f))
      {
        HappenedNext(steps, i, CloseFlow(f));
        HappenedNext(steps, i, OpenFlow(f));
      }
    }
  }
}
