/** Every interleaving of pushes with their unlocked cover check, saved settings, credential swaps and
    applied states, on one entry. */
module DesiredRuns {
  import opened Common
  import opened Desired

  type CallID = nat

  /** An ApplyCoreState under way: its state is built, then the entry's cover site is read, then the new
      site has been judged and the state waits for the lock. */
  datatype Call =
    | Built(state: State, inbound: string)
    | Checking(state: State, inbound: string, current: string)
    | Ready(state: State, inbound: string, refused: bool)

  /** creds: the row SetCreds has copied and not yet put back, while it holds the node's turn. inUse: the
      cover sites the entry has run on so far. passed: the sites whose check came back good. adopted: the sites a
      repair found on the box. given: every state the node object was given to push. */
  datatype World = World(
    entry: Entry,
    calls: map<CallID, Call>,
    creds: Option<Lite>,
    inUse: set<string>,
    passed: set<string>,
    adopted: set<string>,
    given: set<State>)

  /** A fresh entry, on the row its start read. */
  function Fresh(lite: Lite): World {
    World(Entry(lite, None, None, None, None, "", false), map[], None, {lite.disguise}, {}, {}, {})
  }

  datatype Step =
    | Begin(call: CallID, payload: Payload, dcNets: seq<string>, state: State)
    | ReadCover(call: CallID)
    | SkipCheck(call: CallID)
    | CheckFresh(call: CallID)
    | CheckPass(call: CallID)
    | CheckFail(call: CallID)
    | Land(call: CallID)
    | CheckCover(domain: string)
    | Update(maxStreams: Option<int>, stopped: Option<bool>)
    | NoTunnel(dcNets: seq<string>)
    | ReadCreds(creds: string)
    | WriteCreds
    | FailCreds
    | Applied(state: State)
    | Adopt(domain: string)

  predicate IsTeardown(p: Payload) {
    !p.enabled && p.port == 0 && p.settings.Absent?
  }

  /** What was last asked for, without its users. */
  function TornDown(hash: Hash, s: State): State {
    Stamp(hash, s.(users := []))
  }

  predicate Skips(c: Call)
    requires c.Checking?
  {
    c.state.disguise == "" || c.state.disguise == c.current
  }

  ghost predicate Enabled(hash: Hash, fold: Fold, w: World, step: Step) {
    match step
    case Begin(k, p, dcNets, s) =>
      && k !in w.calls && p.coreType == "mtproto"
      && (if IsTeardown(p) then w.entry.desired.Some? && s == TornDown(hash, w.entry.desired.value)
          else Buildable(fold, p) && IsStateOf(hash, fold, p, dcNets, w.entry.lite.maxStreams, s))
    case ReadCover(k) => k in w.calls && w.calls[k].Built?
    case SkipCheck(k) => k in w.calls && w.calls[k].Checking? && Skips(w.calls[k])
    case CheckFresh(k) =>
      k in w.calls && w.calls[k].Checking? && !Skips(w.calls[k]) && w.entry.vetted == Some(w.calls[k].state.disguise)
    case CheckPass(k) => k in w.calls && w.calls[k].Checking? && !Skips(w.calls[k])
    case CheckFail(k) => k in w.calls && w.calls[k].Checking? && !Skips(w.calls[k])
    case Land(k) => k in w.calls && w.calls[k].Ready?
    case CheckCover(_) => true
    case Update(_, _) => w.creds.None?
    case NoTunnel(_) => true
    case ReadCreds(_) => w.creds.None?
    case WriteCreds => w.creds.Some?
    case FailCreds => w.creds.Some?
    case Applied(s) => s in w.given
    case Adopt(_) => w.creds.None?
  }

  function Judged(w: World, k: CallID, s: State, refused: bool): World
    requires k in w.calls
  {
    w.(calls := w.calls[k := Ready(s, w.calls[k].inbound, refused)])
  }

  function Passed(w: World, domain: string): World {
    w.(entry := w.entry.(vetted := Some(domain)), passed := w.passed + {domain})
  }

  function OnCover(w: World, domain: string): World {
    w.(entry := w.entry.(lite := w.entry.lite.(disguise := domain)), inUse := w.inUse + {domain})
  }

  /** The entry after a section that may have given the node object a state. */
  function Noted(w: World, e: Entry): World {
    w.(entry := e, given := if e.queued.Some? then w.given + {e.queued.value} else w.given)
  }

  ghost function Next(hash: Hash, fold: Fold, w: World, step: Step): World
    requires Enabled(hash, fold, w, step)
  {
    match step
    case Begin(k, p, _, s) => w.(calls := w.calls[k := Built(s, if IsTeardown(p) then "" else p.inbound)])
    case ReadCover(k) =>
      w.(calls := w.calls[k := Checking(w.calls[k].state, w.calls[k].inbound, w.entry.lite.disguise)])
    case SkipCheck(k) => Judged(w, k, w.calls[k].state, false)
    case CheckFresh(k) => Judged(w, k, w.calls[k].state, false)
    case CheckPass(k) => Judged(Passed(w, w.calls[k].state.disguise), k, w.calls[k].state, false)
    case CheckFail(k) => Judged(w, k, WithDisguise(hash, w.calls[k].state, w.calls[k].current), true)
    case Land(k) =>
      var c := w.calls[k];
      Noted(w.(calls := w.calls - {k}),
            Want(hash, w.entry.(inbound := c.inbound, coverPending := c.refused), c.state))
    case CheckCover(domain) => Passed(w, domain)
    case Update(maxStreams, stopped) => Noted(w, Updated(hash, w.entry, maxStreams, stopped))
    case NoTunnel(dcNets) => Noted(w, Untunnelled(hash, w.entry, dcNets))
    case ReadCreds(creds) => w.(creds := Some(w.entry.lite.(creds := creds)))
    case WriteCreds => OnCover(w.(entry := w.entry.(lite := w.creds.value), creds := None), w.creds.value.disguise)
    case FailCreds => w.(creds := None)
    case Applied(s) => if s.disguise == "" || s.disguise == w.entry.lite.disguise then w else OnCover(w, s.disguise)
    case Adopt(domain) => OnCover(w.(adopted := w.adopted + {domain}), domain)
  }

  ghost predicate IsRun(hash: Hash, fold: Fold, lite: Lite, worlds: seq<World>, steps: seq<Step>) {
    && |worlds| == |steps| + 1
    && worlds[0] == Fresh(lite)
    && forall i :: 0 <= i < |steps| ==>
         Enabled(hash, fold, worlds[i], steps[i]) && worlds[i + 1] == Next(hash, fold, worlds[i], steps[i])
  }

  // ---------- what holds

  ghost predicate Known(w: World, site: string) {
    site in w.inUse || site in w.passed
  }

  /** The desired state is up with the entry: its settings, its revision, its users, its cover site, and it is
      the one the node object was given. */
  ghost predicate KeepsUp(hash: Hash, w: World) {
    && w.entry.queued == w.entry.desired
    && (w.entry.desired.Some? ==>
          var s := w.entry.desired.value;
          && s.maxStreams == w.entry.lite.maxStreams && s.stopped == w.entry.lite.stopped
          && Stamped(hash, s)
          && Names(s.users) <= PushedTo(w.entry)
          && Known(w, s.disguise))
  }

  ghost predicate CallHolds(hash: Hash, w: World, c: Call) {
    && Stamped(hash, c.state)
    && match c
       case Built(s, _) => s.disguise == "" ==> Known(w, "")
       case Checking(s, _, current) => (s.disguise == "" ==> Known(w, "")) && current in w.inUse
       case Ready(s, _, refused) => Known(w, s.disguise) && (refused ==> s.disguise in w.inUse)
  }

  ghost predicate Sides(w: World) {
    && w.entry.lite.disguise in w.inUse
    && (w.entry.vetted.Some? ==> w.entry.vetted.value in w.passed)
    && (w.creds.Some? ==>
          && w.creds.value.maxStreams == w.entry.lite.maxStreams && w.creds.value.stopped == w.entry.lite.stopped
          && w.creds.value.disguise in w.inUse)
  }

  ghost predicate CallsHold(hash: Hash, w: World) {
    forall k :: k in w.calls ==> CallHolds(hash, w, w.calls[k])
  }

  // ---------- the pieces

  lemma OnSettingsIs(hash: Hash, s: State, lite: Lite)
    requires Stamped(hash, s)
    ensures var t := OnSettings(hash, s, lite);
            && Stamped(hash, t) && t.maxStreams == lite.maxStreams && t.stopped == lite.stopped
            && t == s.(maxStreams := lite.maxStreams, stopped := lite.stopped, rev := t.rev)
  {
    var moved := s.(maxStreams := lite.maxStreams, stopped := lite.stopped);
    assert Stamp(hash, moved).(rev := "") == moved.(rev := "");
  }

  lemma StampIs(hash: Hash, s: State)
    ensures Stamped(hash, Stamp(hash, s))
  {
    assert Stamp(hash, s).(rev := "") == s.(rev := "");
  }

  lemma WantKeepsUp(hash: Hash, w: World, e: Entry, s: State)
    requires Stamped(hash, s) && Known(w, s.disguise)
    ensures KeepsUp(hash, Noted(w, Want(hash, e, s)))
  {
    OnSettingsIs(hash, s, e.lite);
  }

  lemma StepKeepsUp(hash: Hash, fold: Fold, w: World, step: Step)
    requires KeepsUp(hash, w) && CallsHold(hash, w) && Sides(w) && Enabled(hash, fold, w, step)
    ensures KeepsUp(hash, Next(hash, fold, w, step))
  {
    match step
    case Land(k) =>
      var c := w.calls[k];
      assert CallHolds(hash, w, c);
      var e := w.entry.(inbound := c.inbound, coverPending := c.refused);
      WantKeepsUp(hash, w.(calls := w.calls - {k}), e, c.state);
    case Update(maxStreams, stopped) =>
      UpdateKeepsUp(hash, w, maxStreams, stopped);
    case NoTunnel(dcNets) =>
      StampIs(hash, State("", 443, "", w.entry.lite.disguise, w.entry.lite.maxStreams, w.entry.lite.stopped, dcNets, None, []));
    case _ =>
  }

  lemma UpdateKeepsUp(hash: Hash, w: World, maxStreams: Option<int>, stopped: Option<bool>)
    requires KeepsUp(hash, w)
    ensures KeepsUp(hash, Noted(w, Updated(hash, w.entry, maxStreams, stopped)))
  {
    var e := Updated(hash, w.entry, maxStreams, stopped);
    if w.entry.desired.Some? && e.lite != w.entry.lite {
      WantKeepsUp(hash, w, w.entry.(lite := e.lite), w.entry.desired.value);
    }
  }

  lemma StepSides(hash: Hash, fold: Fold, w: World, step: Step)
    requires Sides(w) && Enabled(hash, fold, w, step)
    ensures Sides(Next(hash, fold, w, step))
  {}

  lemma RecordsGrow(hash: Hash, fold: Fold, w: World, step: Step)
    requires Enabled(hash, fold, w, step)
    ensures w.inUse <= Next(hash, fold, w, step).inUse && w.passed <= Next(hash, fold, w, step).passed
  {}

  /** withDisguise changes the cover site in both its places and the revision, and nothing else. */
  lemma WithDisguiseIs(hash: Hash, s: State, domain: string)
    ensures var t := WithDisguise(hash, s, domain);
            && Stamped(hash, t) && t.disguise == domain
            && (t.telemt.Some? <==> s.telemt.Some?)
            && (t.telemt.Some? ==>
                  && "tls_domain" in t.telemt.value && t.telemt.value["tls_domain"] == domain
                  && forall x :: x != "tls_domain" ==>
                       (x in t.telemt.value <==> x in s.telemt.value)
                       && (x in s.telemt.value ==> t.telemt.value[x] == s.telemt.value[x]))
            && t.(rev := s.rev, disguise := s.disguise, telemt := s.telemt) == s
            && WithDisguise(hash, t, domain) == t
  {
    var t := WithDisguise(hash, s, domain);
    StampIs(hash, s.(disguise := domain, telemt := t.telemt));
    if s.telemt.Some? {
      assert t.telemt.value["tls_domain" := domain] == t.telemt.value;
    }
    assert t.(rev := "") == s.(disguise := domain, telemt := t.telemt, rev := "");
  }

  /** The call the step moves on holds where it gets to. */
  lemma MovedCallHolds(hash: Hash, fold: Fold, w: World, step: Step, k: CallID)
    requires KeepsUp(hash, w) && CallsHold(hash, w) && Sides(w) && Enabled(hash, fold, w, step)
    requires k in Next(hash, fold, w, step).calls && (k !in w.calls || Next(hash, fold, w, step).calls[k] != w.calls[k])
    ensures CallHolds(hash, Next(hash, fold, w, step), Next(hash, fold, w, step).calls[k])
  {
    match step
    case Begin(_, p, _, s) =>
      if IsTeardown(p) {
        StampIs(hash, w.entry.desired.value.(users := []));
      }
    case CheckFail(_) =>
      WithDisguiseIs(hash, w.calls[k].state, w.calls[k].current);
      assert CallHolds(hash, w, w.calls[k]);
    case _ =>
      assert CallHolds(hash, w, w.calls[k]);
  }

  lemma StepCalls(hash: Hash, fold: Fold, w: World, step: Step)
    requires KeepsUp(hash, w) && CallsHold(hash, w) && Sides(w) && Enabled(hash, fold, w, step)
    ensures CallsHold(hash, Next(hash, fold, w, step))
  {
    var v := Next(hash, fold, w, step);
    RecordsGrow(hash, fold, w, step);
    forall k | k in v.calls ensures CallHolds(hash, v, v.calls[k]) {
      if k in w.calls && v.calls[k] == w.calls[k] {
        assert CallHolds(hash, w, w.calls[k]);
      } else {
        MovedCallHolds(hash, fold, w, step, k);
      }
    }
  }

  lemma {:induction false} RunHolds(hash: Hash, fold: Fold, lite: Lite, worlds: seq<World>, steps: seq<Step>, i: nat)
    requires IsRun(hash, fold, lite, worlds, steps) && i < |worlds|
    ensures KeepsUp(hash, worlds[i]) && CallsHold(hash, worlds[i]) && Sides(worlds[i])
  {
    if i > 0 {
      RunHolds(hash, fold, lite, worlds, steps, i - 1);
      StepKeepsUp(hash, fold, worlds[i - 1], steps[i - 1]);
      StepCalls(hash, fold, worlds[i - 1], steps[i - 1]);
      StepSides(hash, fold, worlds[i - 1], steps[i - 1]);
    }
  }

  /** At every moment of every interleaving, a desired state has the entry's current stream limit and stop,
      the revision of its own content, only pushed users, and a cover site that was in use on the entry or
      passed its check; and it is what the node object was given to push. */
  lemma DesiredKeepsUp(hash: Hash, fold: Fold, lite: Lite, worlds: seq<World>, steps: seq<Step>, i: nat)
    requires IsRun(hash, fold, lite, worlds, steps) && i < |worlds|
    ensures KeepsUp(hash, worlds[i])
  {
    RunHolds(hash, fold, lite, worlds, steps, i);
  }

  // ---------- a push from its payload to the entry

  /** The call still carries the state it began with, but for a refused cover site. */
  ghost predicate Carries(hash: Hash, c: Call, s: State) {
    match c
    case Built(t, _) => t == s
    case Checking(t, _, _) => t == s
    case Ready(t, _, refused) => if refused then t == WithDisguise(hash, s, t.disguise) else t == s
  }

  ghost predicate Touches(step: Step, k: CallID) {
    (step.Begin? || step.Land?) && step.call == k
  }

  lemma StepCarries(hash: Hash, fold: Fold, w: World, step: Step, k: CallID, s: State)
    requires Enabled(hash, fold, w, step) && !Touches(step, k) && k in w.calls && Carries(hash, w.calls[k], s)
    ensures var v := Next(hash, fold, w, step); k in v.calls && Carries(hash, v.calls[k], s)
    ensures var v := Next(hash, fold, w, step); v.calls[k].inbound == w.calls[k].inbound
  {}

  lemma {:induction false} CallCarries(hash: Hash, fold: Fold, lite: Lite, worlds: seq<World>, steps: seq<Step>,
                                       i: nat, j: nat)
    requires IsRun(hash, fold, lite, worlds, steps) && i < j < |worlds| && steps[i].Begin?
    requires forall m :: i < m < j ==> !Touches(steps[m], steps[i].call)
    ensures var k := steps[i].call;
            && k in worlds[j].calls && Carries(hash, worlds[j].calls[k], steps[i].state)
            && worlds[j].calls[k].inbound == if IsTeardown(steps[i].payload) then "" else steps[i].payload.inbound
  {
    if i + 1 < j {
      CallCarries(hash, fold, lite, worlds, steps, i, j - 1);
      StepCarries(hash, fold, worlds[j - 1], steps[j - 1], steps[i].call, steps[i].state);
    }
  }

  /** However long its check took and whatever was saved meanwhile, a push lands the users, ports and nets it
      was built with; a refused cover site is the only thing it leaves out, and then says so. */
  lemma PushLands(hash: Hash, fold: Fold, lite: Lite, worlds: seq<World>, steps: seq<Step>, i: nat, j: nat)
    requires IsRun(hash, fold, lite, worlds, steps) && i < j < |steps|
    requires steps[i].Begin? && steps[j] == Land(steps[i].call)
    requires forall m :: i < m < j ==> !Touches(steps[m], steps[i].call)
    ensures var b, e := steps[i].state, worlds[j + 1].entry;
            && e.desired.Some?
            && var d := e.desired.value;
            && d.users == b.users && d.port == b.port && d.listen == b.listen && d.dcNets == b.dcNets
            && Names(b.users) <= PushedTo(e)
            && e.inbound == (if IsTeardown(steps[i].payload) then "" else steps[i].payload.inbound)
            && (!e.coverPending ==> d.disguise == b.disguise && d.telemt == b.telemt)
            && (e.coverPending ==> d.disguise in worlds[j + 1].inUse)
  {
    CallCarries(hash, fold, lite, worlds, steps, i, j);
    RunHolds(hash, fold, lite, worlds, steps, j);
    var w, k, b := worlds[j], steps[i].call, steps[i].state;
    assert CallHolds(hash, w, w.calls[k]);
    OnSettingsIs(hash, w.calls[k].state, w.entry.lite);
    if w.calls[k].refused {
      WithDisguiseIs(hash, b, w.calls[k].state.disguise);
    }
  }

  /** A teardown lands no users, and otherwise what was last asked for when it began: its port, listen address,
      nets and, unless it is refused by now, its cover site. */
  lemma TeardownLands(hash: Hash, fold: Fold, lite: Lite, worlds: seq<World>, steps: seq<Step>, i: nat, j: nat)
    requires IsRun(hash, fold, lite, worlds, steps) && i < j < |steps|
    requires steps[i].Begin? && IsTeardown(steps[i].payload) && steps[j] == Land(steps[i].call)
    requires forall m :: i < m < j ==> !Touches(steps[m], steps[i].call)
    ensures worlds[i].entry.desired.Some? && worlds[j + 1].entry.desired.Some?
    ensures var was, d := worlds[i].entry.desired.value, worlds[j + 1].entry.desired.value;
            && d.users == [] && d.port == was.port && d.listen == was.listen && d.dcNets == was.dcNets
            && (!worlds[j + 1].entry.coverPending ==> d.disguise == was.disguise && d.telemt == was.telemt)
            && worlds[j + 1].entry.inbound == ""
  {
    PushLands(hash, fold, lite, worlds, steps, i, j);
  }

  /** Any other push lands what its payload says: the users it names if it is enabled and nobody otherwise, in name
      order, its port or 443, its listen address and, unless refused, its cover site. */
  lemma PayloadLands(hash: Hash, fold: Fold, lite: Lite, worlds: seq<World>, steps: seq<Step>, i: nat, j: nat)
    requires IsRun(hash, fold, lite, worlds, steps) && i < j < |steps|
    requires steps[i].Begin? && !IsTeardown(steps[i].payload) && steps[j] == Land(steps[i].call)
    requires forall m :: i < m < j ==> !Touches(steps[m], steps[i].call)
    ensures var p, e := steps[i].payload, worlds[j + 1].entry;
            && e.desired.Some?
            && var d := e.desired.value;
            && multiset(d.users) == multiset(Users(p)) && ByName(d.users)
            && (!p.enabled ==> |d.users| == 0)
            && d.port == (if p.port == 0 then 443 else p.port) && d.listen == p.listen && d.dcNets == steps[i].dcNets
            && (!e.coverPending ==> d.disguise == DomainOf(fold, p))
  {
    PushLands(hash, fold, lite, worlds, steps, i, j);
    if !steps[i].payload.enabled {
      assert |multiset(worlds[j + 1].entry.desired.value.users)| == |multiset(Users(steps[i].payload))|;
    }
  }

  /** The site a checked call read from the entry. */
  lemma {:induction false} CurrentWasRead(hash: Hash, fold: Fold, lite: Lite, worlds: seq<World>, steps: seq<Step>,
                                          j: nat, k: CallID) returns (m: nat)
    requires IsRun(hash, fold, lite, worlds, steps) && j < |worlds| && k in worlds[j].calls
    requires worlds[j].calls[k].Checking? || (worlds[j].calls[k].Ready? && worlds[j].calls[k].refused)
    ensures m < j && steps[m] == ReadCover(k)
    ensures var c := worlds[j].calls[k];
            worlds[m].entry.lite.disguise == if c.Checking? then c.current else c.state.disguise
  {
    var w, step := worlds[j - 1], steps[j - 1];
    if step == ReadCover(k) {
      m := j - 1;
    } else {
      CallBefore(hash, fold, w, step, k);
      m := CurrentWasRead(hash, fold, lite, worlds, steps, j - 1, k);
    }
  }

  lemma CallBefore(hash: Hash, fold: Fold, w: World, step: Step, k: CallID)
    requires Enabled(hash, fold, w, step) && step != ReadCover(k) && k in Next(hash, fold, w, step).calls
    requires var c := Next(hash, fold, w, step).calls[k]; c.Checking? || (c.Ready? && c.refused)
    ensures k in w.calls
    ensures var b, c := w.calls[k], Next(hash, fold, w, step).calls[k];
            || b == c
            || (b.Checking? && c.Ready? && c.refused && c.state.disguise == b.current)
  {}

  /** A refused cover site leaves the push on the site the entry had when the push looked. */
  lemma RefusedKeepsCurrent(hash: Hash, fold: Fold, lite: Lite, worlds: seq<World>, steps: seq<Step>, j: nat)
    returns (m: nat)
    requires IsRun(hash, fold, lite, worlds, steps) && j < |steps| && steps[j].Land? && worlds[j + 1].entry.coverPending
    ensures m < j && steps[m] == ReadCover(steps[j].call)
    ensures worlds[j + 1].entry.desired.Some?
            && worlds[j + 1].entry.desired.value.disguise == worlds[m].entry.lite.disguise
  {
    m := CurrentWasRead(hash, fold, lite, worlds, steps, j, steps[j].call);
  }

  /** A site that is taken as good without asking the agent has just passed. */
  lemma FreshHasPassed(hash: Hash, fold: Fold, lite: Lite, worlds: seq<World>, steps: seq<Step>, i: nat)
    requires IsRun(hash, fold, lite, worlds, steps) && i < |steps| && steps[i].CheckFresh?
    ensures worlds[i].calls[steps[i].call].state.disguise in worlds[i].passed
  {
    RunHolds(hash, fold, lite, worlds, steps, i);
  }

  // ---------- settings, and a node without a tunnel

  /** Saved settings are the entry's from then on, and the desired state's at once if there is one; nothing else of
      it changes, and a setting left out stays. */
  lemma SettingsAreSaved(hash: Hash, fold: Fold, w: World, maxStreams: Option<int>, stopped: Option<bool>)
    requires Enabled(hash, fold, w, Update(maxStreams, stopped)) && KeepsUp(hash, w)
    ensures var v := Next(hash, fold, w, Update(maxStreams, stopped));
            && v.entry.lite.maxStreams == (if maxStreams.Some? then maxStreams.value else w.entry.lite.maxStreams)
            && v.entry.lite.stopped == (if stopped.Some? then stopped.value else w.entry.lite.stopped)
            && v.entry.lite.disguise == w.entry.lite.disguise && v.entry.lite.creds == w.entry.lite.creds
            && (v.entry.desired.Some? <==> w.entry.desired.Some?)
            && (v.entry.desired.Some? ==>
                  var was, d := w.entry.desired.value, v.entry.desired.value;
                  && d.maxStreams == v.entry.lite.maxStreams && d.stopped == v.entry.lite.stopped
                  && d == was.(maxStreams := d.maxStreams, stopped := d.stopped, rev := d.rev))
  {
    UpdateKeepsUp(hash, w, maxStreams, stopped);
    var e := Updated(hash, w.entry, maxStreams, stopped);
    if w.entry.desired.Some? {
      OnSettingsIs(hash, w.entry.desired.value, e.lite);
    }
  }

  /** Without a tunnel the node is asked for nobody, on its own site, port 443 and the given nets, but only if nothing
      has been asked of it yet. */
  lemma NoTunnelAsksForNobody(hash: Hash, fold: Fold, w: World, dcNets: seq<string>)
    requires KeepsUp(hash, w)
    ensures var v := Next(hash, fold, w, NoTunnel(dcNets));
            if w.entry.desired.Some? then v.entry == w.entry
            else
              && v.entry.desired.Some? && v.entry.queued == v.entry.desired && v.entry.pushed == w.entry.pushed
              && var d := v.entry.desired.value;
              && d.users == [] && d.port == 443 && d.listen == "" && d.telemt == None
              && d.disguise == w.entry.lite.disguise && d.dcNets == dcNets && Stamped(hash, d)
  {
    StampIs(hash, State("", 443, "", w.entry.lite.disguise, w.entry.lite.maxStreams, w.entry.lite.stopped, dcNets, None, []));
  }

  /** A site that passes, asked for by a push or on its own, is the one taken as good next; a push it passes for
      waits with its state as it was, and one it is refused for with the entry's own site. */
  lemma CheckDecides(hash: Hash, fold: Fold, w: World, k: CallID, domain: string)
    ensures var v := Next(hash, fold, w, CheckCover(domain)); v.entry.vetted == Some(domain) && domain in v.passed
    ensures Enabled(hash, fold, w, CheckPass(k)) ==>
              var v, c := Next(hash, fold, w, CheckPass(k)), w.calls[k];
              && v.entry.vetted == Some(c.state.disguise) && c.state.disguise in v.passed
              && v.calls[k] == Ready(c.state, c.inbound, false)
    ensures Enabled(hash, fold, w, CheckFail(k)) ==>
              var v, c := Next(hash, fold, w, CheckFail(k)), w.calls[k];
              && v.entry == w.entry && v.passed == w.passed
              && v.calls[k].Ready? && v.calls[k].refused && v.calls[k].state.disguise == c.current
              && v.calls[k].state.users == c.state.users
  {}

  /** A swap of credentials that fails changes nothing of the entry. */
  lemma FailedSwapChangesNothing(hash: Hash, fold: Fold, w: World)
    requires w.creds.Some?
    ensures Next(hash, fold, w, FailCreds) == w.(creds := None)
  {}

  /** A repair's site is the entry's from then on. */
  lemma AdoptedIsCurrent(hash: Hash, fold: Fold, w: World, domain: string)
    requires Enabled(hash, fold, w, Adopt(domain))
    ensures Next(hash, fold, w, Adopt(domain)).entry == w.entry.(lite := w.entry.lite.(disguise := domain))
  {}

  // ---------- who counts as pushed

  lemma StepPushes(hash: Hash, fold: Fold, w: World, step: Step, x: string)
    requires Enabled(hash, fold, w, step) && KeepsUp(hash, w)
    ensures x in PushedTo(w.entry) ==> x in PushedTo(Next(hash, fold, w, step).entry)
    ensures x in PushedTo(Next(hash, fold, w, step).entry) && x !in PushedTo(w.entry) ==>
              step.Land? && x in Names(w.calls[step.call].state.users)
    ensures step.Land? && x in Names(w.calls[step.call].state.users) ==> x in PushedTo(Next(hash, fold, w, step).entry)
  {}

  ghost predicate LandedBy(worlds: seq<World>, steps: seq<Step>, i: nat, x: string)
    requires i < |worlds| && i <= |steps|
  {
    exists m :: 0 <= m < i && steps[m].Land? && steps[m].call in worlds[m].calls
                && x in Names(worlds[m].calls[steps[m].call].state.users)
  }

  /** A name counts as pushed from the landing of the first push that has it, and no sooner. */
  lemma {:induction false} PushedExactlyWhenLanded(hash: Hash, fold: Fold, lite: Lite, worlds: seq<World>, steps: seq<Step>,
                                                   i: nat, x: string)
    requires IsRun(hash, fold, lite, worlds, steps) && i < |worlds|
    ensures x in PushedTo(worlds[i].entry) <==> LandedBy(worlds, steps, i, x)
  {
    if i > 0 {
      PushedExactlyWhenLanded(hash, fold, lite, worlds, steps, i - 1, x);
      RunHolds(hash, fold, lite, worlds, steps, i - 1);
      StepPushes(hash, fold, worlds[i - 1], steps[i - 1], x);
      LandedNext(worlds, steps, i, x);
    }
  }

  lemma LandedNext(worlds: seq<World>, steps: seq<Step>, i: nat, x: string)
    requires 0 < i < |worlds| && i <= |steps|
    ensures LandedBy(worlds, steps, i, x) <==>
              LandedBy(worlds, steps, i - 1, x) ||
              (steps[i - 1].Land? && steps[i - 1].call in worlds[i - 1].calls
               && x in Names(worlds[i - 1].calls[steps[i - 1].call].state.users))
  {}

  // ---------- SetCreds and the cover site

  /** The site of the last state applied in steps i to j that names one, else the given site. */
  function LastApplied(site: string, steps: seq<Step>, i: nat, j: nat): string
    requires j <= |steps|
  {
    if j <= i then site
    else if steps[j - 1].Applied? && steps[j - 1].state.disguise != "" then steps[j - 1].state.disguise
    else LastApplied(site, steps, i, j - 1)
  }

  /** A step while SetCreds is between its sections: it keeps the copied row, and moves the entry's site only if
      it is an applied state that names one. */
  ghost predicate Between(w: World, step: Step, v: World) {
    && v.creds == w.creds
    && v.entry.lite.disguise ==
       if step.Applied? && step.state.disguise != "" then step.state.disguise else w.entry.lite.disguise
  }

  lemma StepBetween(hash: Hash, fold: Fold, w: World, step: Step)
    requires Enabled(hash, fold, w, step) && w.creds.Some? && !step.WriteCreds? && !step.FailCreds?
    ensures Between(w, step, Next(hash, fold, w, step))
  {}

  /** How things stand at step j: the row copied at step i, and the site applied last since. */
  ghost predicate Held(w: World, copied: Lite, site: string, steps: seq<Step>, i: nat, j: nat)
    requires j <= |steps|
  {
    w.creds == Some(copied) && w.entry.lite.disguise == LastApplied(site, steps, i, j)
  }

  lemma HeldOn(w: World, v: World, copied: Lite, site: string, steps: seq<Step>, i: nat, j: nat)
    requires i < j <= |steps| && Held(w, copied, site, steps, i, j - 1) && Between(w, steps[j - 1], v)
    ensures Held(v, copied, site, steps, i, j)
  {}

  ghost predicate AllBetween(worlds: seq<World>, steps: seq<Step>, i: nat, j: nat)
    requires j < |worlds| && j <= |steps|
  {
    forall m :: i <= m < j ==> Between(worlds[m], steps[m], worlds[m + 1])
  }

  lemma {:induction false} HeldThroughout(worlds: seq<World>, steps: seq<Step>, copied: Lite, site: string, i: nat, j: nat)
    requires i <= j < |worlds| && j <= |steps| && AllBetween(worlds, steps, i, j) && Held(worlds[i], copied, site, steps, i, i)
    ensures Held(worlds[j], copied, site, steps, i, j)
  {
    if i < j {
      HeldThroughout(worlds, steps, copied, site, i, j - 1);
      HeldOn(worlds[j - 1], worlds[j], copied, site, steps, i, j);
    }
  }

  lemma {:induction false} CredsStay(hash: Hash, fold: Fold, lite: Lite, worlds: seq<World>, steps: seq<Step>, i: nat, j: nat)
    requires IsRun(hash, fold, lite, worlds, steps) && i < j < |worlds| && steps[i].ReadCreds?
    requires forall m :: i < m < j ==> !steps[m].WriteCreds? && !steps[m].FailCreds?
    ensures worlds[j].creds.Some?
  {
    if i + 1 < j {
      CredsStay(hash, fold, lite, worlds, steps, i, j - 1);
      StepBetween(hash, fold, worlds[j - 1], steps[j - 1]);
    }
  }

  lemma RunBetween(hash: Hash, fold: Fold, lite: Lite, worlds: seq<World>, steps: seq<Step>, i: nat, j: nat)
    requires IsRun(hash, fold, lite, worlds, steps) && i < j < |worlds| && steps[i].ReadCreds?
    requires forall m :: i < m < j ==> !steps[m].WriteCreds? && !steps[m].FailCreds?
    ensures AllBetween(worlds, steps, i + 1, j)
  {
    forall m | i + 1 <= m < j ensures Between(worlds[m], steps[m], worlds[m + 1]) {
      CredsStay(hash, fold, lite, worlds, steps, i, m);
      StepBetween(hash, fold, worlds[m], steps[m]);
    }
  }

  /** While SetCreds is under way only an applied state moves the entry's cover site. */
  lemma SiteIsLastApplied(hash: Hash, fold: Fold, lite: Lite, worlds: seq<World>, steps: seq<Step>, i: nat, j: nat)
    requires IsRun(hash, fold, lite, worlds, steps) && i < j < |worlds| && steps[i].ReadCreds?
    requires forall m :: i < m < j ==> !steps[m].WriteCreds? && !steps[m].FailCreds?
    ensures Held(worlds[j], worlds[i].entry.lite.(creds := steps[i].creds), worlds[i].entry.lite.disguise, steps, i + 1, j)
  {
    RunBetween(hash, fold, lite, worlds, steps, i, j);
    var l := worlds[i].entry.lite;
    assert Held(worlds[i + 1], l.(creds := steps[i].creds), l.disguise, steps, i + 1, i + 1);
    HeldThroughout(worlds, steps, l.(creds := steps[i].creds), l.disguise, i + 1, j);
  }

  /** SetCreds never loses a saved stream limit or stop. It keeps the entry's cover site exactly when the last
      state applied between its two locked sections, if one named a site, named the site it began with: it
      puts back the row it copied in the first. */
  lemma CredsKeepCoverExactlyWhenUnmoved(hash: Hash, fold: Fold, lite: Lite, worlds: seq<World>, steps: seq<Step>,
                                         i: nat, j: nat)
    requires IsRun(hash, fold, lite, worlds, steps) && i < j < |steps| && steps[i].ReadCreds? && steps[j].WriteCreds?
    requires forall m :: i < m < j ==> !steps[m].WriteCreds? && !steps[m].FailCreds?
    ensures var was, now, site := worlds[j].entry.lite, worlds[j + 1].entry.lite, worlds[i].entry.lite.disguise;
            && now.maxStreams == was.maxStreams && now.stopped == was.stopped && now.creds == steps[i].creds
            && (now.disguise == was.disguise <==> LastApplied(site, steps, i + 1, j) == site)
  {
    SiteIsLastApplied(hash, fold, lite, worlds, steps, i, j);
    RunHolds(hash, fold, lite, worlds, steps, j);
  }

  lemma Extend(hash: Hash, fold: Fold, lite: Lite, worlds: seq<World>, steps: seq<Step>, step: Step, w: World)
    requires IsRun(hash, fold, lite, worlds, steps) && Enabled(hash, fold, worlds[|steps|], step)
    requires w == Next(hash, fold, worlds[|steps|], step)
    ensures IsRun(hash, fold, lite, worlds + [w], steps + [step])
  {}

  /** A push of a new cover site that passes its check and lands. */
  lemma PushNewCover(hash: Hash, fold: Fold, lite: Lite, p: Payload, dcNets: seq<string>, s: State)
    returns (worlds: seq<World>, steps: seq<Step>)
    requires p.coreType == "mtproto" && !IsTeardown(p) && Buildable(fold, p)
    requires IsStateOf(hash, fold, p, dcNets, lite.maxStreams, s) && s.disguise != lite.disguise
    ensures IsRun(hash, fold, lite, worlds, steps) && |steps| == 4
    ensures var w := worlds[4];
            && w.entry.lite == lite && w.creds == None && w.entry.desired == Some(OnSettings(hash, s, lite))
            && OnSettings(hash, s, lite) in w.given
  {
    var w0 := Fresh(lite);
    var w1 := w0.(calls := map[0 := Built(s, p.inbound)]);
    var w2 := w0.(calls := map[0 := Checking(s, p.inbound, lite.disguise)]);
    var w3 := Passed(w0, s.disguise).(calls := map[0 := Ready(s, p.inbound, false)]);
    Extend(hash, fold, lite, [w0], [], Begin(0, p, dcNets, s), w1);
    Extend(hash, fold, lite, [w0] + [w1], [] + [Begin(0, p, dcNets, s)], ReadCover(0), w2);
    worlds, steps := [w0] + [w1] + [w2], [] + [Begin(0, p, dcNets, s)] + [ReadCover(0)];
    Extend(hash, fold, lite, worlds, steps, CheckPass(0), w3);
    worlds, steps := worlds + [w3], steps + [CheckPass(0)];
    var w4 := Next(hash, fold, w3, Land(0));
    Extend(hash, fold, lite, worlds, steps, Land(0), w4);
    worlds, steps := worlds + [w4], steps + [Land(0)];
  }

  /** Every push of a new cover site can be followed by such a loss: the site passes, lands and is applied
      while SetCreds is between its sections, and the entry is back on the old one. */
  lemma CredsRevertCover(hash: Hash, fold: Fold, lite: Lite, p: Payload, dcNets: seq<string>, s: State)
    returns (worlds: seq<World>, steps: seq<Step>)
    requires p.coreType == "mtproto" && !IsTeardown(p) && Buildable(fold, p)
    requires IsStateOf(hash, fold, p, dcNets, lite.maxStreams, s) && s.disguise != lite.disguise
    ensures IsRun(hash, fold, lite, worlds, steps) && |steps| == 7 && steps[5].Applied? && steps[6].WriteCreds?
    ensures worlds[6].entry.lite.disguise == s.disguise && worlds[7].entry.lite.disguise == lite.disguise
    ensures worlds[7].entry.desired.Some? && worlds[7].entry.desired.value.disguise == s.disguise
  {
    worlds, steps := PushNewCover(hash, fold, lite, p, dcNets, s);
    var t := OnSettings(hash, s, lite);
    OnSettingsIs(hash, s, lite);
    var w5 := worlds[4].(creds := Some(lite.(creds := "new")));
    Extend(hash, fold, lite, worlds, steps, ReadCreds("new"), w5);
    worlds, steps := worlds + [w5], steps + [ReadCreds("new")];
    var w6 := OnCover(w5, s.disguise);
    Extend(hash, fold, lite, worlds, steps, Applied(t), w6);
    worlds, steps := worlds + [w6], steps + [Applied(t)];
    var w7 := OnCover(w6.(entry := w6.entry.(lite := lite.(creds := "new")), creds := None), lite.disguise);
    Extend(hash, fold, lite, worlds, steps, WriteCreds, w7);
    worlds, steps := worlds + [w7], steps + [WriteCreds];
  }

  // ---------- where a cover site comes from

  /** The row's own site, one a repair adopted, or one that passed its check. */
  ghost predicate Vouched(w: World, lite: Lite, site: string) {
    site == lite.disguise || site in w.adopted || site in w.passed
  }

  ghost predicate SitesVouched(w: World, lite: Lite) {
    && (forall x: string :: x in w.inUse ==> Vouched(w, lite, x))
    && (forall s: State :: s in w.given ==> Vouched(w, lite, s.disguise))
  }

  lemma StepVouched(hash: Hash, fold: Fold, w: World, step: Step, lite: Lite)
    requires Enabled(hash, fold, w, step) && SitesVouched(w, lite) && Sides(w)
    requires KeepsUp(hash, Next(hash, fold, w, step)) && Sides(Next(hash, fold, w, step))
    ensures SitesVouched(Next(hash, fold, w, step), lite)
  {
    var v := Next(hash, fold, w, step);
    forall x: string | x in v.inUse ensures Vouched(v, lite, x) {
      assert x in w.inUse ==> Vouched(w, lite, x);
      if step.Applied? {
        assert Vouched(w, lite, step.state.disguise);
      }
    }
    forall s: State | s in v.given ensures Vouched(v, lite, s.disguise) {
      assert s in w.given ==> Vouched(w, lite, s.disguise);
      assert s in w.given || v.entry.queued == Some(s);
    }
  }

  /** Every site the entry ever ran on, and every site the panel ever asked for, is the row's own, one a repair
      adopted, or one that passed its check. */
  lemma {:induction false} CoverIsVouched(hash: Hash, fold: Fold, lite: Lite, worlds: seq<World>, steps: seq<Step>, i: nat)
    requires IsRun(hash, fold, lite, worlds, steps) && i < |worlds|
    ensures SitesVouched(worlds[i], lite)
    ensures worlds[i].entry.desired.Some? ==> Vouched(worlds[i], lite, worlds[i].entry.desired.value.disguise)
  {
    RunHolds(hash, fold, lite, worlds, steps, i);
    if i > 0 {
      CoverIsVouched(hash, fold, lite, worlds, steps, i - 1);
      RunHolds(hash, fold, lite, worlds, steps, i - 1);
      StepVouched(hash, fold, worlds[i - 1], steps[i - 1], lite);
    }
  }
}
