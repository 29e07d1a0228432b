/** Who owns a node's counters: the manager's entries, replaced, dropped, halted and pruned while usage
    is booked under the node's turn. Each locked section is one step. */
module Ownership {
  type NodeID = nat
  type EntryID = nat
  type SyncID = nat

  /** A node's turn: free, or held by a start at one of its stages, or by a booking. UpdateSettings and
      SetCreds hold it too; to the entries they look like a start that gives up. */
  datatype Turn = Free | Claimed | Cleared | Read | Installed | Booking(entry: EntryID)

  /** owner keeps every entry ever made. limbo: drop has taken the entry out of the map and has yet to
      cancel it. syncs: the `before` snapshots of the syncs under way. */
  datatype State = State(
    owner: map<EntryID, NodeID>,
    cancelled: set<EntryID>,
    current: map<NodeID, EntryID>,
    turns: map<NodeID, Turn>,
    limbo: set<EntryID>,
    syncs: map<SyncID, map<NodeID, EntryID>>,
    ended: bool)

  const INITIAL := State(map[], {}, map[], map[], {}, map[], false)

  datatype Step =
    | Claim(node: NodeID)
    | Clear(node: NodeID)
    | ReadBaseline(node: NodeID)
    | Install(node: NodeID, entry: EntryID)
    | Release(node: NodeID)
    | Begin(entry: EntryID)
    | Finish(entry: EntryID)
    | DropDelete(entry: EntryID)
    | DropCancel(entry: EntryID)
    | Halt(node: NodeID)
    | Stop
    | EndContext
    | Snapshot(sync: SyncID)
    | Prune(sync: SyncID, want: set<NodeID>)
    | Restart

  function TurnOf(s: State, n: NodeID): Turn {
    if n in s.turns then s.turns[n] else Free
  }

  predicate Alive(s: State, e: EntryID) {
    e in s.owner && e !in s.cancelled
  }

  predicate IsCurrent(s: State, e: EntryID) {
    e in s.owner && s.owner[e] in s.current && s.current[s.owner[e]] == e
  }

  predicate Enabled(s: State, step: Step) {
    match step
    case Claim(n) => TurnOf(s, n) == Free
    case Clear(n) => TurnOf(s, n) == Claimed
    case ReadBaseline(n) => TurnOf(s, n) == Cleared
    case Install(n, e) => TurnOf(s, n) == Read && e !in s.owner
    case Release(n) => TurnOf(s, n) in {Claimed, Cleared, Installed}
    case Begin(e) => Alive(s, e) && TurnOf(s, s.owner[e]) == Free
    case Finish(e) => e in s.owner && TurnOf(s, s.owner[e]) == Booking(e)
    case DropDelete(e) => e in s.owner && e !in s.limbo
    case DropCancel(e) => e in s.limbo
    case Halt(n) => true
    case Stop => true
    case EndContext => true
    case Snapshot(k) => k !in s.syncs
    case Prune(k, _) => k in s.syncs
    case Restart => true
  }

  function Turned(s: State, n: NodeID, t: Turn): State {
    s.(turns := s.turns[n := t])
  }

  /** Cancel the node's entry and take it out of the map, in one locked section. */
  function Halted(s: State, n: NodeID): State {
    if n in s.current then s.(cancelled := s.cancelled + {s.current[n]}, current := s.current - {n}) else s
  }

  predicate Prunes(s: State, before: map<NodeID, EntryID>, want: set<NodeID>, n: NodeID) {
    n in before && n !in want && n in s.current && s.current[n] == before[n]
  }

  function Pruned(s: State, before: map<NodeID, EntryID>, want: set<NodeID>): State {
    s.(cancelled := s.cancelled + (set n | n in before && Prunes(s, before, want, n) :: before[n]),
       current := s.current - (set n | n in before && Prunes(s, before, want, n)))
  }

  function Next(s: State, step: Step): State
    requires Enabled(s, step)
  {
    match step
    case Claim(n) => Turned(s, n, Claimed)
    case Clear(n) => Turned(Halted(s, n), n, Cleared)
    case ReadBaseline(n) => Turned(s, n, Read)
    case Install(n, e) =>
      Turned(s, n, Installed).(
        owner := s.owner[e := n],
        current := s.current[n := e],
        cancelled := if s.ended then s.cancelled + {e} else s.cancelled)
    case Release(n) => Turned(s, n, Free)
    case Begin(e) => Turned(s, s.owner[e], Booking(e))
    case Finish(e) => Turned(s, s.owner[e], Free)
    case DropDelete(e) =>
      s.(limbo := s.limbo + {e}, current := if IsCurrent(s, e) then s.current - {s.owner[e]} else s.current)
    case DropCancel(e) => s.(limbo := s.limbo - {e}, cancelled := s.cancelled + {e})
    case Halt(n) => Halted(s, n)
    case Stop => s.(cancelled := s.cancelled + s.current.Values, current := map[])
    case EndContext => s.(ended := true, cancelled := s.cancelled + s.owner.Keys)
    case Snapshot(k) => s.(syncs := s.syncs[k := s.current])
    case Prune(k, want) => Pruned(s, s.syncs[k], want).(syncs := s.syncs - {k})
    case Restart => INITIAL.(owner := s.owner, cancelled := s.owner.Keys)
  }

  ghost predicate IsRun(states: seq<State>, steps: seq<Step>) {
    && |states| == |steps| + 1
    && states[0] == INITIAL
    && forall i :: 0 <= i < |steps| ==> Enabled(states[i], steps[i]) && states[i + 1] == Next(states[i], steps[i])
  }

  // ---------- what always holds

  /** An uncancelled entry is in the map or drop is about to cancel it. */
  ghost predicate Tracked(s: State) {
    && (forall e :: Alive(s, e) ==> IsCurrent(s, e) || e in s.limbo)
    && (forall n :: n in s.current ==> s.current[n] in s.owner && s.owner[s.current[n]] == n)
    && s.limbo <= s.owner.Keys
    && s.cancelled <= s.owner.Keys
    && (s.ended ==> s.owner.Keys <= s.cancelled)
  }

  /** From clearing the old entry to installing the new one, the map has none. */
  ghost predicate Vacant(s: State) {
    forall n :: TurnOf(s, n) in {Cleared, Read} ==> n !in s.current
  }

  ghost predicate BookersOwn(s: State) {
    forall n :: TurnOf(s, n).Booking? ==> TurnOf(s, n).entry in s.owner && s.owner[TurnOf(s, n).entry] == n
  }

  lemma PruneTracked(s: State, before: map<NodeID, EntryID>, want: set<NodeID>)
    requires Tracked(s)
    ensures Tracked(Pruned(s, before, want))
  {
    var t := Pruned(s, before, want);
    forall e | Alive(t, e) ensures IsCurrent(t, e) || e in t.limbo {
      assert Alive(s, e);
      assert IsCurrent(s, e) ==> !Prunes(s, before, want, s.owner[e]);
    }
  }

  lemma HaltTracked(s: State, n: NodeID)
    requires Tracked(s)
    ensures Tracked(Halted(s, n))
  {
    forall e | Alive(Halted(s, n), e) ensures IsCurrent(Halted(s, n), e) || e in s.limbo {
      assert Alive(s, e);
    }
  }

  lemma TurnTracked(s: State, n: NodeID, t: Turn)
    requires Tracked(s)
    ensures Tracked(Turned(s, n, t))
  {
    forall e | Alive(Turned(s, n, t), e) ensures IsCurrent(Turned(s, n, t), e) || e in s.limbo {
      assert Alive(s, e);
    }
  }

  lemma InstallTracked(s: State, n: NodeID, e: EntryID)
    requires Tracked(s) && Vacant(s) && Enabled(s, Install(n, e))
    ensures Tracked(Next(s, Install(n, e)))
  {
    var t := Next(s, Install(n, e));
    forall f | Alive(t, f) ensures IsCurrent(t, f) || f in t.limbo {
      assert f == e || Alive(s, f);
    }
  }

  lemma StepTracked(s: State, step: Step)
    requires Tracked(s) && Vacant(s) && Enabled(s, step)
    ensures Tracked(Next(s, step))
  {
    var t := Next(s, step);
    match step
    case Claim(n) => TurnTracked(s, n, Claimed);
    case Clear(n) => HaltTracked(s, n); TurnTracked(Halted(s, n), n, Cleared);
    case ReadBaseline(n) => TurnTracked(s, n, Read);
    case Install(n, e) => InstallTracked(s, n, e);
    case Release(n) => TurnTracked(s, n, Free);
    case Begin(e) => TurnTracked(s, s.owner[e], Booking(e));
    case Finish(e) => TurnTracked(s, s.owner[e], Free);
    case Halt(n) => HaltTracked(s, n);
    case Prune(k, want) => PruneTracked(s, s.syncs[k], want);
    case DropDelete(_) => assert forall e :: Alive(t, e) ==> Alive(s, e);
    case DropCancel(_) => assert forall e :: Alive(t, e) ==> Alive(s, e);
    case Stop => assert forall e :: Alive(t, e) ==> Alive(s, e);
    case Snapshot(_) => assert forall e :: Alive(t, e) ==> Alive(s, e);
    case EndContext =>
    case Restart =>
  }

  lemma StepVacant(s: State, step: Step)
    requires Vacant(s) && Enabled(s, step)
    ensures Vacant(Next(s, step))
  {
    var t := Next(s, step);
    forall n | TurnOf(t, n) in {Cleared, Read} ensures n !in t.current {}
  }

  lemma StepBookers(s: State, step: Step)
    requires BookersOwn(s) && Enabled(s, step)
    ensures BookersOwn(Next(s, step))
  {
    var t := Next(s, step);
    forall n: NodeID | TurnOf(t, n).Booking?
      ensures TurnOf(t, n).entry in t.owner && t.owner[TurnOf(t, n).entry] == n {
      assert TurnOf(s, n) == TurnOf(t, n) || step == Begin(TurnOf(t, n).entry);
    }
  }

  ghost predicate Steady(s: State) {
    Tracked(s) && Vacant(s) && BookersOwn(s)
  }

  lemma {:induction false} RunSteady(states: seq<State>, steps: seq<Step>, i: nat)
    requires IsRun(states, steps) && i < |states|
    ensures Steady(states[i])
  {
    if i > 0 {
      RunSteady(states, steps, i - 1);
      StepTracked(states[i - 1], steps[i - 1]);
      StepVacant(states[i - 1], steps[i - 1]);
      StepBookers(states[i - 1], steps[i - 1]);
    }
  }

  // ---------- one owner

  ghost predicate SingleOwner(s: State) {
    forall e, f :: Alive(s, e) && Alive(s, f) && s.owner[e] == s.owner[f] ==> e == f
  }

  /** The entry may still change its node's books: it is uncancelled, or in the middle of a booking. */
  predicate Live(s: State, e: EntryID) {
    e in s.owner && (e !in s.cancelled || TurnOf(s, s.owner[e]) == Booking(e))
  }

  ghost predicate SoleLive(s: State) {
    forall e, f :: Live(s, e) && Live(s, f) && s.owner[e] == s.owner[f] ==> e == f
  }

  /** No install finds an entry of its node that drop has yet to cancel. */
  predicate InstallsClean(s: State, step: Step) {
    step.Install? ==> forall e :: e in s.limbo && e in s.owner && s.owner[e] == step.node ==> e in s.cancelled
  }

  lemma OnlyInstallRevives(s: State, step: Step, e: EntryID)
    requires Enabled(s, step) && BookersOwn(s) && Live(Next(s, step), e)
    ensures Live(s, e) || step == Install(Next(s, step).owner[e], e)
  {}

  lemma NoneLeft(s: State, n: NodeID, e: EntryID)
    requires Steady(s) && Enabled(s, Install(n, e)) && InstallsClean(s, Install(n, e))
    ensures forall f :: f in s.owner && s.owner[f] == n ==> !Live(s, f)
  {
    forall f | f in s.owner && s.owner[f] == n ensures !Live(s, f) {
      assert Alive(s, f) ==> IsCurrent(s, f) || f in s.limbo;
    }
  }

  lemma StepSoleLive(s: State, step: Step)
    requires Steady(s) && SoleLive(s) && Enabled(s, step) && InstallsClean(s, step)
    ensures SoleLive(Next(s, step))
  {
    var t := Next(s, step);
    if step.Install? {
      NoneLeft(s, step.node, step.entry);
    }
    forall e, f | Live(t, e) && Live(t, f) && t.owner[e] == t.owner[f] ensures e == f {
      OnlyInstallRevives(s, step, e);
      OnlyInstallRevives(s, step, f);
    }
  }

  lemma SoleLiveIsSingle(s: State)
    requires SoleLive(s)
    ensures SingleOwner(s)
  {
    forall e, f | Alive(s, e) && Alive(s, f) && s.owner[e] == s.owner[f] ensures e == f {
      assert Live(s, e) && Live(s, f);
    }
  }

  lemma {:induction false} CleanRunsAreSole(states: seq<State>, steps: seq<Step>, i: nat)
    requires IsRun(states, steps) && i < |states|
    requires forall j :: 0 <= j < i ==> InstallsClean(states[j], steps[j])
    ensures SoleLive(states[i])
  {
    if i > 0 {
      CleanRunsAreSole(states, steps, i - 1);
      RunSteady(states, steps, i - 1);
      StepSoleLive(states[i - 1], steps[i - 1]);
    }
  }

  lemma UncleanInstallMakesTwo(s: State, n: NodeID, e: EntryID)
    requires Steady(s) && Enabled(s, Install(n, e)) && !InstallsClean(s, Install(n, e))
    ensures !SingleOwner(Next(s, Install(n, e)))
  {
    var t := Next(s, Install(n, e));
    var f :| f in s.limbo && f in s.owner && s.owner[f] == n && f !in s.cancelled;
    assert Alive(t, f) && Alive(t, e) && t.owner[f] == t.owner[e];
  }

  /** A node has at most one uncancelled entry throughout a run exactly when no install happens between
      the two halves of a drop of the same node. */
  lemma SingleOwnerExactlyWhenClean(states: seq<State>, steps: seq<Step>)
    requires IsRun(states, steps)
    ensures (forall i :: 0 <= i < |states| ==> SingleOwner(states[i]))
            <==> (forall i :: 0 <= i < |steps| ==> InstallsClean(states[i], steps[i]))
  {
    if forall i :: 0 <= i < |steps| ==> InstallsClean(states[i], steps[i]) {
      forall i | 0 <= i < |states| ensures SingleOwner(states[i]) {
        CleanRunsAreSole(states, steps, i);
        SoleLiveIsSingle(states[i]);
      }
    } else {
      var i :| 0 <= i < |steps| && !InstallsClean(states[i], steps[i]);
      RunSteady(states, steps, i);
      UncleanInstallMakesTwo(states[i], steps[i].node, steps[i].entry);
      assert !SingleOwner(states[i + 1]);
    }
  }

  /** Every drop's delete is followed at once by its cancel. */
  ghost predicate DropsAreAtomic(steps: seq<Step>) {
    forall i :: 0 <= i < |steps| && steps[i].DropDelete? ==>
                  i + 1 == |steps| || steps[i + 1] == DropCancel(steps[i].entry)
  }

  lemma LimboStep(s: State, step: Step)
    requires Enabled(s, step)
    ensures match step
            case DropDelete(e) => Next(s, step).limbo == s.limbo + {e}
            case DropCancel(e) => Next(s, step).limbo == s.limbo - {e}
            case Restart => Next(s, step).limbo == {}
            case _ => Next(s, step).limbo == s.limbo
  {}

  lemma {:induction false} LimboIsMidDrop(states: seq<State>, steps: seq<Step>, i: nat)
    requires IsRun(states, steps) && DropsAreAtomic(steps) && i < |states|
    ensures states[i].limbo == {} || (i > 0 && steps[i - 1].DropDelete? && states[i].limbo == {steps[i - 1].entry})
  {
    if i > 0 {
      LimboIsMidDrop(states, steps, i - 1);
      LimboStep(states[i - 1], steps[i - 1]);
    }
  }

  /** With drop as one step: one owner per node, and it is the entry in the map. */
  lemma AtomicDropsOwn(states: seq<State>, steps: seq<Step>, i: nat, e: EntryID)
    requires IsRun(states, steps) && DropsAreAtomic(steps) && i < |states|
    ensures SoleLive(states[i]) && SingleOwner(states[i])
    ensures Alive(states[i], e) && (i == 0 || !steps[i - 1].DropDelete?) ==> IsCurrent(states[i], e)
  {
    forall j | 0 <= j < i ensures InstallsClean(states[j], steps[j]) {
      LimboIsMidDrop(states, steps, j);
    }
    CleanRunsAreSole(states, steps, i);
    SoleLiveIsSingle(states[i]);
    RunSteady(states, steps, i);
    LimboIsMidDrop(states, steps, i);
  }

  // ---------- what the baseline read cuts off

  lemma StaysDead(s: State, step: Step, e: EntryID)
    requires Enabled(s, step) && BookersOwn(s) && e in s.owner && !Live(s, e)
    ensures e in Next(s, step).owner && !Live(Next(s, step), e)
  {}

  lemma {:induction false} NeverBooksAgain(states: seq<State>, steps: seq<Step>, i: nat, j: nat, e: EntryID)
    requires IsRun(states, steps) && i <= j < |states|
    requires e in states[i].owner && !Live(states[i], e)
    ensures e in states[j].owner && !Live(states[j], e)
  {
    if i < j {
      NeverBooksAgain(states, steps, i, j - 1, e);
      RunSteady(states, steps, j - 1);
      StaysDead(states[j - 1], steps[j - 1], e);
    }
  }

  /** Once start has read the baseline, a booking finished on that node is by a later entry, unless an
      entry was still waiting for drop to cancel it. */
  lemma OlderEntriesNeverBook(states: seq<State>, steps: seq<Step>, i: nat, j: nat)
    requires IsRun(states, steps) && i < j < |steps| && steps[i].ReadBaseline? && steps[j].Finish?
    requires forall e :: e in states[i].limbo && e in states[i].owner && states[i].owner[e] == steps[i].node ==>
               e in states[i].cancelled
    requires states[j].owner[steps[j].entry] == steps[i].node
    ensures steps[j].entry !in states[i].owner
  {
    var e := steps[j].entry;
    RunSteady(states, steps, i);
    if e in states[i].owner {
      OwnerFixed(states, steps, i, j, e);
      DeadAtRead(states[i], steps[i].node, e);
      NeverBooksAgain(states, steps, i, j, e);
    }
  }

  lemma DeadAtRead(s: State, n: NodeID, e: EntryID)
    requires Steady(s) && Enabled(s, ReadBaseline(n)) && e in s.owner && s.owner[e] == n
    requires e in s.limbo ==> e in s.cancelled
    ensures !Live(s, e)
  {
    assert Alive(s, e) ==> IsCurrent(s, e) || e in s.limbo;
  }

  lemma OwnersKept(s: State, step: Step, e: EntryID)
    requires Enabled(s, step) && e in s.owner
    ensures e in Next(s, step).owner && Next(s, step).owner[e] == s.owner[e]
  {}

  /** Entries never change nodes. */
  ghost predicate OwnersGrow(s: State, t: State) {
    forall e :: e in s.owner ==> e in t.owner && t.owner[e] == s.owner[e]
  }

  lemma StepGrows(s: State, step: Step)
    requires Enabled(s, step)
    ensures OwnersGrow(s, Next(s, step))
  {
    forall e | e in s.owner ensures e in Next(s, step).owner && Next(s, step).owner[e] == s.owner[e] {
      OwnersKept(s, step, e);
    }
  }

  lemma {:induction false} GrowthAddsUp(states: seq<State>, i: nat, j: nat)
    requires i <= j < |states| && forall m :: i <= m < j ==> OwnersGrow(states[m], states[m + 1])
    ensures OwnersGrow(states[i], states[j])
  {
    if i < j {
      GrowthAddsUp(states, i, j - 1);
    }
  }

  lemma OwnerFixed(states: seq<State>, steps: seq<Step>, i: nat, j: nat, e: EntryID)
    requires IsRun(states, steps) && i <= j < |states| && e in states[i].owner
    ensures e in states[j].owner && states[j].owner[e] == states[i].owner[e]
  {
    forall m | i <= m < j ensures OwnersGrow(states[m], states[m + 1]) {
      StepGrows(states[m], steps[m]);
    }
    GrowthAddsUp(states, i, j);
  }

  /** With drop as one step that always holds: the entries there were at the read are out for good. */
  lemma ReadCutsOff(states: seq<State>, steps: seq<Step>, i: nat, j: nat)
    requires IsRun(states, steps) && DropsAreAtomic(steps) && i < j < |steps|
    requires steps[i].ReadBaseline? && steps[j].Finish? && states[j].owner[steps[j].entry] == steps[i].node
    ensures steps[j].entry !in states[i].owner
  {
    LimboIsMidDrop(states, steps, i);
    OlderEntriesNeverBook(states, steps, i, j);
  }

  /** An entry drop has yet to cancel can book after the baseline was read, behind the new entry's back. */
  lemma LimboMayBook(s: State, n: NodeID, e: EntryID, f: EntryID)
    requires Enabled(s, ReadBaseline(n)) && e in s.limbo && Alive(s, e) && s.owner[e] == n && f !in s.owner
    ensures var t := Next(s, ReadBaseline(n));
            && Enabled(t, Install(n, f))
            && var u := Next(t, Install(n, f));
            && Enabled(u, Release(n))
            && var v := Next(u, Release(n));
            && Enabled(v, Begin(e))
            && Enabled(Next(v, Begin(e)), Finish(e))
  {}

  // ---------- sync's prune

  /** What a prune cancels was already the node's entry when its sync began, still is, and is unwanted;
      and all such entries are cancelled. */
  lemma {:induction false} PruneSparesTheNew(states: seq<State>, steps: seq<Step>, i: nat, j: nat, e: EntryID)
    requires IsRun(states, steps) && i < j < |steps| && steps[i].Snapshot?
    requires steps[j].Prune? && steps[j].sync == steps[i].sync
    requires forall k :: i < k < j ==> !steps[k].Restart? && !(steps[k].Prune? && steps[k].sync == steps[i].sync)
    ensures Alive(states[j], e) ==>
              (e in states[j + 1].cancelled <==>
                 IsCurrent(states[i], e) && IsCurrent(states[j], e) && states[j].owner[e] !in steps[j].want)
  {
    SnapshotFixed(states, steps, i, j);
    RunSteady(states, steps, i);
    RunSteady(states, steps, j);
    if e in states[i].owner {
      OwnerFixed(states, steps, i, j, e);
    }
    var before := states[i].current;
    var n := states[j].owner;
    if Alive(states[j], e) && e in states[j + 1].cancelled {
      var m :| m in before && Prunes(states[j], before, steps[j].want, m) && before[m] == e;
    }
    if Alive(states[j], e) && IsCurrent(states[i], e) && IsCurrent(states[j], e) && n[e] !in steps[j].want {
      assert Prunes(states[j], before, steps[j].want, n[e]);
    }
  }

  lemma {:induction false} SnapshotFixed(states: seq<State>, steps: seq<Step>, i: nat, j: nat)
    requires IsRun(states, steps) && i < j < |states| && steps[i].Snapshot?
    requires forall k :: i < k < j ==> !steps[k].Restart? && !(steps[k].Prune? && steps[k].sync == steps[i].sync)
    ensures steps[i].sync in states[j].syncs && states[j].syncs[steps[i].sync] == states[i].current
  {
    if i + 1 < j {
      SnapshotFixed(states, steps, i, j - 1);
    }
  }

  // ---------- what each call does

  /** A drop leaves its entry cancelled and out of the map, and every other entry as it was: a newer one that has
      replaced it stays. */
  lemma DropStops(s: State, e: EntryID, f: EntryID)
    requires Enabled(s, DropDelete(e)) && Tracked(s)
    ensures var t := Next(Next(s, DropDelete(e)), DropCancel(e));
            && e in t.cancelled && !IsCurrent(t, e) && e !in t.limbo
            && (f != e ==> (Alive(t, f) <==> Alive(s, f)) && (IsCurrent(t, f) <==> IsCurrent(s, f)))
  {}

  /** Halting a node cancels the entry in the map and takes it out; no other node's entry is touched. */
  lemma HaltStops(s: State, n: NodeID, f: EntryID)
    requires Tracked(s)
    ensures var t := Next(s, Halt(n));
            && n !in t.current
            && (IsCurrent(s, f) && s.owner[f] == n ==> !Alive(t, f))
            && (f in s.owner && s.owner[f] != n ==> (Alive(t, f) <==> Alive(s, f)) && (IsCurrent(t, f) <==> IsCurrent(s, f)))
  {}

  /** Stopping cancels everything in the map and empties it; an entry still uncancelled is half way through a drop. */
  lemma StopStopsAll(s: State, f: EntryID)
    requires Tracked(s)
    ensures var t := Next(s, Stop);
            t.current == map[] && (Alive(t, f) ==> f in t.limbo) && (IsCurrent(s, f) ==> !Alive(t, f))
  {}

  /** When the context ends every entry is cancelled, and so is every entry installed later; a restarted process has
      none. */
  lemma EndStopsAll(s: State, n: NodeID, e: EntryID, f: EntryID)
    requires Tracked(s)
    ensures !Alive(Next(s, EndContext), f) && Next(s, EndContext).ended
    ensures s.ended && Enabled(s, Install(n, e)) ==> !Alive(Next(s, Install(n, e)), e)
    ensures !Alive(Next(s, Restart), f) && Next(s, Restart).current == map[] && TurnOf(Next(s, Restart), n) == Free
  {}

  /** An installed entry is the node's, uncancelled while the process runs, and nobody else's place is taken. */
  lemma InstallTakesOver(s: State, n: NodeID, e: EntryID, f: EntryID)
    requires Enabled(s, Install(n, e)) && Tracked(s)
    ensures var t := Next(s, Install(n, e));
            && IsCurrent(t, e) && t.owner[e] == n && (!s.ended ==> Alive(t, e))
            && (f in s.owner && s.owner[f] != n ==> (Alive(t, f) <==> Alive(s, f)) && (IsCurrent(t, f) <==> IsCurrent(s, f)))
  {}

  /** A booking and a start of one node never overlap: while one holds the turn the other cannot take it. */
  lemma TurnsExclude(s: State, n: NodeID, e: EntryID)
    requires e in s.owner && s.owner[e] == n
    ensures TurnOf(s, n).Booking? ==> !Enabled(s, Claim(n)) && !Enabled(s, Begin(e))
    ensures TurnOf(s, n) in {Claimed, Cleared, Read, Installed} ==> !Enabled(s, Claim(n)) && !Enabled(s, Begin(e))
    ensures e in s.cancelled ==> !Enabled(s, Begin(e))
    ensures Enabled(s, Begin(e)) ==> TurnOf(Next(s, Begin(e)), n) == Booking(e) && TurnOf(Next(Next(s, Begin(e)), Finish(e)), n) == Free
  {}
}
