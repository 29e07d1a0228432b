/** What the feed says over whole runs: it drops repeats and nothing else, and floods add up. */
module FeedTheorems {
  import opened Common
  import opened Feed

  // ---------- changes only

  /** The last of the observations, or what was taken for granted before any. */
  function Latest<T>(init: T, obs: seq<T>): T {
    if obs == [] then init else obs[|obs| - 1]
  }

  /** The observations that differ from the one before. */
  function Changes<T(==)>(init: T, obs: seq<T>): seq<T> {
    if obs == [] then []
    else
      var before, last := obs[..|obs| - 1], obs[|obs| - 1];
      Changes(init, before) + if last != Latest(init, before) then [last] else []
  }

  /** No change repeats the one before it, the first is not the initial value, and the last one is
      where things stand. */
  lemma {:induction false} ChangesNeverRepeat<T>(init: T, obs: seq<T>)
    ensures Latest(init, Changes(init, obs)) == Latest(init, obs)
    ensures Changes(init, obs) != [] ==> Changes(init, obs)[0] != init
    ensures forall i :: 0 <= i < |Changes(init, obs)| - 1 ==> Changes(init, obs)[i] != Changes(init, obs)[i + 1]
  {
    if obs != [] {
      ChangesNeverRepeat(init, obs[..|obs| - 1]);
    }
  }

  // ---------- runs of a feed

  datatype Timed = Timed(op: Op, now: Time)

  function Run(s: State, run: seq<Timed>): State {
    if run == [] then s else Do(Run(s, run[..|run| - 1]), run[|run| - 1].op, run[|run| - 1].now)
  }

  /** What the run leaves remembered. */
  function Recall(m: Memory, run: seq<Timed>): Memory {
    if run == [] then m else Remembered(Recall(m, run[..|run| - 1]), run[|run| - 1].op)
  }

  lemma {:induction false} RunRecalls(s: State, run: seq<Timed>)
    ensures Run(s, run).memory == Recall(s.memory, run)
  {
    if run != [] {
      RunRecalls(s, run[..|run| - 1]);
    }
  }

  /** Every event the run recorded, also those the ring has since lost; foldings are not new ones. */
  function Log(m: Memory, run: seq<Timed>): seq<Event> {
    if run == [] then []
    else
      var news := News(Recall(m, run[..|run| - 1]), run[|run| - 1].op);
      Log(m, run[..|run| - 1]) + if news.Some? then [news.value] else []
  }

  ghost predicate EndsWith(log: seq<Event>, ring: seq<Event>) {
    && |ring| == (if |log| <= FEED_CAP then |log| else FEED_CAP)
    && forall i :: 0 <= i < |ring| ==> ring[i].kind == log[|log| - |ring| + i].kind
  }

  lemma AddedEnds(log: seq<Event>, ring: seq<Event>, ev: Event, now: Time)
    requires EndsWith(log, ring)
    ensures EndsWith(log + [ev], Added(ring, ev, now))
  {
  }

  /** Without floods the ring is the end of the log: its last FEED_CAP events. */
  lemma {:induction false} RingIsLogEnd(run: seq<Timed>)
    requires forall i :: 0 <= i < |run| ==> !run[i].op.Flood?
    ensures EndsWith(Log(BLANK, run), Run(EMPTY, run).ring)
  {
    if run != [] {
      var init, last := run[..|run| - 1], run[|run| - 1];
      RingIsLogEnd(init);
      RunRecalls(EMPTY, init);
      var news := News(Recall(BLANK, init), last.op);
      if news.None? {
        assert Log(BLANK, run) == Log(BLANK, init);
      } else {
        AddedEnds(Log(BLANK, init), Run(EMPTY, init).ring, news.value, last.now);
      }
    }
  }

  /** The three things a feed watches. */
  datatype Channel = Links | Proxies | Covers

  predicate On(ch: Channel, k: Kind) {
    match ch
    case Links => k == LinkUp || k == LinkDown
    case Proxies => k == ProxyUp || k == ProxyDown || k == ProxyCrashLoop
    case Covers => k == CoverOK || k == CoverFailed
  }

  /** What a feed takes for granted until told otherwise. */
  function Presumed(ch: Channel): Kind {
    match ch case Links => LinkUp case Proxies => ProxyUp case Covers => CoverOK
  }

  /** The kinds recorded on one channel. */
  function KindsOf(log: seq<Event>, ch: Channel): seq<Kind> {
    if log == [] then []
    else
      var k := log[|log| - 1].kind;
      KindsOf(log[..|log| - 1], ch) + if On(ch, k) then [k] else []
  }

  lemma KindsAppend(log: seq<Event>, ev: Event, ch: Channel)
    ensures KindsOf(log + [ev], ch) == KindsOf(log, ch) + if On(ch, ev.kind) then [ev.kind] else []
  {
    assert (log + [ev])[..|log|] == log;
  }

  /** What an observation says of the thing it watches, as the kind of event that would announce it. */
  function Says(op: Op): Option<Kind> {
    match op
    case SeeLink(up, _) => Some(if up then LinkUp else LinkDown)
    case SeeProxy(p, _, _) => Some(if p.looping then ProxyCrashLoop else if p.running then ProxyUp else ProxyDown)
    case SeeCover(ok, _) => Some(if ok then CoverOK else CoverFailed)
    case _ => None
  }

  predicate Concerns(op: Op, ch: Channel) {
    Says(op).Some? && On(ch, Says(op).value)
  }

  /** What the run's observations said on one channel. */
  function Said(run: seq<Timed>, ch: Channel): seq<Kind> {
    if run == [] then []
    else
      var op := run[|run| - 1].op;
      Said(run[..|run| - 1], ch) + if Concerns(op, ch) then [Says(op).value] else []
  }

  /** Events put in from outside are about jobs. */
  predicate OutsideIsJob(op: Op) {
    op.Add? ==> op.ev.kind == JobOK || op.ev.kind == JobFailed
  }

  ghost predicate OutsideIsJobs(run: seq<Timed>) {
    forall i :: 0 <= i < |run| ==> OutsideIsJob(run[i].op)
  }

  /** What the feed remembers of one channel, as a kind. */
  function Remembers(s: Memory, ch: Channel): Kind {
    match ch
    case Links => if s.link == Some(false) then LinkDown else LinkUp
    case Proxies =>
      if s.proxy.None? then ProxyUp
      else if s.proxy.value.looping then ProxyCrashLoop
      else if s.proxy.value.running then ProxyUp
      else ProxyDown
    case Covers => if s.cover == Some(false) then CoverFailed else CoverOK
  }

  /** An observation on the channel is news exactly when it differs from what is remembered. */
  lemma NewsIsChange(s: Memory, op: Op, ch: Channel)
    requires Concerns(op, ch)
    ensures Remembers(Remembered(s, op), ch) == Says(op).value
    ensures News(s, op).Some? <==> Says(op).value != Remembers(s, ch)
    ensures News(s, op).Some? ==> News(s, op).value.kind == Says(op).value
  {
  }

  /** Anything else neither changes what is remembered nor records on the channel. */
  lemma OthersAreSilent(s: Memory, op: Op, ch: Channel)
    requires !Concerns(op, ch) && OutsideIsJob(op)
    ensures Remembers(Remembered(s, op), ch) == Remembers(s, ch)
    ensures News(s, op).Some? ==> !On(ch, News(s, op).value.kind)
  {
  }

  lemma ChangesAppend<T>(init: T, obs: seq<T>, x: T)
    ensures Changes(init, obs + [x]) == Changes(init, obs) + if x != Latest(init, obs) then [x] else []
  {
    assert (obs + [x])[..|obs|] == obs;
  }

  lemma {:induction false} ChannelRun(run: seq<Timed>, ch: Channel)
    requires OutsideIsJobs(run)
    ensures Remembers(Recall(BLANK, run), ch) == Latest(Presumed(ch), Said(run, ch))
    ensures KindsOf(Log(BLANK, run), ch) == Changes(Presumed(ch), Said(run, ch))
  {
    if run != [] {
      var init, last := run[..|run| - 1], run[|run| - 1];
      ChannelRun(init, ch);
      var s := Recall(BLANK, init);
      var news := News(s, last.op);
      assert OutsideIsJob(last.op);
      if news.Some? {
        KindsAppend(Log(BLANK, init), news.value, ch);
      } else {
        assert Log(BLANK, run) == Log(BLANK, init);
      }
      if Concerns(last.op, ch) {
        NewsIsChange(s, last.op, ch);
        ChangesAppend(Presumed(ch), Said(init, ch), Says(last.op).value);
      } else {
        OthersAreSilent(s, last.op, ch);
        assert Said(run, ch) == Said(init, ch);
      }
    }
  }

  /** The events of each channel are exactly the changes in what was observed of it, in order: a
      repeated observation records nothing, and the thing is presumed well at first. */
  lemma FeedIsStutterFree(run: seq<Timed>, ch: Channel)
    requires OutsideIsJobs(run)
    ensures var recorded := KindsOf(Log(BLANK, run), ch);
            && recorded == Changes(Presumed(ch), Said(run, ch))
            && (forall i :: 0 <= i < |recorded| - 1 ==> recorded[i] != recorded[i + 1])
            && Latest(Presumed(ch), recorded) == Latest(Presumed(ch), Said(run, ch))
  {
    ChannelRun(run, ch);
    ChangesNeverRepeat(Presumed(ch), Said(run, ch));
  }

  /** Link and cover events strictly alternate, beginning with a failure. */
  lemma FeedAlternates(run: seq<Timed>, ch: Channel)
    requires OutsideIsJobs(run) && !ch.Proxies?
    ensures var recorded := KindsOf(Log(BLANK, run), ch);
            forall i :: 0 <= i < |recorded| ==>
              recorded[i] == if i % 2 == 1 then Presumed(ch) else if ch.Links? then LinkDown else CoverFailed
  {
    FeedIsStutterFree(run, ch);
    ChangesNeverRepeat(Presumed(ch), Said(run, ch));
    PickedKinds(Log(BLANK, run), ch);
    TwoAlternate(KindsOf(Log(BLANK, run), ch), Presumed(ch), if ch.Links? then LinkDown else CoverFailed);
  }

  lemma {:induction false} PickedKinds(log: seq<Event>, ch: Channel)
    ensures forall i :: 0 <= i < |KindsOf(log, ch)| ==> On(ch, KindsOf(log, ch)[i])
  {
    if log != [] {
      PickedKinds(log[..|log| - 1], ch);
    }
  }

  lemma TwoAlternate(ks: seq<Kind>, well: Kind, ill: Kind)
    requires well != ill
    requires forall i :: 0 <= i < |ks| ==> ks[i] == well || ks[i] == ill
    requires ks != [] ==> ks[0] != well
    requires forall i :: 0 <= i < |ks| - 1 ==> ks[i] != ks[i + 1]
    ensures forall i :: 0 <= i < |ks| ==> ks[i] == if i % 2 == 0 then ill else well
  {
    var n := 0;
    while n < |ks|
      invariant 0 <= n <= |ks|
      invariant forall i :: 0 <= i < n ==> ks[i] == if i % 2 == 0 then ill else well
    {
      assert n > 0 ==> ks[n - 1] != ks[n];
      n := n + 1;
    }
  }

  // ---------- push failures since the last landing

  function Details(log: seq<Event>): seq<Text> {
    if log == [] then []
    else Details(log[..|log| - 1]) + if log[|log| - 1].kind == PushFailed then [log[|log| - 1].detail] else []
  }

  function Failures(run: seq<Timed>): seq<Text> {
    if run == [] then []
    else Failures(run[..|run| - 1]) + if run[|run| - 1].op.SeePushFailed? then [run[|run| - 1].op.why] else []
  }

  lemma DetailsAppend(log: seq<Event>, ev: Event)
    ensures Details(log + [ev]) == Details(log) + if ev.kind == PushFailed then [ev.detail] else []
  {
    assert (log + [ev])[..|log|] == log;
  }

  lemma FailureStep(m: Memory, op: Op)
    requires OutsideIsJob(op) && !op.SeeApplied?
    ensures Remembered(m, op).pushErr == if op.SeePushFailed? then op.why else m.pushErr
    ensures var news := News(m, op);
            if op.SeePushFailed? && op.why != m.pushErr
            then news.Some? && news.value.kind == PushFailed && news.value.detail == op.why
            else news.Some? ==> news.value.kind != PushFailed
  {
  }

  /** From a landed push on, until the next: each failure that differs from the one before is
      recorded once, and a retry that fails the same way is not. */
  lemma {:induction false} PushFailuresAreChanges(m: Memory, run: seq<Timed>)
    requires m.pushErr == [] && OutsideIsJobs(run) && forall i :: 0 <= i < |run| ==> !run[i].op.SeeApplied?
    ensures Recall(m, run).pushErr == Latest([], Failures(run))
    ensures Details(Log(m, run)) == Changes([], Failures(run))
  {
    if run != [] {
      var init, last := run[..|run| - 1], run[|run| - 1];
      PushFailuresAreChanges(m, init);
      assert OutsideIsJob(last.op) && !last.op.SeeApplied?;
      FailureStep(Recall(m, init), last.op);
      var news := News(Recall(m, init), last.op);
      if news.Some? {
        DetailsAppend(Log(m, init), news.value);
      } else {
        assert Log(m, run) == Log(m, init);
      }
      if last.op.SeePushFailed? {
        ChangesAppend([], Failures(init), last.op.why);
      } else {
        assert Failures(run) == Failures(init);
      }
    }
  }

  /** The failure remembered: the last one since a push landed. */
  function SinceLanding(run: seq<Timed>): Text {
    if run == [] then []
    else
      match run[|run| - 1].op
      case SeePushFailed(why) => why
      case SeeApplied(_, _) => []
      case _ => SinceLanding(run[..|run| - 1])
  }

  /** The failures that differ from the last since a push landed. */
  function NewFailures(run: seq<Timed>): seq<Text> {
    if run == [] then []
    else
      var init, op := run[..|run| - 1], run[|run| - 1].op;
      NewFailures(init) + if op.SeePushFailed? && op.why != SinceLanding(init) then [op.why] else []
  }

  lemma FailureOrLanding(m: Memory, op: Op)
    requires OutsideIsJob(op)
    ensures Remembered(m, op).pushErr == if op.SeePushFailed? then op.why else if op.SeeApplied? then [] else m.pushErr
    ensures var news := News(m, op);
            if op.SeePushFailed? && op.why != m.pushErr
            then news.Some? && news.value.kind == PushFailed && news.value.detail == op.why
            else news.Some? ==> news.value.kind != PushFailed
  {}

  /** Over every run, landings and all: the failures recorded are those, so a failure is recorded once per error and
      again after a push has landed. */
  lemma {:induction false} FailuresOncePerLanding(run: seq<Timed>)
    requires OutsideIsJobs(run)
    ensures Recall(BLANK, run).pushErr == SinceLanding(run) && Details(Log(BLANK, run)) == NewFailures(run)
  {
    if run != [] {
      var init, last := run[..|run| - 1], run[|run| - 1];
      FailuresOncePerLanding(init);
      assert OutsideIsJob(last.op);
      FailureOrLanding(Recall(BLANK, init), last.op);
      var news := News(Recall(BLANK, init), last.op);
      if news.Some? {
        DetailsAppend(Log(BLANK, init), news.value);
      } else {
        assert Log(BLANK, run) == Log(BLANK, init);
      }
    }
  }

  // ---------- revisions

  function Revisions(run: seq<Timed>): seq<Text> {
    if run == [] then []
    else Revisions(run[..|run| - 1]) + if run[|run| - 1].op.SeeApplied? then [run[|run| - 1].op.rev] else []
  }

  function Landings(log: seq<Event>): nat {
    if log == [] then 0
    else Landings(log[..|log| - 1]) + if log[|log| - 1].kind == Applied then 1 else 0
  }

  lemma LandingsAppend(log: seq<Event>, ev: Event)
    ensures Landings(log + [ev]) == Landings(log) + if ev.kind == Applied then 1 else 0
  {
    assert (log + [ev])[..|log|] == log;
  }

  lemma RevisionStep(m: Memory, op: Op)
    requires OutsideIsJob(op)
    ensures Remembered(m, op).applies == if op.SeeApplied? then op.rev else m.applies
    ensures var news := News(m, op);
            if op.SeeApplied? && op.rev != m.applies then news.Some? && news.value.kind == Applied
            else news.Some? ==> news.value.kind != Applied
  {}

  /** A revision is recorded once until it changes: as many landings are recorded as the revision changes. */
  lemma {:induction false} RevisionsAreChanges(run: seq<Timed>)
    requires OutsideIsJobs(run)
    ensures Recall(BLANK, run).applies == Latest([], Revisions(run))
    ensures Landings(Log(BLANK, run)) == |Changes([], Revisions(run))|
  {
    if run != [] {
      var init, last := run[..|run| - 1], run[|run| - 1];
      RevisionsAreChanges(init);
      assert OutsideIsJob(last.op);
      RevisionStep(Recall(BLANK, init), last.op);
      var news := News(Recall(BLANK, init), last.op);
      if news.Some? {
        LandingsAppend(Log(BLANK, init), news.value);
      } else {
        assert Log(BLANK, run) == Log(BLANK, init);
      }
      if last.op.SeeApplied? {
        ChangesAppend([], Revisions(init), last.op.rev);
      } else {
        assert Revisions(run) == Revisions(init);
      }
    }
  }

  // ---------- what an event says

  /** How bad the recorded event is: trouble at warn or error, a return to health or a stop on purpose at info. */
  lemma NewsLevels(s: Memory, op: Op)
    requires !op.Add? && News(s, op).Some?
    ensures var ev := News(s, op).value;
            && ev.at == 0 && ev.count == 0
            && match ev.kind
               case LinkUp => ev.level == Info
               case LinkDown => ev.level == Error
               case ProxyUp => ev.level == Info
               case ProxyDown => ev.level == (if op.held != [] then Info else Warn)
               case ProxyCrashLoop => ev.level == Error
               case CoverOK => ev.level == Info
               case CoverFailed => ev.level == Warn
               case Applied => ev.level == Info
               case PushFailed => ev.level == Error
               case _ => false
  {}

  /** And why: the reason given for the link, the last exit or the reason for holding the proxy, what the cover check
      said, the number of users, the push's error. */
  lemma NewsDetails(s: Memory, op: Op)
    requires !op.Add? && News(s, op).Some?
    ensures var ev := News(s, op).value;
            ev.detail == match op
                         case SeeLink(up, why) => if up then [] else why
                         case SeeProxy(cur, held, lastExit) =>
                           if cur.looping then lastExit else if cur.running then [] else if held != [] then held else lastExit
                         case SeeCover(_, detail) => detail
                         case SeeApplied(_, users) => users
                         case SeePushFailed(why) => why
                         case _ => ev.detail
  {}

  /** The newest entry after an addition: the event itself, clipped, stamped with the clock if it had no time. The
      entries before it are as they were, but for the oldest of a full ring. */
  lemma AddedTop(ring: seq<Event>, ev: Event, now: Time)
    ensures var out := Added(ring, ev, now); out != []
    ensures var out := Added(ring, ev, now);
            var top := out[|out| - 1];
            && top.kind == ev.kind && top.level == ev.level && top.count == ev.count && IsClip(ev.detail, top.detail)
            && (ev.at != 0 ==> top.at == ev.at) && (ev.at == 0 ==> top.at == now)
            && out[..|out| - 1] == if |ring| == FEED_CAP then ring[1..] else ring
  {}

  /** The newest entry after a flood that folds: the counts together, the later time, the new detail if there is one,
      and the old entry's kind and level. */
  lemma FloodTop(ring: seq<Event>, ev: Event, now: Time)
    requires FoldInto(ring, |ring| - 1, ev) >= 0
    ensures var out, was := Flooded(ring, ev, now), ring[FoldInto(ring, |ring| - 1, ev)];
            && out != []
            && var top := out[|out| - 1];
            && top.kind == was.kind == ev.kind && top.level == was.level && top.count == was.count + ev.count
            && top.at >= was.at && top.at >= ev.at && (top.at == was.at || top.at == ev.at)
            && (ev.detail != [] ==> IsClip(ev.detail, top.detail)) && (ev.detail == [] ==> top.detail == was.detail)
  {}

  // ---------- floods add up

  function CountOf(events: seq<Event>, kind: Kind): nat {
    if events == [] then 0
    else CountOf(events[..|events| - 1], kind) + if events[|events| - 1].kind == kind then events[|events| - 1].count else 0
  }

  lemma {:induction false} CountConcat(a: seq<Event>, b: seq<Event>, kind: Kind)
    ensures CountOf(a + b, kind) == CountOf(a, kind) + CountOf(b, kind)
  {
    if b == [] {
      assert a + b == a;
    } else {
      assert (a + b)[..|a + b| - 1] == a + b[..|b| - 1];
      CountConcat(a, b[..|b| - 1], kind);
    }
  }

  function Share(ev: Event, kind: Kind): nat {
    if ev.kind == kind then ev.count else 0
  }

  lemma CountOne(ev: Event, kind: Kind)
    ensures CountOf([ev], kind) == Share(ev, kind)
  {
    assert [ev][..0] == [];
  }

  lemma AddedConserves(ring: seq<Event>, ev: Event, now: Time, kind: Kind)
    ensures CountOf(Added(ring, ev, now), kind) + CountOf(PushedOut(ring), kind) == CountOf(ring, kind) + Share(ev, kind)
  {
    var ev' := ev.(at := if ev.at == 0 then now else ev.at, detail := Clip(ev.detail));
    CountOne(ev', kind);
    if |ring| == FEED_CAP {
      assert ring == [ring[0]] + ring[1..];
      CountConcat([ring[0]], ring[1..], kind);
      CountConcat(ring[1..], [ev'], kind);
    } else {
      CountConcat(ring, [ev'], kind);
    }
  }

  lemma FoldConserves(ring: seq<Event>, k: nat, ev: Event, kind: Kind)
    requires k < |ring| && ring[k].kind == ev.kind
    ensures CountOf(ring[..k] + ring[k + 1..] + [Folded(ring[k], ev)], kind) == CountOf(ring, kind) + Share(ev, kind)
  {
    var merged := Folded(ring[k], ev);
    assert ring == ring[..k] + [ring[k]] + ring[k + 1..];
    CountConcat(ring[..k] + [ring[k]], ring[k + 1..], kind);
    CountConcat(ring[..k], [ring[k]], kind);
    CountConcat(ring[..k] + ring[k + 1..], [merged], kind);
    CountConcat(ring[..k], ring[k + 1..], kind);
    CountOne(ring[k], kind);
    CountOne(merged, kind);
  }

  /** A flood adds its count to its own kind and takes away only what it pushes out of the ring. */
  lemma FloodConserves(ring: seq<Event>, ev: Event, now: Time, kind: Kind)
    ensures CountOf(Flooded(ring, ev, now), kind) + CountOf(FloodPushesOut(ring, ev), kind)
         == CountOf(ring, kind) + Share(ev, kind)
  {
    var k := FoldInto(ring, |ring| - 1, ev);
    if k >= 0 {
      FoldConserves(ring, k, ev, kind);
    } else {
      AddedConserves(ring, ev, now, kind);
    }
  }

  /** The other entries keep their order, and the ring keeps its bound. */
  lemma FloodKeepsOthers(ring: seq<Event>, ev: Event, now: Time)
    requires |ring| <= FEED_CAP
    ensures |Flooded(ring, ev, now)| <= FEED_CAP
    ensures var out := Flooded(ring, ev, now);
            var k := FoldInto(ring, |ring| - 1, ev);
            out[..|out| - 1] == if k >= 0 then ring[..k] + ring[k + 1..]
                                else if |ring| == FEED_CAP then ring[1..] else ring
  {
  }
}
