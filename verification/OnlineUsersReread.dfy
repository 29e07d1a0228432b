/** Reading a sweep again never keeps a user online longer. */
module OnlineUsersReread {
  import opened Common
  import opened OnlineUsers
  import opened OnlineUsersTheorems

  /** No stamp of the user is after t. */
  ghost predicate NoneAfter(c: Cache, e: Email, t: Time) {
    && (CellOf(c, e).seen.Some? ==> CellOf(c, e).seen.value <= t)
    && forall n :: NoneAfterOn(c, e, n, t)
  }

  ghost predicate NoneAfterOn(c: Cache, e: Email, n: Node, t: Time) {
    Get(OnNode(c, n), e).Some? ==> Get(OnNode(c, n), e).value <= t
  }

  /** The sweep has a time of its own, by t. */
  predicate Dated(w: Sweep, t: Time) {
    0 != w.observedAt <= t
  }

  /** What protects a sweep from counting as new when it is read again: a source ID, or a time of its own. */
  predicate Guarded(w: Sweep, t: Time) {
    w.sourceID > 0 || Dated(w, t)
  }

  /** An accepted sweep that does not see e, or saw it by t. */
  predicate NoNews(x: Sweep, e: Email, t: Time, now: Time) {
    Clamp(x.observedAt, now) <= t || (x.users.Some? && e in x.users.value ==> x.users.value[e] == map[])
  }

  /** The event, arriving at cache c, is no observation of e after t: it re-reads w, or is refused or failed, or
      says nothing newer of e. A newer sweep of w's own node may come only where w does not rely on its ID
      being the node's latest. */
  predicate Quiet(c: Cache, ev: Event, w: Sweep, e: Email, t: Time) {
    match ev.op
    case ApplySweep(x) =>
      || x == w
      || !Accepted(c, x, ev.now)
      || (NoNews(x, e, t, ev.now) && (x.node != w.node || Dated(w, t)))
    case SetNode(_, emails) => e !in emails || ev.now <= t
    case ClearNode(_, _) => true
    case CleanExpired => true
    case SetUsers(emails) => e !in emails || ev.now <= t
    case SetIPs(_, _) => true
  }

  ghost predicate QuietRunOf(c: Cache, run: seq<Event>, w: Sweep, e: Email, t: Time) {
    forall i :: 0 <= i < |run| ==> Quiet(Run(c, run[..i]), run[i], w, e, t)
  }

  lemma SweepBrings(c: Cache, x: Sweep, e: Email, t: Time, now: Time)
    requires NoneAfter(c, e, t) && Accepted(c, x, now)
    requires Clamp(x.observedAt, now) <= t || (e in x.users.value ==> x.users.value[e] == map[])
    ensures NoneAfter(Apply(c, x, now), e, t)
  {
    var o := Clamp(x.observedAt, now);
    MergeCell(c, x.node, x.users.value, o, x.sourceID, e);
    forall n ensures NoneAfterOn(Apply(c, x, now), e, n, t) {
      MergeNode(c, x.node, x.users.value, o, x.sourceID, n, e);
      assert NoneAfterOn(c, e, n, t);
    }
  }

  /** The cache remembers w, or w has its own time. */
  predicate Remembers(c: Cache, w: Sweep, t: Time) {
    IsRepeat(c, w) || Dated(w, t)
  }

  lemma QuietSweep(c: Cache, w: Sweep, x: Sweep, now: Time, e: Email, t: Time)
    requires NoneAfter(c, e, t) && Remembers(c, w, t) && Quiet(c, Event(now, ApplySweep(x)), w, e, t)
    ensures NoneAfter(Apply(c, x, now), e, t) && Remembers(Apply(c, x, now), w, t)
  {
    if Accepted(c, x, now) {
      SweepBrings(c, x, e, t, now);
    }
  }

  lemma QuietStep(c: Cache, w: Sweep, ev: Event, e: Email, t: Time)
    requires NoneAfter(c, e, t) && Remembers(c, w, t) && Quiet(c, ev, w, e, t)
    ensures NoneAfter(Do(c, ev), e, t) && Remembers(Do(c, ev), w, t)
  {
    match ev.op {
      case ApplySweep(x) => QuietSweep(c, w, x, ev.now, e, t);
      case _ => OthersBringNothing(c, ev, e, t);
    }
  }

  lemma NodeWriterBrings(c: Cache, m: Node, emails: set<Email>, e: Email, t: Time, now: Time)
    requires NoneAfter(c, e, t) && (e !in emails || now <= t)
    ensures NoneAfter(SetNodeOnline(c, m, emails, now), e, t)
  {
    forall n ensures NoneAfterOn(SetNodeOnline(c, m, emails, now), e, n, t) {
      assert NoneAfterOn(c, e, n, t);
      SetNodeByUser(c, m, emails, now, n, e);
    }
  }

  lemma ClearingBrings(c: Cache, m: Node, x: Email, e: Email, t: Time)
    requires NoneAfter(c, e, t)
    ensures NoneAfter(ClearNodeUser(c, m, x), e, t)
  {
    forall n ensures NoneAfterOn(ClearNodeUser(c, m, x), e, n, t) {
      assert NoneAfterOn(c, e, n, t);
      ClearNodeByUser(c, m, x, n, e);
    }
  }

  lemma CleaningBrings(c: Cache, e: Email, t: Time, now: Time)
    requires NoneAfter(c, e, t)
    ensures NoneAfter(Clean(c, now), e, t)
  {
    CleanIsByCell(c, now, 0, e);
    forall n ensures NoneAfterOn(Clean(c, now), e, n, t) {
      assert NoneAfterOn(c, e, n, t);
      CleanIsByCell(c, now, n, e);
    }
  }

  lemma GlobalWriterBrings(c: Cache, d: Cache, e: Email, t: Time)
    requires NoneAfter(c, e, t) && d.nodeUsers == c.nodeUsers
    requires Get(d.users, e) == Get(c.users, e) || (e in d.users && d.users[e] <= t)
    ensures NoneAfter(d, e, t)
  {
    forall n ensures NoneAfterOn(d, e, n, t) {
      assert NoneAfterOn(c, e, n, t);
    }
  }

  /** The writers other than sweeps, when they say nothing of e or say it by time t. */
  lemma OthersBringNothing(c: Cache, ev: Event, e: Email, t: Time)
    requires NoneAfter(c, e, t) && !ev.op.ApplySweep?
    requires ev.now <= t || (ev.op.SetNode? || ev.op.SetUsers? ==> e !in ev.op.emails)
    ensures NoneAfter(Do(c, ev), e, t)
    ensures Do(c, ev).snapshotIDs == c.snapshotIDs
  {
    match ev.op {
      case CleanExpired => CleaningBrings(c, e, t, ev.now);
      case SetNode(m, emails) => NodeWriterBrings(c, m, emails, e, t, ev.now);
      case ClearNode(m, x) => ClearingBrings(c, m, x, e, t);
      case SetUsers(emails) => GlobalWriterBrings(c, Do(c, ev), e, t);
      case SetIPs(x, ips) => GlobalWriterBrings(c, Do(c, ev), e, t);
    }
  }

  lemma {:induction false} QuietRun(c: Cache, w: Sweep, run: seq<Event>, e: Email, t: Time)
    requires NoneAfter(c, e, t) && Remembers(c, w, t) && QuietRunOf(c, run, w, e, t)
    ensures NoneAfter(Run(c, run), e, t)
    ensures Remembers(Run(c, run), w, t)
  {
    if run != [] {
      var init := run[..|run| - 1];
      assert forall i :: 0 <= i < |init| ==> init[..i] == run[..i] && init[i] == run[i];
      QuietRun(c, w, init, e, t);
      QuietStep(Run(c, init), w, run[|run| - 1], e, t);
    }
  }

  /** Every reader says the user is offline. */
  ghost predicate OfflineEverywhere(c: Cache, e: Email, now: Time) {
    && !IsOnline(c, e, now)
    && UserOnlineCount(c, e, now) == 0
    && e !in OnlineNow(c, now)
    && UserOnlineIPs(c, e, now) == None
    && e !in AllOnlineIPs(c, now)
    && forall n :: !IsOnlineOnNode(c, e, n, now) && e !in NodeOnline(c, n, now)
  }

  lemma StaleIsOffline(c: Cache, e: Email, t: Time, now: Time)
    requires NoneAfter(c, e, t) && now > t + MAX_AGE
    ensures OfflineEverywhere(c, e, now)
  {
    forall n ensures !IsOnlineOnNode(c, e, n, now) && e !in NodeOnline(c, n, now) {
      assert NoneAfterOn(c, e, n, t);
    }
  }

  /** A sweep with a source ID or a time of its own, taken in at time t and re-read any number of times afterwards,
      with cleanups, refused and failed sweeps and other nodes' news in between: without a newer observation of
      e, every reader reports e offline once maxAge has passed since t, even if the source clock was ahead. */
  lemma RereadingNeverExtends(c: Cache, w: Sweep, t: Time, run: seq<Event>, e: Email, now: Time)
    requires NoneAfter(c, e, t) && Guarded(w, t) && (Accepted(c, w, t) || Remembers(c, w, t))
    requires QuietRunOf(Apply(c, w, t), run, w, e, t)
    requires now > t + MAX_AGE
    ensures OfflineEverywhere(Run(Apply(c, w, t), run), e, now)
  {
    if Accepted(c, w, t) {
      SweepBrings(c, w, e, t, t);
    }
    QuietRun(Apply(c, w, t), w, run, e, t);
    StaleIsOffline(Run(Apply(c, w, t), run), e, t, now);
  }

  /** In a run from the empty cache no stamp is ahead of the clock, so the premise above holds. */
  lemma {:induction false} StampsNeverAhead(run: seq<Event>, start: Time, t: Time, e: Email)
    requires ClockFrom(start, run) && forall i :: 0 <= i < |run| ==> run[i].now <= t
    ensures NoneAfter(Run(EMPTY, run), e, t)
  {
    if run != [] {
      var init, ev := run[..|run| - 1], run[|run| - 1];
      StampsNeverAhead(init, start, t, e);
      var c := Run(EMPTY, init);
      match ev.op {
        case ApplySweep(x) =>
          if Accepted(c, x, ev.now) {
            SweepBrings(c, x, e, t, ev.now);
          }
        case _ =>
          OthersBringNothing(c, ev, e, t);
      }
    }
  }

  /** When a sweep that was taken in at t is taken in again at t': it has no source ID, the clock has moved, and
      its time is missing or was ahead and is recent enough. */
  lemma TakenInAgain(c: Cache, w: Sweep, t: Time, t': Time)
    requires Accepted(c, w, t) && MAX_AGE < t <= t'
    ensures Accepted(Apply(c, w, t), w, t') <==>
              w.sourceID <= 0 && t < t' && (w.observedAt == 0 || (t < w.observedAt && t' - w.observedAt <= MAX_AGE))
  {
    var d := Apply(c, w, t);
    assert Get(d.snapshotsAt, w.node) == Some(Clamp(w.observedAt, t));
    assert Get(d.snapshotIDs, w.node) == Some(w.sourceID);
  }

  /** Reading a sweep again never moves the users it saw past t exactly when the sweep is guarded. */
  lemma GuardedExactlyWhenRereadingIsIdle(c: Cache, w: Sweep, t: Time, e: Email)
    requires Accepted(c, w, t) && MAX_AGE < t && NoneAfter(c, e, t) && e in w.users.value && w.users.value[e] != map[]
    ensures Guarded(w, t) <==> forall t' :: t <= t' ==> NoneAfter(Apply(Apply(c, w, t), w, t'), e, t)
  {
    var d := Apply(c, w, t);
    SweepBrings(c, w, e, t, t);
    if Guarded(w, t) {
      forall t' | t <= t' ensures NoneAfter(Apply(d, w, t'), e, t) {
        TakenInAgain(c, w, t, t');
      }
    } else {
      UnguardedExtends(c, w, t, e);
      assert t <= t + 1;
    }
  }

  /** An unguarded sweep read again a moment later keeps the user online from then. */
  lemma UnguardedExtends(c: Cache, w: Sweep, t: Time, e: Email)
    requires Accepted(c, w, t) && MAX_AGE < t && NoneAfter(c, e, t) && !Guarded(w, t)
    requires e in w.users.value && w.users.value[e] != map[]
    ensures var again := Apply(Apply(c, w, t), w, t + 1);
            !NoneAfter(again, e, t) && IsOnline(again, e, t + 1 + MAX_AGE)
  {
    TakenInAgain(c, w, t, t + 1);
    SweepBrings(c, w, e, t, t);
    SightingStamps(Apply(c, w, t), w, e, t, t + 1);
  }

  lemma SightingStamps(d: Cache, w: Sweep, e: Email, t: Time, now: Time)
    requires NoneAfter(d, e, t) && Accepted(d, w, now) && 0 < t < now && Clamp(w.observedAt, now) == now
    requires e in w.users.value && w.users.value[e] != map[]
    ensures !NoneAfter(Apply(d, w, now), e, t) && IsOnline(Apply(d, w, now), e, now + MAX_AGE)
  {
    MergeCell(d, w.node, w.users.value, now, w.sourceID, e);
    assert CellOf(Apply(d, w, now), e).seen == Some(now);
  }

  // ---------- the time handed back

  ghost predicate NoOtherTakenIn(c: Cache, run: seq<Event>, n: Node, w: Sweep) {
    forall i :: 0 <= i < |run| && run[i].op.ApplySweep? && run[i].op.sweep.node == n && run[i].op.sweep != w ==>
      !Accepted(Run(c, run[..i]), run[i].op.sweep, run[i].now)
  }

  /** The cache still holds the mark w left. */
  predicate Marked(c: Cache, w: Sweep, at: Time) {
    w.sourceID > 0 && Get(c.snapshotIDs, w.node) == Some(w.sourceID) && Get(c.snapshotsAt, w.node) == Some(at)
  }

  lemma MarkStays(c: Cache, ev: Event, w: Sweep, at: Time)
    requires Marked(c, w, at)
    requires ev.op.ApplySweep? && ev.op.sweep.node == w.node && ev.op.sweep != w ==> !Accepted(c, ev.op.sweep, ev.now)
    ensures Marked(Do(c, ev), w, at)
  {}

  lemma {:induction false} MarkStaysOver(c: Cache, run: seq<Event>, w: Sweep, at: Time)
    requires Marked(c, w, at) && NoOtherTakenIn(c, run, w.node, w)
    ensures Marked(Run(c, run), w, at)
  {
    if run != [] {
      var init := run[..|run| - 1];
      assert forall i :: 0 <= i < |init| ==> init[..i] == run[..i] && init[i] == run[i];
      MarkStaysOver(c, init, w, at);
      MarkStays(Run(c, init), run[|run| - 1], w, at);
    }
  }

  /** The time handed back for a sweep with a source ID, even a clamped one, is the same whenever it is read again,
      as long as no other sweep of its node is taken in. */
  lemma ReplyIsStable(c: Cache, w: Sweep, t: Time, run: seq<Event>, now: Time)
    requires Accepted(c, w, t) && w.sourceID > 0 && NoOtherTakenIn(Apply(c, w, t), run, w.node, w)
    ensures Reply(Run(Apply(c, w, t), run), w, now) == Reply(c, w, t)
  {
    MarkStaysOver(Apply(c, w, t), run, w, Clamp(w.observedAt, t));
  }
}
