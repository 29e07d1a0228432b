/** What the readers see after each call. */
module OnlineUsersMeaning {
  import opened Common
  import opened OnlineUsers

  // ---------- sweeps

  /** An accepted sweep that sees a user with IPs puts the user on its node, unless the node has a newer stamp. */
  lemma SightingShows(c: Cache, w: Sweep, now: Time, e: Email)
    requires Accepted(c, w, now) && MAX_AGE < now && e in w.users.value && w.users.value[e] != map[]
    requires Stamp(Get(OnNode(c, w.node), e)) <= Clamp(w.observedAt, now)
    ensures var d, o := Apply(c, w, now), Clamp(w.observedAt, now);
            && IsOnlineOnNode(d, e, w.node, now) && e in NodeOnline(d, w.node, now)
            && Get(OnNode(d, w.node), e) == Some(o)
  {
    MergeNode(c, w.node, w.users.value, Clamp(w.observedAt, now), w.sourceID, w.node, e);
  }

  /** And online at all: its last sighting is this one or a newer one. */
  lemma SightingStamps(c: Cache, w: Sweep, now: Time, e: Email)
    requires Accepted(c, w, now) && MAX_AGE < now && e in w.users.value && w.users.value[e] != map[]
    ensures var o, before := Clamp(w.observedAt, now), Stamp(CellOf(c, e).seen);
            && CellOf(Apply(c, w, now), e).seen == Some(if o > before then o else before)
            && IsOnline(Apply(c, w, now), e, now)
  {
    var o := Clamp(w.observedAt, now);
    MergeCell(c, w.node, w.users.value, o, w.sourceID, e);
    assert o > 0;
  }

  /** If nothing newer is known of the user, the sweep's IPs are what the readers give. */
  lemma SightingGivesIPs(c: Cache, w: Sweep, now: Time, e: Email)
    requires Accepted(c, w, now) && MAX_AGE < now && e in w.users.value && w.users.value[e] != map[]
    requires Stamp(CellOf(c, e).seen) <= Clamp(w.observedAt, now) && Stamp(CellOf(c, e).ipsAt) <= Clamp(w.observedAt, now)
    ensures var d := Apply(c, w, now);
            && UserOnlineIPs(d, e, now) == Some(w.users.value[e])
            && e in OnlineNow(d, now) && e in AllOnlineIPs(d, now) && AllOnlineIPs(d, now)[e] == w.users.value[e]
  {
    SightingStamps(c, w, now, e);
    MergeCell(c, w.node, w.users.value, Clamp(w.observedAt, now), w.sourceID, e);
    assert CellOf(Apply(c, w, now), e).ips == Some(w.users.value[e]);
  }

  /** If something newer is known, the IPs stay. */
  lemma OlderSightingKeepsIPs(c: Cache, w: Sweep, now: Time, e: Email)
    requires Accepted(c, w, now) && e in w.users.value
    requires Clamp(w.observedAt, now) < Stamp(CellOf(c, e).seen) || Clamp(w.observedAt, now) < Stamp(CellOf(c, e).ipsAt)
    ensures CellOf(Apply(c, w, now), e).ips == CellOf(c, e).ips && CellOf(Apply(c, w, now), e).ipsAt == CellOf(c, e).ipsAt
  {
    MergeCell(c, w.node, w.users.value, Clamp(w.observedAt, now), w.sourceID, e);
  }

  /** An empty IP map takes the user off the node, and takes the cached IPs away if nothing newer is known; the
      last sighting stays. */
  lemma EmptySightingTakesOff(c: Cache, w: Sweep, now: Time, e: Email)
    requires Accepted(c, w, now) && e in w.users.value && w.users.value[e] == map[]
    ensures var d, o := Apply(c, w, now), Clamp(w.observedAt, now);
            && CellOf(d, e).seen == CellOf(c, e).seen
            && (Stamp(Get(OnNode(c, w.node), e)) <= o ==> !IsOnlineOnNode(d, e, w.node, now) && e !in NodeOnline(d, w.node, now))
            && (Stamp(CellOf(c, e).seen) <= o && Stamp(CellOf(c, e).ipsAt) <= o ==>
                  UserOnlineIPs(d, e, now) == None && e !in OnlineNow(d, now) && CellOf(d, e).ipsAt == Some(o))
  {
    var o := Clamp(w.observedAt, now);
    MergeCell(c, w.node, w.users.value, o, w.sourceID, e);
    MergeNode(c, w.node, w.users.value, o, w.sourceID, w.node, e);
    assert Stamp(CellOf(c, e).seen) <= o && Stamp(CellOf(c, e).ipsAt) <= o ==> CellOf(Apply(c, w, now), e).ips == None;
  }

  /** A newer stamp of the user on the node stays, whatever the sweep says. */
  lemma NewerNodeStampStays(c: Cache, w: Sweep, now: Time, e: Email)
    requires Accepted(c, w, now) && Clamp(w.observedAt, now) < Stamp(Get(OnNode(c, w.node), e))
    ensures Get(OnNode(Apply(c, w, now), w.node), e) == Get(OnNode(c, w.node), e)
  {
    MergeNode(c, w.node, w.users.value, Clamp(w.observedAt, now), w.sourceID, w.node, e);
  }

  /** Users the sweep does not name, and stamps on other nodes, are as before. */
  lemma OthersUntouched(c: Cache, w: Sweep, now: Time, n: Node, e: Email)
    ensures w.users.Some? && e !in w.users.value ==> CellOf(Apply(c, w, now), e) == CellOf(c, e)
    ensures (w.users.Some? && e !in w.users.value) || n != w.node ==>
              Get(OnNode(Apply(c, w, now), n), e) == Get(OnNode(c, n), e)
  {
    if Accepted(c, w, now) {
      MergeCell(c, w.node, w.users.value, Clamp(w.observedAt, now), w.sourceID, e);
      MergeNode(c, w.node, w.users.value, Clamp(w.observedAt, now), w.sourceID, n, e);
    }
  }

  /** Which sweeps are taken in: completed, not the one just read, not too old, and newer than the node's last. */
  lemma TakenInExactly(c: Cache, w: Sweep, now: Time)
    requires MAX_AGE < now
    ensures var mark := Get(c.snapshotsAt, w.node);
            Apply(c, w, now).snapshotsAt != c.snapshotsAt ||
            w.users.None? ||
            (w.sourceID > 0 && Get(c.snapshotIDs, w.node) == Some(w.sourceID)) ||
            (0 != w.observedAt <= now && (now - w.observedAt > MAX_AGE || w.observedAt <= Stamp(mark))) ||
            ((w.observedAt == 0 || w.observedAt > now) && now <= Stamp(mark))
    ensures w.users.None? || (0 != w.observedAt <= now && now - w.observedAt > MAX_AGE) ==> Apply(c, w, now) == c
    ensures 0 != w.observedAt <= now && w.observedAt <= Stamp(Get(c.snapshotsAt, w.node)) ==> Apply(c, w, now) == c
    ensures w.sourceID > 0 && Get(c.snapshotIDs, w.node) == Some(w.sourceID) ==> Apply(c, w, now) == c
  {
    if Accepted(c, w, now) {
      var d := Apply(c, w, now);
      assert Get(d.snapshotsAt, w.node) == Some(Clamp(w.observedAt, now));
    }
  }

  /** The time handed back: the sweep's own if it is not ahead, the mark of one just read, else now. */
  lemma ReplyIsWhen(c: Cache, w: Sweep, now: Time)
    ensures w.users.None? ==> Reply(c, w, now) == w.observedAt
    ensures w.users.Some? && !IsRepeat(c, w) ==>
              Reply(c, w, now) == if 0 != w.observedAt <= now then w.observedAt else now
    ensures Accepted(c, w, now) ==> Get(Apply(c, w, now).snapshotsAt, w.node) == Some(Reply(c, w, now))
  {}

  // ---------- the other writers and the readers' clock

  /** A user stamped at t is online for exactly maxAge from then. */
  lemma OnlineForMaxAge(c: Cache, emails: set<Email>, e: Email, t: Time, now: Time)
    ensures e in emails ==> (IsOnline(SetOnline(c, emails, t), e, now) <==> now - t <= MAX_AGE)
    ensures e !in emails ==> (IsOnline(SetOnline(c, emails, t), e, now) <==> IsOnline(c, e, now))
    ensures forall n :: IsOnlineOnNode(SetOnline(c, emails, t), e, n, now) == IsOnlineOnNode(c, e, n, now)
    ensures e in emails ==> UserOnlineCount(SetOnline(c, emails, t), e, now) == if now - t <= MAX_AGE then 1 else 0
  {}

  lemma OnNodeForMaxAge(c: Cache, m: Node, emails: set<Email>, e: Email, n: Node, t: Time, now: Time)
    ensures var d := SetNodeOnline(c, m, emails, t);
            && (n == m && e in emails ==>
                  (IsOnlineOnNode(d, e, n, now) <==> now - t <= MAX_AGE) && (e in NodeOnline(d, n, now) <==> now - t <= MAX_AGE))
            && (n != m || e !in emails ==> (IsOnlineOnNode(d, e, n, now) <==> IsOnlineOnNode(c, e, n, now)))
            && IsOnline(d, e, now) == IsOnline(c, e, now)
  {}

  lemma ClearedIsOff(c: Cache, m: Node, x: Email, n: Node, e: Email, now: Time)
    ensures IsOnlineOnNode(ClearNodeUser(c, m, x), e, n, now) <==> IsOnlineOnNode(c, e, n, now) && !(n == m && e == x)
    ensures CellOf(ClearNodeUser(c, m, x), e) == CellOf(c, e)
  {}

  lemma SetIPsShow(c: Cache, x: Email, ips: IPs, e: Email, now: Time)
    ensures IsOnline(SetUserIPs(c, x, ips), e, now) == IsOnline(c, e, now)
    ensures UserOnlineIPs(SetUserIPs(c, x, ips), e, now) ==
            if e != x then UserOnlineIPs(c, e, now)
            else if ips != map[] && IsOnline(c, e, now) then Some(ips) else None
  {}

  /** A cleanup keeps what has not expired, drops what has, and keeps each node's mark. */
  lemma CleanKeepsTheLive(c: Cache, now: Time, n: Node, e: Email)
    ensures var d := Clean(c, now);
            && (e in d.users <==> IsOnline(c, e, now)) && (e in d.users ==> d.users[e] == c.users[e])
            && (e in OnNode(d, n) <==> IsOnlineOnNode(c, e, n, now)) && (e in OnNode(d, n) ==> OnNode(d, n)[e] == OnNode(c, n)[e])
            && (IsOnline(c, e, now) ==> Get(d.userIPs, e) == Get(c.userIPs, e))
            && d.snapshotsAt == c.snapshotsAt && d.snapshotIDs == c.snapshotIDs
  {
    CleanIsByCell(c, now, n, e);
    assert CellOf(Clean(c, now), e) == CleanCell(CellOf(c, e), now);
    assert Get(OnNode(Clean(c, now), n), e) == Live(Get(OnNode(c, n), e), now);
  }
}
