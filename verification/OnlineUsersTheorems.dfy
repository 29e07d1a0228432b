/** What holds of the online-users cache over whole runs. */
module OnlineUsersTheorems {
  import opened Common
  import opened OnlineUsers

  datatype Op =
    | ApplySweep(sweep: Sweep)
    | SetNode(node: Node, emails: set<Email>)
    | ClearNode(node: Node, email: Email)
    | CleanExpired
    | SetUsers(emails: set<Email>)
    | SetIPs(email: Email, ips: IPs)

  /** An operation and the clock reading it takes under the lock. */
  datatype Event = Event(now: Time, op: Op)

  function Do(c: Cache, ev: Event): Cache {
    match ev.op
    case ApplySweep(w) => Apply(c, w, ev.now)
    case SetNode(n, emails) => SetNodeOnline(c, n, emails, ev.now)
    case ClearNode(n, e) => ClearNodeUser(c, n, e)
    case CleanExpired => Clean(c, ev.now)
    case SetUsers(emails) => SetOnline(c, emails, ev.now)
    case SetIPs(e, ips) => SetUserIPs(c, e, ips)
  }

  function Run(c: Cache, run: seq<Event>): Cache {
    if run == [] then c else Do(Run(c, run[..|run| - 1]), run[|run| - 1])
  }

  /** What the sweeps of a run were told. */
  function Replies(c: Cache, run: seq<Event>): seq<Time> {
    if run == [] then []
    else
      var last := run[|run| - 1];
      Replies(c, run[..|run| - 1])
      + if last.op.ApplySweep? then [Reply(Run(c, run[..|run| - 1]), last.op.sweep, last.now)] else []
  }

  function WithoutCleanups(run: seq<Event>): seq<Event> {
    if run == [] then []
    else
      WithoutCleanups(run[..|run| - 1])
      + if run[|run| - 1].op.CleanExpired? then [] else [run[|run| - 1]]
  }

  /** The clock never goes back, and the zero time is long past. */
  ghost predicate ClockFrom(t: Time, run: seq<Event>) {
    t > MAX_AGE && (forall i :: 0 <= i < |run| ==> t <= run[i].now)
    && forall i, j :: 0 <= i < j < |run| ==> run[i].now <= run[j].now
  }

  /** The two writers that set one map without its partner. */
  predicate IsLoneWriter(op: Op) {
    op.SetUsers? || op.SetIPs?
  }

  ghost predicate NoLoneWriters(run: seq<Event>) {
    forall i :: 0 <= i < |run| ==> !IsLoneWriter(run[i].op)
  }

  // ---------- cleanup cannot be observed

  /** Cached IPs belong to a user whose last sighting is no older than they are. */
  ghost predicate Sound(cell: Cell) {
    cell.ips.Some? ==> cell.seen.Some? && Stamp(cell.ipsAt) <= cell.seen.value
  }

  ghost predicate SoundCache(c: Cache) {
    forall e :: Sound(CellOf(c, e))
  }

  /** Equal up to what has expired by now. */
  ghost predicate AlikeCell(x: Cell, y: Cell, now: Time) {
    && Live(x.seen, now) == Live(y.seen, now)
    && Live(x.ipsAt, now) == Live(y.ipsAt, now)
    && (Live(x.seen, now).Some? ==> x.ips == y.ips)
  }

  ghost predicate AlikeCells(c: Cache, d: Cache, now: Time) {
    forall e :: AlikeCell(CellOf(c, e), CellOf(d, e), now)
  }

  ghost predicate AlikeOnNode(c: Cache, d: Cache, n: Node, e: Email, now: Time) {
    Live(Get(OnNode(c, n), e), now) == Live(Get(OnNode(d, n), e), now)
  }

  ghost predicate AlikeNodes(c: Cache, d: Cache, now: Time) {
    forall n, e :: AlikeOnNode(c, d, n, e, now)
  }

  ghost predicate Alike(c: Cache, d: Cache, now: Time) {
    && SoundCache(c) && SoundCache(d)
    && c.snapshotsAt == d.snapshotsAt && c.snapshotIDs == d.snapshotIDs
    && AlikeCells(c, d, now)
    && AlikeNodes(c, d, now)
  }

  lemma SeenInKeeps(x: Cell, y: Cell, ips: IPs, o: Time, now: Time)
    requires AlikeCell(x, y, now) && Sound(x) && Sound(y) && now > MAX_AGE && now - o <= MAX_AGE
    ensures AlikeCell(SeenIn(x, ips, o), SeenIn(y, ips, o), now)
    ensures Sound(SeenIn(x, ips, o)) && Sound(SeenIn(y, ips, o))
  {
  }

  lemma Later(c: Cache, d: Cache, t: Time, now: Time)
    requires Alike(c, d, t) && t <= now
    ensures Alike(c, d, now)
  {
    forall e ensures AlikeCell(CellOf(c, e), CellOf(d, e), now) {
      assert AlikeCell(CellOf(c, e), CellOf(d, e), t);
    }
    forall n, e ensures AlikeOnNode(c, d, n, e, now) {
      assert AlikeOnNode(c, d, n, e, t);
    }
  }

  lemma MergeKeepsCells(c: Cache, d: Cache, n: Node, users: map<Email, IPs>, o: Time, id: int, now: Time)
    requires AlikeCells(c, d, now) && SoundCache(c) && SoundCache(d) && now > MAX_AGE && now - o <= MAX_AGE
    ensures AlikeCells(Merge(c, n, users, o, id), Merge(d, n, users, o, id), now)
    ensures SoundCache(Merge(c, n, users, o, id)) && SoundCache(Merge(d, n, users, o, id))
  {
    var c', d' := Merge(c, n, users, o, id), Merge(d, n, users, o, id);
    forall e
      ensures AlikeCell(CellOf(c', e), CellOf(d', e), now) && Sound(CellOf(c', e)) && Sound(CellOf(d', e))
    {
      MergeCell(c, n, users, o, id, e);
      MergeCell(d, n, users, o, id, e);
      assert Sound(CellOf(c, e)) && Sound(CellOf(d, e)) && AlikeCell(CellOf(c, e), CellOf(d, e), now);
      if e in users {
        SeenInKeeps(CellOf(c, e), CellOf(d, e), users[e], o, now);
      }
    }
  }

  lemma NodeSeenInKeeps(x: Option<Time>, y: Option<Time>, ips: IPs, o: Time, now: Time)
    requires Live(x, now) == Live(y, now) && now > MAX_AGE && now - o <= MAX_AGE
    ensures Live(NodeSeenIn(x, ips, o), now) == Live(NodeSeenIn(y, ips, o), now)
  {
  }

  lemma MergeKeepsNodes(c: Cache, d: Cache, n: Node, users: map<Email, IPs>, o: Time, id: int, now: Time)
    requires AlikeNodes(c, d, now) && now > MAX_AGE && now - o <= MAX_AGE
    ensures AlikeNodes(Merge(c, n, users, o, id), Merge(d, n, users, o, id), now)
  {
    var c', d' := Merge(c, n, users, o, id), Merge(d, n, users, o, id);
    forall m, e ensures AlikeOnNode(c', d', m, e, now) {
      MergeNode(c, n, users, o, id, m, e);
      MergeNode(d, n, users, o, id, m, e);
      assert AlikeOnNode(c, d, m, e, now);
      if m == n && e in users {
        NodeSeenInKeeps(Get(OnNode(c, n), e), Get(OnNode(d, n), e), users[e], o, now);
      }
    }
  }

  /** A sweep decides the same on both: what it accepts is newer than anything expired. */
  lemma SweepKeepsAlike(c: Cache, d: Cache, w: Sweep, now: Time)
    requires Alike(c, d, now) && now > MAX_AGE
    ensures Alike(Apply(c, w, now), Apply(d, w, now), now)
    ensures Reply(c, w, now) == Reply(d, w, now)
  {
    if Accepted(c, w, now) {
      MergeKeepsCells(c, d, w.node, w.users.value, Clamp(w.observedAt, now), w.sourceID, now);
      MergeKeepsNodes(c, d, w.node, w.users.value, Clamp(w.observedAt, now), w.sourceID, now);
    }
  }

  lemma SetNodeByUser(c: Cache, n: Node, emails: set<Email>, now: Time, m: Node, e: Email)
    ensures Get(OnNode(SetNodeOnline(c, n, emails, now), m), e)
         == if m == n && e in emails then Some(now) else Get(OnNode(c, m), e)
  {
  }

  lemma ClearNodeByUser(c: Cache, n: Node, x: Email, m: Node, e: Email)
    ensures Get(OnNode(ClearNodeUser(c, n, x), m), e) == if m == n && e == x then None else Get(OnNode(c, m), e)
  {
  }

  lemma CellsKept(c: Cache, d: Cache, c': Cache, d': Cache, now: Time)
    requires AlikeCells(c, d, now) && SoundCache(c) && SoundCache(d)
    requires c.users == c'.users && c.userIPs == c'.userIPs && c.userIPsAt == c'.userIPsAt
    requires d.users == d'.users && d.userIPs == d'.userIPs && d.userIPsAt == d'.userIPsAt
    ensures AlikeCells(c', d', now) && SoundCache(c') && SoundCache(d')
  {
    forall e ensures AlikeCell(CellOf(c', e), CellOf(d', e), now) && Sound(CellOf(c', e)) && Sound(CellOf(d', e)) {
      assert AlikeCell(CellOf(c, e), CellOf(d, e), now) && Sound(CellOf(c, e)) && Sound(CellOf(d, e));
    }
  }

  lemma SetNodeKeepsAlike(c: Cache, d: Cache, n: Node, emails: set<Email>, now: Time)
    requires Alike(c, d, now)
    ensures Alike(SetNodeOnline(c, n, emails, now), SetNodeOnline(d, n, emails, now), now)
  {
    var c', d' := SetNodeOnline(c, n, emails, now), SetNodeOnline(d, n, emails, now);
    CellsKept(c, d, c', d', now);
    forall m, e ensures AlikeOnNode(c', d', m, e, now) {
      SetNodeByUser(c, n, emails, now, m, e);
      SetNodeByUser(d, n, emails, now, m, e);
      assert AlikeOnNode(c, d, m, e, now);
    }
  }

  lemma ClearNodeKeepsAlike(c: Cache, d: Cache, n: Node, x: Email, now: Time)
    requires Alike(c, d, now)
    ensures Alike(ClearNodeUser(c, n, x), ClearNodeUser(d, n, x), now)
  {
    var c', d' := ClearNodeUser(c, n, x), ClearNodeUser(d, n, x);
    CellsKept(c, d, c', d', now);
    forall m, e ensures AlikeOnNode(c', d', m, e, now) {
      ClearNodeByUser(c, n, x, m, e);
      ClearNodeByUser(d, n, x, m, e);
      assert AlikeOnNode(c, d, m, e, now);
    }
  }

  lemma CleanKeepsAlike(c: Cache, d: Cache, now: Time)
    requires Alike(c, d, now) && now > MAX_AGE
    ensures Alike(Clean(c, now), d, now)
  {
    var c' := Clean(c, now);
    forall e ensures AlikeCell(CellOf(c', e), CellOf(d, e), now) && Sound(CellOf(c', e)) {
      CleanIsByCell(c, now, 0, e);
      assert AlikeCell(CellOf(c, e), CellOf(d, e), now) && Sound(CellOf(c, e));
    }
    forall n, e ensures AlikeOnNode(c', d, n, e, now) {
      CleanIsByCell(c, now, n, e);
      assert AlikeOnNode(c, d, n, e, now);
    }
  }

  /** Any operation but the two lone writers keeps two caches alike; a cleanup may be one-sided. */
  lemma StepKeepsAlike(c: Cache, d: Cache, ev: Event)
    requires Alike(c, d, ev.now) && ev.now > MAX_AGE && !IsLoneWriter(ev.op)
    ensures if ev.op.CleanExpired? then Alike(Do(c, ev), d, ev.now) else Alike(Do(c, ev), Do(d, ev), ev.now)
  {
    match ev.op {
      case ApplySweep(w) => SweepKeepsAlike(c, d, w, ev.now);
      case SetNode(n, emails) => SetNodeKeepsAlike(c, d, n, emails, ev.now);
      case ClearNode(n, x) => ClearNodeKeepsAlike(c, d, n, x, ev.now);
      case CleanExpired => CleanKeepsAlike(c, d, ev.now);
    }
  }

  lemma AlikeAnswersAlike(c: Cache, d: Cache, now: Time)
    requires Alike(c, d, now)
    ensures SameAnswers(c, d, now)
  {
    forall e
      ensures IsOnline(c, e, now) == IsOnline(d, e, now)
      ensures IsOnline(c, e, now) ==> Get(c.userIPs, e) == Get(d.userIPs, e)
    {
      assert AlikeCell(CellOf(c, e), CellOf(d, e), now);
    }
    forall e, n
      ensures IsOnlineOnNode(c, e, n, now) == IsOnlineOnNode(d, e, n, now)
      ensures e in NodeOnline(c, n, now) <==> e in NodeOnline(d, n, now)
    {
      assert AlikeOnNode(c, d, n, e, now);
    }
    forall e ensures Get(AllOnlineIPs(c, now), e) == Get(AllOnlineIPs(d, now), e) {
      assert IsOnline(c, e, now) ==> Get(c.userIPs, e) == Get(d.userIPs, e);
    }
    SameMap(AllOnlineIPs(c, now), AllOnlineIPs(d, now));
    assert OnlineNow(c, now) == AllOnlineIPs(c, now).Keys && OnlineNow(d, now) == AllOnlineIPs(d, now).Keys;
  }

  lemma {:induction false} RunsStayAlike(c: Cache, run: seq<Event>, t: Time)
    requires SoundCache(c) && ClockFrom(t, run) && NoLoneWriters(run)
    ensures var end := if run == [] then t else run[|run| - 1].now;
            Alike(Run(c, run), Run(c, WithoutCleanups(run)), end)
    ensures Replies(c, run) == Replies(c, WithoutCleanups(run))
  {
    if run != [] {
      var init, last := run[..|run| - 1], run[|run| - 1];
      RunsStayAlike(c, init, t);
      var before := if init == [] then t else init[|init| - 1].now;
      var x, y := Run(c, init), Run(c, WithoutCleanups(init));
      Later(x, y, before, last.now);
      StepKeepsAlike(x, y, last);
      if last.op.CleanExpired? {
        assert WithoutCleanups(run) == WithoutCleanups(init);
      } else {
        var kept := WithoutCleanups(init) + [last];
        assert WithoutCleanups(run) == kept && kept[..|kept| - 1] == WithoutCleanups(init);
        if last.op.ApplySweep? {
          SweepKeepsAlike(x, y, last.op.sweep, last.now);
        }
      }
    }
  }

  /** Two runs that differ only in their cleanups: every sweep was told the same, and every
      reader answers the same from the last event on. */
  lemma CleanupIsUnobservable(c: Cache, run: seq<Event>, run': seq<Event>, t: Time, now: Time)
    requires SoundCache(c)
    requires ClockFrom(t, run) && NoLoneWriters(run) && ClockFrom(t, run') && NoLoneWriters(run')
    requires WithoutCleanups(run) == WithoutCleanups(run')
    requires t <= now && forall i :: 0 <= i < |run| ==> run[i].now <= now
    requires forall i :: 0 <= i < |run'| ==> run'[i].now <= now
    ensures SameAnswers(Run(c, run), Run(c, run'), now)
    ensures Replies(c, run) == Replies(c, run')
  {
    RunsStayAlike(c, run, t);
    RunsStayAlike(c, run', t);
    var bare := Run(c, WithoutCleanups(run));
    Later(Run(c, run), bare, if run == [] then t else run[|run| - 1].now, now);
    Later(Run(c, run'), bare, if run' == [] then t else run'[|run'| - 1].now, now);
    AlikeAnswersAlike(Run(c, run), bare, now);
    AlikeAnswersAlike(Run(c, run'), bare, now);
  }

  /** The empty cache the process starts with qualifies. */
  lemma EmptyIsSound()
    ensures SoundCache(EMPTY)
  {
  }

  /** SetOnlineUsers is the exception: a cleanup just before it shows exactly when the user's last
      sighting has expired and IPs are still cached. */
  lemma LoneWriterReveals(c: Cache, e: Email, now: Time)
    ensures (e in OnlineNow(SetOnline(c, {e}, now), now)) != (e in OnlineNow(SetOnline(Clean(c, now), {e}, now), now))
       <==> e in c.userIPs && e in c.users && Expired(c.users[e], now)
  {
    CleanIsByCell(c, now, 0, e);
    AfterSetOnline(c, e, now);
    AfterSetOnline(Clean(c, now), e, now);
  }

  lemma AfterSetOnline(c: Cache, e: Email, now: Time)
    ensures e in OnlineNow(SetOnline(c, {e}, now), now) <==> CellOf(c, e).ips.Some?
  {
  }
}
