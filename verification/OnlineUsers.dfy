/** The online-users cache as a value: what a sweep, a cleanup and each reader do to it. */
module OnlineUsers {
  import opened Common

  /** Nanoseconds; the zero time.Time is 0 and every clock reading is far after it. */
  type Time = int
  type Email = string
  type Node = nat
  type IPs = map<string, int>

  const MAX_AGE: Time := 40_000_000_000

  datatype Cache = Cache(
    users: map<Email, Time>,
    nodeUsers: map<Node, map<Email, Time>>,
    userIPs: map<Email, IPs>,
    userIPsAt: map<Email, Time>,
    snapshotsAt: map<Node, Time>,
    snapshotIDs: map<Node, int>)

  const EMPTY := Cache(map[], map[], map[], map[], map[], map[])

  function Get<K, V>(m: map<K, V>, k: K): Option<V> {
    if k in m then Some(m[k]) else None
  }

  /** A Go map read: a missing stamp reads as the zero time. */
  function Stamp(t: Option<Time>): Time {
    if t.Some? then t.value else 0
  }

  function OnNode(c: Cache, n: Node): map<Email, Time> {
    if n in c.nodeUsers then c.nodeUsers[n] else map[]
  }

  // ---------- one user's part of the cache

  /** A user's global entries: last seen, last IP observation, cached IPs. */
  datatype Cell = Cell(seen: Option<Time>, ipsAt: Option<Time>, ips: Option<IPs>)

  function CellOf(c: Cache, e: Email): Cell {
    Cell(Get(c.users, e), Get(c.userIPsAt, e), Get(c.userIPs, e))
  }

  /** What one line of an accepted sweep does to the user it names. */
  function SeenIn(cell: Cell, ips: IPs, o: Time): Cell {
    var c := if ips != map[] && o > Stamp(cell.seen) then cell.(seen := Some(o)) else cell;
    if o < Stamp(c.ipsAt) || o < Stamp(c.seen) then c
    else c.(ipsAt := Some(o), ips := if ips == map[] then None else Some(ips))
  }

  /** And to the user's stamp on the sweeping node. */
  function NodeSeenIn(stamp: Option<Time>, ips: IPs, o: Time): Option<Time> {
    if o < Stamp(stamp) then stamp else if ips == map[] then None else Some(o)
  }

  function Live(t: Option<Time>, now: Time): Option<Time> {
    if t.Some? && now - t.value > MAX_AGE then None else t
  }

  // ---------- sweeps

  /** users None: collection failed or was skipped. An empty map is a completed empty sweep. */
  datatype Sweep = Sweep(node: Node, users: Option<map<Email, IPs>>, observedAt: Time, sourceID: int)

  function CellAfter(c: Cache, users: map<Email, IPs>, o: Time, e: Email): Cell {
    if e in users then SeenIn(CellOf(c, e), users[e], o) else CellOf(c, e)
  }

  function NodeStampAfter(m: map<Email, Time>, users: map<Email, IPs>, o: Time, e: Email): Option<Time> {
    if e in users then NodeSeenIn(Get(m, e), users[e], o) else Get(m, e)
  }

  /** An accepted sweep, all its users at once. */
  function Merge(c: Cache, n: Node, users: map<Email, IPs>, o: Time, id: int): Cache {
    Cache(
      map e | e in c.users.Keys + users.Keys && CellAfter(c, users, o, e).seen.Some? ::
        CellAfter(c, users, o, e).seen.value,
      c.nodeUsers[n :=
        map e | e in OnNode(c, n).Keys + users.Keys && NodeStampAfter(OnNode(c, n), users, o, e).Some? ::
          NodeStampAfter(OnNode(c, n), users, o, e).value],
      map e | e in c.userIPs.Keys + users.Keys && CellAfter(c, users, o, e).ips.Some? ::
        CellAfter(c, users, o, e).ips.value,
      map e | e in c.userIPsAt.Keys + users.Keys && CellAfter(c, users, o, e).ipsAt.Some? ::
        CellAfter(c, users, o, e).ipsAt.value,
      c.snapshotsAt[n := o],
      c.snapshotIDs[n := id])
  }

  function Clamp(observedAt: Time, now: Time): Time {
    if observedAt == 0 || observedAt > now then now else observedAt
  }

  predicate IsRepeat(c: Cache, w: Sweep) {
    w.sourceID > 0 && Get(c.snapshotIDs, w.node) == Some(w.sourceID)
  }

  predicate Accepted(c: Cache, w: Sweep, now: Time) {
    var o := Clamp(w.observedAt, now);
    && w.users.Some?
    && !IsRepeat(c, w)
    && now - o <= MAX_AGE
    && o > Stamp(Get(c.snapshotsAt, w.node))
  }

  function Apply(c: Cache, w: Sweep, now: Time): Cache {
    if Accepted(c, w, now)
    then Merge(c, w.node, w.users.value, Clamp(w.observedAt, now), w.sourceID)
    else c
  }

  /** The observation time handed back to the caller. */
  function Reply(c: Cache, w: Sweep, now: Time): Time {
    if w.users.None? then w.observedAt
    else if IsRepeat(c, w) then Stamp(Get(c.snapshotsAt, w.node))
    else Clamp(w.observedAt, now)
  }

  // ---------- the other writers

  /** Stamp the given users with now. */
  function Stamped(m: map<Email, Time>, emails: set<Email>, now: Time): map<Email, Time> {
    map e | e in m.Keys + emails :: if e in emails then now else m[e]
  }

  function SetOnline(c: Cache, emails: set<Email>, now: Time): Cache {
    c.(users := Stamped(c.users, emails, now))
  }

  function SetNodeOnline(c: Cache, n: Node, emails: set<Email>, now: Time): Cache {
    c.(nodeUsers := c.nodeUsers[n := Stamped(OnNode(c, n), emails, now)])
  }

  function ClearNodeUser(c: Cache, n: Node, e: Email): Cache {
    if n in c.nodeUsers then c.(nodeUsers := c.nodeUsers[n := c.nodeUsers[n] - {e}]) else c
  }

  function SetUserIPs(c: Cache, e: Email, ips: IPs): Cache {
    c.(userIPs := if ips == map[] then c.userIPs - {e} else c.userIPs[e := ips])
  }

  predicate Expired(t: Time, now: Time) {
    now - t > MAX_AGE
  }

  function LiveOnly(m: map<Email, Time>, now: Time): map<Email, Time> {
    map e | e in m && !Expired(m[e], now) :: m[e]
  }

  function LiveNodes(nodes: map<Node, map<Email, Time>>, now: Time): map<Node, map<Email, Time>> {
    map n | n in nodes && LiveOnly(nodes[n], now) != map[] :: LiveOnly(nodes[n], now)
  }

  /** The IPs of users who are not about to be dropped. */
  function KeptIPs(ips: map<Email, IPs>, users: map<Email, Time>, now: Time): map<Email, IPs> {
    map e | e in ips && !(e in users && Expired(users[e], now)) :: ips[e]
  }

  function Clean(c: Cache, now: Time): Cache {
    Cache(
      LiveOnly(c.users, now),
      LiveNodes(c.nodeUsers, now),
      KeptIPs(c.userIPs, c.users, now),
      LiveOnly(c.userIPsAt, now),
      c.snapshotsAt,
      c.snapshotIDs)
  }

  // ---------- readers

  predicate IsOnline(c: Cache, e: Email, now: Time) {
    e in c.users && now - c.users[e] <= MAX_AGE
  }

  predicate IsOnlineOnNode(c: Cache, e: Email, n: Node, now: Time) {
    n in c.nodeUsers && e in c.nodeUsers[n] && now - c.nodeUsers[n][e] <= MAX_AGE
  }

  function OnlineNow(c: Cache, now: Time): set<Email> {
    set e | e in c.userIPs && IsOnline(c, e, now)
  }

  function UserOnlineCount(c: Cache, e: Email, now: Time): int {
    if IsOnline(c, e, now) then 1 else 0
  }

  function NodeOnline(c: Cache, n: Node, now: Time): set<Email> {
    set e | e in OnNode(c, n) && now - OnNode(c, n)[e] <= MAX_AGE
  }

  function UserOnlineIPs(c: Cache, e: Email, now: Time): Option<IPs> {
    if IsOnline(c, e, now) then Get(c.userIPs, e) else None
  }

  function AllOnlineIPs(c: Cache, now: Time): map<Email, IPs> {
    map e | e in c.userIPs && IsOnline(c, e, now) :: c.userIPs[e]
  }

  /** Every reader gives the same answer on both. */
  ghost predicate SameAnswers(c: Cache, d: Cache, now: Time) {
    && OnlineNow(c, now) == OnlineNow(d, now)
    && AllOnlineIPs(c, now) == AllOnlineIPs(d, now)
    && (forall e :: IsOnline(c, e, now) == IsOnline(d, e, now))
    && (forall e :: UserOnlineIPs(c, e, now) == UserOnlineIPs(d, e, now))
    && (forall n :: NodeOnline(c, n, now) == NodeOnline(d, n, now))
    && (forall e, n :: IsOnlineOnNode(c, e, n, now) == IsOnlineOnNode(d, e, n, now))
  }

  // ---------- the writers, user by user

  ghost predicate SameCells(c: Cache, d: Cache) {
    forall e :: CellOf(c, e) == CellOf(d, e)
  }

  ghost predicate SameNodes(c: Cache, d: Cache) {
    c.nodeUsers.Keys == d.nodeUsers.Keys && forall n, e :: Get(OnNode(c, n), e) == Get(OnNode(d, n), e)
  }

  lemma SameMap<K, V>(m: map<K, V>, m': map<K, V>)
    requires forall k :: Get(m, k) == Get(m', k)
    ensures m == m'
  {
    forall k ensures k in m <==> k in m' {
      assert Get(m, k) == Get(m', k);
    }
    forall k | k in m ensures m[k] == m'[k] {
      assert Get(m, k) == Get(m', k);
    }
  }

  /** A cache is its cells, its node stamps and its snapshot marks. */
  lemma Extensional(c: Cache, d: Cache)
    requires SameCells(c, d) && SameNodes(c, d)
    requires c.snapshotsAt == d.snapshotsAt && c.snapshotIDs == d.snapshotIDs
    ensures c == d
  {
    forall e
      ensures Get(c.users, e) == Get(d.users, e) && Get(c.userIPs, e) == Get(d.userIPs, e)
      ensures Get(c.userIPsAt, e) == Get(d.userIPsAt, e)
    {
      assert CellOf(c, e) == CellOf(d, e);
    }
    SameMap(c.users, d.users);
    SameMap(c.userIPs, d.userIPs);
    SameMap(c.userIPsAt, d.userIPsAt);
    forall n | n in c.nodeUsers ensures c.nodeUsers[n] == d.nodeUsers[n] {
      SameMap(OnNode(c, n), OnNode(d, n));
    }
  }

  lemma MergeCell(c: Cache, n: Node, users: map<Email, IPs>, o: Time, id: int, e: Email)
    ensures CellOf(Merge(c, n, users, o, id), e) == CellAfter(c, users, o, e)
  {
  }

  lemma MergeNode(c: Cache, n: Node, users: map<Email, IPs>, o: Time, id: int, m: Node, e: Email)
    ensures Get(OnNode(Merge(c, n, users, o, id), m), e)
         == if m == n then NodeStampAfter(OnNode(c, n), users, o, e) else Get(OnNode(c, m), e)
  {
  }

  // What an accepted sweep does, said without how: d is c after it.

  ghost predicate CellsMerged(c: Cache, users: map<Email, IPs>, o: Time, d: Cache) {
    forall e :: CellOf(d, e) == CellAfter(c, users, o, e)
  }

  function NodeAfter(c: Cache, n: Node, users: map<Email, IPs>, o: Time, m: Node, e: Email): Option<Time> {
    if m == n then NodeStampAfter(OnNode(c, n), users, o, e) else Get(OnNode(c, m), e)
  }

  ghost predicate NodesMerged(c: Cache, n: Node, users: map<Email, IPs>, o: Time, d: Cache) {
    && d.nodeUsers.Keys == c.nodeUsers.Keys + {n}
    && forall m, e :: Get(OnNode(d, m), e) == NodeAfter(c, n, users, o, m, e)
  }

  ghost predicate MarksMerged(c: Cache, n: Node, o: Time, id: int, d: Cache) {
    d.snapshotsAt == c.snapshotsAt[n := o] && d.snapshotIDs == c.snapshotIDs[n := id]
  }

  ghost predicate Merged(c: Cache, n: Node, users: map<Email, IPs>, o: Time, id: int, d: Cache) {
    CellsMerged(c, users, o, d) && NodesMerged(c, n, users, o, d) && MarksMerged(c, n, o, id, d)
  }

  lemma MergeMeets(c: Cache, n: Node, users: map<Email, IPs>, o: Time, id: int)
    ensures Merged(c, n, users, o, id, Merge(c, n, users, o, id))
  {
    var d := Merge(c, n, users, o, id);
    forall e ensures CellOf(d, e) == CellAfter(c, users, o, e) {
      MergeCell(c, n, users, o, id, e);
    }
    forall m, e ensures Get(OnNode(d, m), e) == NodeAfter(c, n, users, o, m, e) {
      MergeNode(c, n, users, o, id, m, e);
    }
  }

  lemma MergedIsOne(c: Cache, n: Node, users: map<Email, IPs>, o: Time, id: int, d: Cache, d': Cache)
    requires Merged(c, n, users, o, id, d) && Merged(c, n, users, o, id, d')
    ensures d == d'
  {
    forall e ensures CellOf(d, e) == CellOf(d', e) {
      assert CellOf(d, e) == CellAfter(c, users, o, e);
    }
    forall m, e ensures Get(OnNode(d, m), e) == Get(OnNode(d', m), e) {
      assert Get(OnNode(d, m), e) == NodeAfter(c, n, users, o, m, e);
    }
    Extensional(d, d');
  }

  function CleanCell(cell: Cell, now: Time): Cell {
    Cell(Live(cell.seen, now), Live(cell.ipsAt, now),
         if cell.seen.Some? && Expired(cell.seen.value, now) then None else cell.ips)
  }

  lemma CleanIsByCell(c: Cache, now: Time, n: Node, e: Email)
    ensures CellOf(Clean(c, now), e) == CleanCell(CellOf(c, e), now)
    ensures Get(OnNode(Clean(c, now), n), e) == Live(Get(OnNode(c, n), e), now)
  {
    if n in c.nodeUsers && LiveOnly(c.nodeUsers[n], now) == map[] {
      assert e !in LiveOnly(c.nodeUsers[n], now);
    }
  }
}
