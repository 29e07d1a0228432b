/** The cache object itself: maps changed in place, one lock-held call at a time, each proved to
    do what its value-level description says. */
module OnlineUsersCache {
  import opened Common
  import opened OnlineUsers

  /** The part of a sweep that names the given users. */
  function Only(users: map<Email, IPs>, done: set<Email>): map<Email, IPs> {
    map e | e in users && e in done :: users[e]
  }

  /** One turn of the sweep's loop. */
  function SweepUser(c: Cache, n: Node, e: Email, ips: IPs, o: Time): Cache
    requires n in c.nodeUsers
  {
    var m := c.nodeUsers[n];
    var m' := if o < Stamp(Get(m, e)) then m else if ips == map[] then m - {e} else m[e := o];
    var c1 := c.(nodeUsers := c.nodeUsers[n := m']);
    var c2 := if ips != map[] && o > Stamp(Get(c1.users, e)) then c1.(users := c1.users[e := o]) else c1;
    if o < Stamp(Get(c2.userIPsAt, e)) || o < Stamp(Get(c2.users, e)) then c2
    else c2.(userIPsAt := c2.userIPsAt[e := o],
             userIPs := if ips == map[] then c2.userIPs - {e} else c2.userIPs[e := ips])
  }

  lemma SweepUserCell(c: Cache, n: Node, e: Email, ips: IPs, o: Time, x: Email)
    requires n in c.nodeUsers
    ensures CellOf(SweepUser(c, n, e, ips, o), x) == if x == e then SeenIn(CellOf(c, e), ips, o) else CellOf(c, x)
  {
  }

  lemma SweepUserNode(c: Cache, n: Node, e: Email, ips: IPs, o: Time, m: Node, x: Email)
    requires n in c.nodeUsers
    ensures Get(OnNode(SweepUser(c, n, e, ips, o), m), x)
         == if m == n && x == e then NodeSeenIn(Get(OnNode(c, n), e), ips, o) else Get(OnNode(c, m), x)
  {
  }

  lemma OneMoreCell(c: Cache, d: Cache, n: Node, users: map<Email, IPs>, done: set<Email>, e: Email, o: Time, f: Email)
    requires e in users && e !in done && n in d.nodeUsers && CellsMerged(c, Only(users, done), o, d)
    ensures CellOf(SweepUser(d, n, e, users[e], o), f) == CellAfter(c, Only(users, done + {e}), o, f)
  {
    SweepUserCell(d, n, e, users[e], o, f);
    assert CellOf(d, f) == CellAfter(c, Only(users, done), o, f);
    assert CellOf(d, e) == CellAfter(c, Only(users, done), o, e);
  }

  lemma OneMoreStamp(c: Cache, d: Cache, n: Node, users: map<Email, IPs>, done: set<Email>, e: Email, o: Time,
                     m: Node, f: Email)
    requires e in users && e !in done && n in d.nodeUsers && NodesMerged(c, n, Only(users, done), o, d)
    ensures Get(OnNode(SweepUser(d, n, e, users[e], o), m), f) == NodeAfter(c, n, Only(users, done + {e}), o, m, f)
  {
    SweepUserNode(d, n, e, users[e], o, m, f);
    assert Get(OnNode(d, m), f) == NodeAfter(c, n, Only(users, done), o, m, f);
    assert Get(OnNode(d, n), e) == NodeAfter(c, n, Only(users, done), o, n, e);
  }

  /** One more turn takes the sweep of some users to the sweep of one more. */
  lemma OneMoreUser(c: Cache, d: Cache, n: Node, users: map<Email, IPs>, done: set<Email>, e: Email, o: Time, id: int)
    requires e in users && e !in done && Merged(c, n, Only(users, done), o, id, d)
    ensures n in d.nodeUsers && Merged(c, n, Only(users, done + {e}), o, id, SweepUser(d, n, e, users[e], o))
  {
    var x := SweepUser(d, n, e, users[e], o);
    forall f ensures CellOf(x, f) == CellAfter(c, Only(users, done + {e}), o, f) {
      OneMoreCell(c, d, n, users, done, e, o, f);
    }
    forall m, f ensures Get(OnNode(x, m), f) == NodeAfter(c, n, Only(users, done + {e}), o, m, f) {
      OneMoreStamp(c, d, n, users, done, e, o, m, f);
    }
  }

  /** The cache once an accepted sweep has been noted but none of its users. */
  function Noted(c: Cache, n: Node, o: Time, id: int): Cache {
    c.(nodeUsers := c.nodeUsers[n := OnNode(c, n)],
       snapshotsAt := c.snapshotsAt[n := o], snapshotIDs := c.snapshotIDs[n := id])
  }

  lemma NoUsersYet(c: Cache, n: Node, o: Time, id: int)
    ensures Merged(c, n, map[], o, id, Noted(c, n, o, id))
  {
    var d := Noted(c, n, o, id);
    forall f ensures CellOf(d, f) == CellAfter(c, map[], o, f) {
    }
    forall m, f ensures Get(OnNode(d, m), f) == NodeAfter(c, n, map[], o, m, f) {
    }
  }

  function Members(emails: seq<Email>): set<Email> {
    set e | e in emails
  }

  class OnlineUsersCache {
    var users: map<Email, Time>
    var nodeUsers: map<Node, map<Email, Time>>
    var userIPs: map<Email, IPs>
    var userIPsAt: map<Email, Time>
    var snapshotsAt: map<Node, Time>
    var snapshotIDs: map<Node, int>

    constructor ()
      ensures State() == EMPTY
    {
      users, nodeUsers, userIPs, userIPsAt, snapshotsAt, snapshotIDs := map[], map[], map[], map[], map[], map[];
    }

    function State(): Cache
      reads this
    {
      Cache(users, nodeUsers, userIPs, userIPsAt, snapshotsAt, snapshotIDs)
    }

    method ApplyNodeOnlineIPSnapshot(nodeID: Node, sweep: Option<map<Email, IPs>>, observedAt: Time, sourceID: int,
                                     now: Time) returns (at: Time)
      modifies this
      ensures State() == Apply(old(State()), Sweep(nodeID, sweep, observedAt, sourceID), now)
      ensures at == Reply(old(State()), Sweep(nodeID, sweep, observedAt, sourceID), now)
    {
      if sweep.None? {
        return observedAt;
      }
      if sourceID > 0 && Get(snapshotIDs, nodeID) == Some(sourceID) {
        return Stamp(Get(snapshotsAt, nodeID));
      }
      var o := observedAt;
      if o == 0 || o > now {
        o := now;
      }
      if now - o > MAX_AGE || o <= Stamp(Get(snapshotsAt, nodeID)) {
        return o;
      }
      snapshotsAt := snapshotsAt[nodeID := o];
      snapshotIDs := snapshotIDs[nodeID := sourceID];
      nodeUsers := nodeUsers[nodeID := if nodeID in nodeUsers then nodeUsers[nodeID] else map[]];
      SweepUsers(nodeID, sweep.value, o, sourceID, old(State()));
      return o;
    }

    /** The loop over a completed sweep's users. */
    method SweepUsers(nodeID: Node, named: map<Email, IPs>, o: Time, id: int, ghost before: Cache)
      requires State() == Noted(before, nodeID, o, id)
      modifies this
      ensures State() == Merge(before, nodeID, named, o, id)
    {
      NoUsersYet(before, nodeID, o, id);
      assert Only(named, {}) == map[];
      var todo := named.Keys;
      ghost var done: set<Email> := {};
      while todo != {}
        invariant todo !! done && todo + done == named.Keys
        invariant Merged(before, nodeID, Only(named, done), o, id, State())
        decreases todo
      {
        var email :| email in todo;
        OneMoreUser(before, State(), nodeID, named, done, email, o, id);
        SweepOneUser(nodeID, email, named[email], o);
        todo := todo - {email};
        done := done + {email};
      }
      assert Only(named, done) == named;
      MergeMeets(before, nodeID, named, o, id);
      MergedIsOne(before, nodeID, named, o, id, State(), Merge(before, nodeID, named, o, id));
    }

    method SweepOneUser(nodeID: Node, email: Email, ips: IPs, o: Time)
      requires nodeID in nodeUsers
      modifies this
      ensures State() == SweepUser(old(State()), nodeID, email, ips, o)
    {
      var onNode := nodeUsers[nodeID];
      if o >= Stamp(Get(onNode, email)) {
        if ips == map[] {
          nodeUsers := nodeUsers[nodeID := onNode - {email}];
        } else {
          nodeUsers := nodeUsers[nodeID := onNode[email := o]];
        }
      }
      if ips != map[] && o > Stamp(Get(users, email)) {
        users := users[email := o];
      }
      if o < Stamp(Get(userIPsAt, email)) || o < Stamp(Get(users, email)) {
        assert nodeUsers == SweepUser(old(State()), nodeID, email, ips, o).nodeUsers;
        return;
      }
      userIPsAt := userIPsAt[email := o];
      if ips == map[] {
        userIPs := userIPs - {email};
      } else {
        userIPs := userIPs[email := ips];
      }
      assert nodeUsers == SweepUser(old(State()), nodeID, email, ips, o).nodeUsers;
    }

    /** Stamp a list of users, one after the other. */
    static method StampAll(stamps: map<Email, Time>, emails: seq<Email>, now: Time) returns (r: map<Email, Time>)
      ensures r == Stamped(stamps, Members(emails), now)
    {
      r := stamps;
      var i := 0;
      while i < |emails|
        invariant 0 <= i <= |emails|
        invariant forall e :: Get(r, e) == if e in emails[..i] then Some(now) else Get(stamps, e)
      {
        r := r[emails[i] := now];
        assert emails[..i + 1] == emails[..i] + [emails[i]];
        i := i + 1;
      }
      SameMap(r, Stamped(stamps, Members(emails), now));
    }

    method SetOnlineUsers(emails: seq<Email>, now: Time)
      modifies this
      ensures State() == SetOnline(old(State()), Members(emails), now)
    {
      users := StampAll(users, emails, now);
    }

    method SetNodeOnlineUsers(nodeID: Node, emails: seq<Email>, now: Time)
      modifies this
      ensures State() == SetNodeOnline(old(State()), nodeID, Members(emails), now)
    {
      var onNode := if nodeID in nodeUsers then nodeUsers[nodeID] else map[];
      onNode := StampAll(onNode, emails, now);
      nodeUsers := nodeUsers[nodeID := onNode];
    }

    method ClearNodeOnlineUser(nodeID: Node, email: Email)
      modifies this
      ensures State() == ClearNodeUser(old(State()), nodeID, email)
    {
      if nodeID in nodeUsers {
        nodeUsers := nodeUsers[nodeID := nodeUsers[nodeID] - {email}];
      }
    }

    method SetUserOnlineIPs(email: Email, ips: IPs)
      modifies this
      ensures State() == SetUserIPs(old(State()), email, ips)
    {
      if ips == map[] {
        userIPs := userIPs - {email};
        return;
      }
      userIPs := userIPs[email := ips];
    }

    /** Delete the expired stamps of one map while ranging over it. */
    static method DropExpired(stamps: map<Email, Time>, now: Time) returns (left: map<Email, Time>)
      ensures left == LiveOnly(stamps, now)
    {
      left := stamps;
      var todo := stamps.Keys;
      while todo != {}
        invariant todo <= stamps.Keys
        invariant forall e :: e in left <==> e in stamps && (e in todo || !Expired(stamps[e], now))
        invariant forall e :: e in left ==> left[e] == stamps[e]
        decreases todo
      {
        var email :| email in todo;
        if now - stamps[email] > MAX_AGE {
          left := left - {email};
        }
        todo := todo - {email};
      }
    }

    method CleanExpired(now: Time)
      modifies this
      ensures State() == Clean(old(State()), now)
    {
      CleanUsers(now);
      CleanNodes(now);
      userIPsAt := DropExpired(userIPsAt, now);
    }

    method CleanUsers(now: Time)
      modifies this`users, this`userIPs
      ensures users == LiveOnly(old(users), now)
      ensures userIPs == KeptIPs(old(userIPs), old(users), now)
    {
      var todo := users.Keys;
      while todo != {}
        invariant todo <= old(users).Keys
        invariant forall e :: e in users <==> e in old(users) && (e in todo || !Expired(old(users)[e], now))
        invariant forall e :: e in users ==> users[e] == old(users)[e]
        invariant forall e :: e in userIPs <==>
          e in old(userIPs) && (e in todo || !(e in old(users) && Expired(old(users)[e], now)))
        invariant forall e :: e in userIPs ==> userIPs[e] == old(userIPs)[e]
        decreases todo
      {
        var email :| email in todo;
        if now - users[email] > MAX_AGE {
          users := users - {email};
          userIPs := userIPs - {email};
        }
        todo := todo - {email};
      }
    }

    method CleanNodes(now: Time)
      modifies this`nodeUsers
      ensures nodeUsers == LiveNodes(old(nodeUsers), now)
    {
      var todo := nodeUsers.Keys;
      while todo != {}
        invariant todo <= old(nodeUsers).Keys && todo <= nodeUsers.Keys <= old(nodeUsers).Keys
        invariant forall n :: n in todo ==> nodeUsers[n] == old(nodeUsers)[n]
        invariant forall n :: n in old(nodeUsers) && n !in todo ==>
          (n in nodeUsers <==> LiveOnly(old(nodeUsers)[n], now) != map[])
        invariant forall n :: n in nodeUsers && n !in todo ==> nodeUsers[n] == LiveOnly(old(nodeUsers)[n], now)
        decreases todo
      {
        var nodeID :| nodeID in todo;
        var left := DropExpired(nodeUsers[nodeID], now);
        nodeUsers := nodeUsers[nodeID := left];
        if left == map[] {
          nodeUsers := nodeUsers - {nodeID};
        }
        todo := todo - {nodeID};
      }
    }

    // ---------- readers

    method GetOnlineUsers(now: Time) returns (result: seq<Email>)
      ensures forall e :: e in result <==> e in OnlineNow(State(), now)
      ensures forall i, j :: 0 <= i < j < |result| ==> result[i] != result[j]
    {
      result := [];
      var todo := userIPs.Keys;
      while todo != {}
        invariant todo <= userIPs.Keys
        invariant forall e :: e in result <==> e in OnlineNow(State(), now) && e !in todo
        invariant forall i, j :: 0 <= i < j < |result| ==> result[i] != result[j]
        decreases todo
      {
        var email :| email in todo;
        todo := todo - {email};
        if email !in users || now - users[email] > MAX_AGE {
          continue;
        }
        result := result + [email];
      }
    }

    method GetNodeOnlineCount(nodeID: Node, now: Time) returns (count: nat)
      ensures count == |NodeOnline(State(), nodeID, now)|
    {
      if nodeID !in nodeUsers {
        assert NodeOnline(State(), nodeID, now) == {};
        return 0;
      }
      var stamps := nodeUsers[nodeID];
      count := 0;
      var todo := stamps.Keys;
      ghost var counted: set<Email> := {};
      while todo != {}
        invariant todo <= stamps.Keys && count == |counted|
        invariant counted == set e | e in stamps && e !in todo && now - stamps[e] <= MAX_AGE
        decreases todo
      {
        var email :| email in todo;
        todo := todo - {email};
        if now - stamps[email] <= MAX_AGE {
          count := count + 1;
          counted := counted + {email};
        }
      }
      assert counted == NodeOnline(State(), nodeID, now);
    }

    method GetAllOnlineIPs(now: Time) returns (result: map<Email, IPs>)
      ensures result == AllOnlineIPs(State(), now)
    {
      result := map[];
      var todo := userIPs.Keys;
      while todo != {}
        invariant todo <= userIPs.Keys
        invariant result == map e | e in userIPs && e !in todo && OnlineUsers.IsOnline(State(), e, now) :: userIPs[e]
        decreases todo
      {
        var email :| email in todo;
        todo := todo - {email};
        if email !in users || now - users[email] > MAX_AGE {
          continue;
        }
        result := result[email := userIPs[email]];
      }
    }
  }
}
