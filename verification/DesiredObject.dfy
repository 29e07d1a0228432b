/** The entry as an object: the sections of the manager that change what the node should run, each under the
    entry's lock. */
module DesiredObject {
  import opened Common
  import opened Desired

  class LiveEntry {
    var lite: Lite
    var desired: Option<State>
    var queued: Option<State>
    var pushed: Option<set<string>>
    var vetted: Option<string>
    var inbound: string
    var coverPending: bool

    ghost function View(): Entry
      reads this
    {
      Entry(lite, desired, queued, pushed, vetted, inbound, coverPending)
    }

    constructor (lite: Lite)
      ensures View() == Entry(lite, None, None, None, None, "", false)
    {
      this.lite, desired, queued, pushed, vetted, inbound, coverPending := lite, None, None, None, None, "", false;
    }

    /** wantLocked, and the node object given the result. */
    method WantLocked(hash: Hash, s: State)
      modifies this
      ensures View() == Want(hash, old(View()), s)
    {
      var t := s;
      if t.maxStreams != lite.maxStreams || t.stopped != lite.stopped {
        t := t.(maxStreams := lite.maxStreams, stopped := lite.stopped);
        t := t.(rev := Rev(hash, t));
      }
      assert t == OnSettings(hash, s, lite);
      desired := Some(t);
      var names := if pushed.None? then {} else pushed.value;
      ghost var before := names;
      for i := 0 to |t.users|
        invariant names == before + Names(t.users[..i])
        invariant View() == old(View()).(desired := Some(t))
      {
        OneMoreName(t.users, i);
        names := names + {t.users[i].name};
      }
      assert t.users[..|t.users|] == t.users && t.users == s.users;
      assert names == PushedTo(old(View())) + Names(s.users);
      pushed := Some(names);
      queued := Some(t);
    }

    method UpdateSettings(hash: Hash, maxStreams: Option<int>, stopped: Option<bool>)
      modifies this
      ensures View() == Updated(hash, old(View()), maxStreams, stopped)
    {
      var changed := false;
      if maxStreams.Some? && maxStreams.value != lite.maxStreams {
        lite := lite.(maxStreams := maxStreams.value);
        changed := true;
      }
      if stopped.Some? && stopped.value != lite.stopped {
        lite := lite.(stopped := stopped.value);
        changed := true;
      }
      if changed && desired.Some? {
        WantLocked(hash, desired.value);
      }
    }

    method NoTunnel(hash: Hash, dcNets: seq<string>)
      modifies this
      ensures View() == Untunnelled(hash, old(View()), dcNets)
    {
      if desired.None? {
        var s := State("", 443, "", lite.disguise, lite.maxStreams, lite.stopped, dcNets, None, []);
        s := s.(rev := Rev(hash, s));
        desired := Some(s);
        queued := Some(s);
      }
    }

    /** ApplyCoreState's last section. */
    method Land(hash: Hash, s: State, inbound: string, refused: bool)
      modifies this
      ensures View() == Want(hash, old(View()).(inbound := inbound, coverPending := refused), s)
    {
      this.inbound := inbound;
      coverPending := refused;
      WantLocked(hash, s);
    }
  }

  lemma OneMoreName(users: seq<User>, i: nat)
    requires i < |users|
    ensures Names(users[..i + 1]) == Names(users[..i]) + {users[i].name}
  {
    forall x | x in Names(users[..i + 1]) ensures x in Names(users[..i]) + {users[i].name} {
      var j :| 0 <= j < i + 1 && users[..i + 1][j].name == x;
      assert j < i ==> users[..i][j].name == x;
    }
    forall x | x in Names(users[..i]) ensures x in Names(users[..i + 1]) {
      var j :| 0 <= j < i && users[..i][j].name == x;
      assert users[..i + 1][j].name == x;
    }
    assert users[..i + 1][i] == users[i];
  }
}
