/** What the panel wants a node to run: built from a tunnel's payload, checked without the entry's lock,
    and recorded on the settings the entry has by then. */
module Desired {
  import opened Common

  datatype User = User(name: string, secret: string, enabled: bool, maxIPs: int, rateUp: int, rateDown: int,
                       expiresAt: int)

  datatype State = State(
    rev: string,
    port: int,
    listen: string,
    disguise: string,
    maxStreams: int,
    stopped: bool,
    dcNets: seq<string>,
    telemt: Option<map<string, string>>,
    users: seq<User>)

  /** A content hash: of everything but the revision itself. */
  type Hash = State -> string

  function Rev(hash: Hash, s: State): string {
    hash(s.(rev := ""))
  }

  predicate Stamped(hash: Hash, s: State) {
    s.rev == Rev(hash, s)
  }

  function Stamp(hash: Hash, s: State): State {
    s.(rev := Rev(hash, s))
  }

  /** withDisguise: the same state on another cover site, in the copy telemt reads too. */
  function WithDisguise(hash: Hash, s: State, domain: string): State {
    var moved := s.(disguise := domain,
                    telemt := if s.telemt.Some? then Some(s.telemt.value["tls_domain" := domain]) else None);
    Stamp(hash, moved)
  }

  // ---------- the entry

  datatype Lite = Lite(maxStreams: int, stopped: bool, disguise: string, creds: string)

  /** queued is what the node object was last given to push. */
  datatype Entry = Entry(
    lite: Lite,
    desired: Option<State>,
    queued: Option<State>,
    pushed: Option<set<string>>,
    vetted: Option<string>,
    inbound: string,
    coverPending: bool)

  function Names(users: seq<User>): set<string> {
    set i | 0 <= i < |users| :: users[i].name
  }

  function PushedTo(e: Entry): set<string> {
    if e.pushed.Some? then e.pushed.value else {}
  }

  /** The state on the entry's own stream limit and stop. */
  function OnSettings(hash: Hash, s: State, lite: Lite): State {
    if s.maxStreams != lite.maxStreams || s.stopped != lite.stopped
    then Stamp(hash, s.(maxStreams := lite.maxStreams, stopped := lite.stopped))
    else s
  }

  /** wantLocked followed by SetDesired, both under the entry's lock. */
  function Want(hash: Hash, e: Entry, s: State): Entry {
    var t := OnSettings(hash, s, e.lite);
    e.(desired := Some(t), queued := Some(t), pushed := Some(PushedTo(e) + Names(s.users)))
  }

  function Updated(hash: Hash, e: Entry, maxStreams: Option<int>, stopped: Option<bool>): Entry {
    var lite := e.lite.(
      maxStreams := if maxStreams.Some? then maxStreams.value else e.lite.maxStreams,
      stopped := if stopped.Some? then stopped.value else e.lite.stopped);
    if lite == e.lite || e.desired.None? then e.(lite := lite) else Want(hash, e.(lite := lite), e.desired.value)
  }

  /** The state that asks for no users. */
  function Idle(hash: Hash, lite: Lite, dcNets: seq<string>): State {
    Stamp(hash, State("", 443, "", lite.disguise, lite.maxStreams, lite.stopped, dcNets, None, []))
  }

  function Untunnelled(hash: Hash, e: Entry, dcNets: seq<string>): Entry {
    if e.desired.Some? then e
    else
      var s := Idle(hash, e.lite, dcNets);
      e.(desired := Some(s), queued := Some(s))
  }

  // ---------- the payload

  datatype Settings = Absent | Malformed | Parsed(tlsDomain: string, raw: map<string, string>)

  datatype PayloadUser = PayloadUser(email: string, username: string, secret: string, enabled: bool, kLimit: int,
                                     rateUp: int, rateDown: int, expiresAtUnix: int)

  datatype Payload = Payload(coreType: string, enabled: bool, port: nat, listen: string, settings: Settings, users: seq<PayloadUser>,
                             inbound: string)

  /** strings.ToLower after strings.TrimSpace. */
  type Fold = string -> string

  function DomainOf(fold: Fold, p: Payload): string {
    if p.settings.Parsed? then fold(p.settings.tlsDomain) else fold("")
  }

  predicate Buildable(fold: Fold, p: Payload) {
    p.coreType == "mtproto" && !p.settings.Malformed? && DomainOf(fold, p) != ""
  }

  /** The user the payload means: named by email, or by username without one, and 0 for no expiry. */
  predicate IsUserOf(p: PayloadUser, u: User) {
    && (p.email != "" ==> u.name == p.email) && (p.email == "" ==> u.name == p.username)
    && u.secret == p.secret && u.enabled == p.enabled && u.maxIPs == p.kLimit
    && u.rateUp == p.rateUp && u.rateDown == p.rateDown
    && (p.expiresAtUnix > 0 ==> u.expiresAt == p.expiresAtUnix) && (p.expiresAtUnix <= 0 ==> u.expiresAt == 0)
  }

  function ToUser(u: PayloadUser): (r: User)
    ensures IsUserOf(u, r)
  {
    User(if u.email == "" then u.username else u.email, u.secret, u.enabled, u.kLimit, u.rateUp, u.rateDown,
         if u.expiresAtUnix > 0 then u.expiresAtUnix else 0)
  }

  function Users(p: Payload): (r: seq<User>)
    ensures if p.enabled then |r| == |p.users| && forall i :: 0 <= i < |r| ==> IsUserOf(p.users[i], r[i]) else r == []
  {
    if p.enabled then seq(|p.users|, i requires 0 <= i < |p.users| => ToUser(p.users[i])) else []
  }

  /** Byte order on strings. */
  predicate NotAfter(a: string, b: string) {
    a == [] || (b != [] && (a[0] < b[0] || (a[0] == b[0] && NotAfter(a[1..], b[1..]))))
  }

  ghost predicate ByName(users: seq<User>) {
    forall i, j :: 0 <= i < j < |users| ==> NotAfter(users[i].name, users[j].name)
  }

  /** Any state StateFromPayload may return: users of one name may come in either order. */
  ghost predicate IsStateOf(hash: Hash, fold: Fold, p: Payload, dcNets: seq<string>, maxStreams: int, s: State) {
    && Stamped(hash, s)
    && s.port == (if p.port == 0 then 443 else p.port) && s.listen == p.listen
    && s.disguise == DomainOf(fold, p) && s.maxStreams == maxStreams && !s.stopped && s.dcNets == dcNets
    && s.telemt == (if p.settings.Parsed? then Some(p.settings.raw) else None)
    && multiset(s.users) == multiset(Users(p)) && ByName(s.users)
  }

  // ---------- sorting by name

  lemma {:induction false} NotAfterTotal(a: string, b: string)
    ensures NotAfter(a, b) || NotAfter(b, a)
  {
    if a != [] && b != [] {
      NotAfterTotal(a[1..], b[1..]);
    }
  }

  lemma {:induction false} NotAfterTransitive(a: string, b: string, c: string)
    requires NotAfter(a, b) && NotAfter(b, c)
    ensures NotAfter(a, c)
  {
    if a != [] && a[0] == b[0] && b[0] == c[0] {
      NotAfterTransitive(a[1..], b[1..], c[1..]);
    }
  }

  function Place(users: seq<User>, u: User): (k: nat)
    ensures k <= |users|
    ensures forall i :: 0 <= i < k ==> NotAfter(users[i].name, u.name)
    ensures k < |users| ==> !NotAfter(users[k].name, u.name)
  {
    if users == [] || !NotAfter(users[0].name, u.name) then 0 else 1 + Place(users[1..], u)
  }

  function Inserted(users: seq<User>, u: User): seq<User> {
    users[..Place(users, u)] + [u] + users[Place(users, u)..]
  }

  lemma InsertedByName(users: seq<User>, u: User)
    requires ByName(users)
    ensures ByName(Inserted(users, u))
  {
    var k, r := Place(users, u), Inserted(users, u);
    forall i, j | 0 <= i < j < |r| ensures NotAfter(r[i].name, r[j].name) {
      if i == k {
        NotAfterTotal(users[k].name, u.name);
        if k < j - 1 {
          NotAfterTransitive(u.name, users[k].name, users[j - 1].name);
        }
      }
    }
  }

  lemma InsertedHas(users: seq<User>, u: User)
    ensures multiset(Inserted(users, u)) == multiset(users) + multiset{u}
  {
    assert users == users[..Place(users, u)] + users[Place(users, u)..];
  }

  lemma UsersUpTo(users: seq<User>, k: nat)
    requires k < |users|
    ensures multiset(users[..k + 1]) == multiset(users[..k]) + multiset{users[k]}
  {
    assert users[..k + 1] == users[..k] + [users[k]];
  }

  /** The payload's users, none of them if it is disabled, in name order. */
  method UsersByName(p: Payload) returns (users: seq<User>)
    ensures multiset(users) == multiset(Users(p)) && ByName(users)
  {
    users := [];
    if p.enabled {
      var k := 0;
      while k < |p.users|
        invariant k <= |p.users| && ByName(users)
        invariant multiset(users) == multiset(Users(p)[..k])
      {
        var u := ToUser(p.users[k]);
        InsertedByName(users, u);
        InsertedHas(users, u);
        UsersUpTo(Users(p), k);
        users := Inserted(users, u);
        k := k + 1;
      }
      assert Users(p)[..k] == Users(p);
    }
  }

  method StateFromPayload(hash: Hash, fold: Fold, p: Payload, dcNets: seq<string>, maxStreams: int)
    returns (r: Option<State>)
    ensures r.Some? <==> Buildable(fold, p)
    ensures r.Some? ==> IsStateOf(hash, fold, p, dcNets, maxStreams, r.value)
  {
    if p.coreType != "mtproto" || p.settings.Malformed? {
      return None;
    }
    var domain := fold(if p.settings.Parsed? then p.settings.tlsDomain else "");
    if domain == "" {
      return None;
    }
    var port := if p.port == 0 then 443 else p.port;
    var telemt := if p.settings.Parsed? then Some(p.settings.raw) else None;
    var users := UsersByName(p);
    return Some(Stamp(hash, State("", port, p.listen, domain, maxStreams, false, dcNets, telemt, users)));
  }
}
