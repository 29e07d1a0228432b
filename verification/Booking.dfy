/** Booking usage: a report is charged and its counters saved as the node's baseline in one transaction,
    and the next entry starts from that baseline. */
module Booking {
  import opened Common
  import opened Ownership

  type Name = seq<Byte>

  datatype Usage = Usage(up: nat, down: nat)

  const NONE := Usage(0, 0)

  predicate AtMost(a: Usage, b: Usage) {
    a.up <= b.up && a.down <= b.down
  }

  function Plus(a: Usage, b: Usage): Usage {
    Usage(a.up + b.up, a.down + b.down)
  }

  function Minus(a: Usage, b: Usage): Usage
    requires AtMost(b, a)
  {
    Usage(a.up - b.up, a.down - b.down)
  }

  type Counters = map<Name, Usage>

  function At(c: Counters, x: Name): Usage {
    if x in c then c[x] else NONE
  }

  function Of<K>(m: map<K, Counters>, k: K): Counters {
    if k in m then m[k] else map[]
  }

  // ---------- storable names

  const MAX_NAME_LEN: nat := 190

  predicate Continuation(b: Byte) {
    0x80 <= b < 0xc0
  }

  /** How many bytes the first rune of s takes, 0 if they are not one: no surrogates, nothing over
      U+10FFFF, no longer form than needed. */
  function RuneAt(s: Name): (n: nat)
    requires s != []
    ensures n <= 4 && n <= |s|
  {
    var b := s[0];
    if b < 0x80 then 1
    else if 0xc2 <= b < 0xe0 then
      if |s| >= 2 && Continuation(s[1]) then 2 else 0
    else if 0xe0 <= b < 0xf0 then
      if |s| >= 3 && Continuation(s[1]) && Continuation(s[2])
         && (b == 0xe0 ==> s[1] >= 0xa0) && (b == 0xed ==> s[1] < 0xa0) then 3 else 0
    else if 0xf0 <= b < 0xf5 then
      if |s| >= 4 && Continuation(s[1]) && Continuation(s[2]) && Continuation(s[3])
         && (b == 0xf0 ==> s[1] >= 0x90) && (b == 0xf4 ==> s[1] < 0x90) then 4 else 0
    else 0
  }

  predicate ValidUTF8(s: Name) {
    s == [] || (RuneAt(s) > 0 && ValidUTF8(s[RuneAt(s)..]))
  }

  predicate Storable(x: Name) {
    x != [] && |x| <= MAX_NAME_LEN && ValidUTF8(x) && 0 !in x
  }

  // ---------- the books

  /** A booking under way: the report it books, and the users it read as pushed when it began (None: no
      push has reached the entry). */
  datatype Report = Report(cumulative: Counters, deltas: Counters, early: Option<set<Name>>)

  /** stored, charged: per node, in the database. seen: the counters on the node itself. base: what a
      start has read. acked: what an entry's node object has had accepted. pushed: absent is nil. */
  datatype Ledger = Ledger(
    stored: map<NodeID, Counters>,
    charged: map<NodeID, Counters>,
    seen: map<NodeID, Counters>,
    base: map<NodeID, Counters>,
    acked: map<EntryID, Counters>,
    pushed: map<EntryID, set<Name>>,
    reports: map<EntryID, Report>)

  datatype Books = Books(own: State, ledger: Ledger)

  const EMPTY := Books(INITIAL, Ledger(map[], map[], map[], map[], map[], map[], map[]))

  /** Poll and Conclude are the two ends of onUsage: the users the baseline is saved for are read at the
      first, the users who are charged at the second. ok: the transaction went through. */
  datatype Act =
    | Manage(step: Step)
    | Poll(entry: EntryID, cumulative: Counters)
    | Conclude(entry: EntryID, ok: bool)
    | Push(entry: EntryID, names: set<Name>)
    | Count(node: NodeID, name: Name, more: Usage)

  function PushedTo(l: Ledger, e: EntryID): set<Name> {
    if e in l.pushed then l.pushed[e] else {}
  }

  ghost predicate Below(low: Counters, high: Counters) {
    forall x :: AtMost(At(low, x), At(high, x))
  }

  /** What the counters moved since the last accepted report. */
  function Deltas(acked: Counters, cumulative: Counters): Counters
    requires Below(acked, cumulative)
  {
    map x | x in cumulative && cumulative[x] != At(acked, x) ::
      assert AtMost(At(acked, x), At(cumulative, x)); Minus(cumulative[x], At(acked, x))
  }

  function Charge(charged: Counters, deltas: Counters, users: set<Name>): Counters {
    map x | x in charged.Keys + deltas.Keys * users ::
      if x in deltas && x in users then Plus(At(charged, x), deltas[x]) else At(charged, x)
  }

  predicate Saves(cumulative: Counters, users: set<Name>, x: Name) {
    x in cumulative && x in users && Storable(x)
  }

  function Save(stored: Counters, cumulative: Counters, users: set<Name>): Counters {
    map x | x in stored.Keys + cumulative.Keys && (x in stored || Saves(cumulative, users, x)) ::
      if Saves(cumulative, users, x) then cumulative[x] else stored[x]
  }

  function Early(r: Report): set<Name> {
    if r.early.Some? then r.early.value else {}
  }

  /** Whether onUsage returns nil. Without a push there is nobody to book for: a report that moved
      anything is an error, so its counters are kept. */
  predicate Accepts(r: Report, ok: bool) {
    if r.early.None? then r.deltas == map[] else ok
  }

  /** The manager's step in an act; a push or a count leaves the manager alone. */
  function StepOf(act: Act): Option<Step> {
    match act
    case Manage(step) => Some(step)
    case Poll(e, _) => Some(Begin(e))
    case Conclude(e, _) => Some(Finish(e))
    case _ => None
  }

  ghost predicate CanAct(b: Books, act: Act) {
    && (StepOf(act).Some? ==> Enabled(b.own, StepOf(act).value))
    && match act
       case Manage(step) => !step.Begin? && !step.Finish?
       case Poll(e, cumulative) =>
         Below(Of(b.ledger.acked, e), cumulative) && Below(cumulative, Of(b.ledger.seen, b.own.owner[e]))
       case Conclude(e, _) => e in b.ledger.reports
       case Push(e, _) => e in b.own.owner
       case Count(_, _, _) => true
  }

  function OwnAfter(own: State, act: Act): State
    requires StepOf(act).Some? ==> Enabled(own, StepOf(act).value)
  {
    if StepOf(act).Some? then Next(own, StepOf(act).value) else own
  }

  function Settle(l: Ledger, e: EntryID, n: NodeID, r: Report): Ledger {
    l.(charged := l.charged[n := Charge(Of(l.charged, n), r.deltas, PushedTo(l, e))],
       stored := l.stored[n := Save(Of(l.stored, n), r.cumulative, Early(r))],
       acked := l.acked[e := r.cumulative])
  }

  /** A start reads the stored baseline and hands it to the entry it installs. */
  function Managed(l: Ledger, step: Step): Ledger {
    match step
    case ReadBaseline(n) => l.(base := l.base[n := Of(l.stored, n)])
    case Install(n, e) => l.(acked := l.acked[e := Of(l.base, n)])
    case _ => l
  }

  function LedgerAfter(b: Books, act: Act): Ledger
    requires CanAct(b, act)
  {
    var l := b.ledger;
    match act
    case Manage(step) => Managed(l, step)
    case Poll(e, cumulative) =>
      var early := if e in l.pushed then Some(l.pushed[e]) else None;
      l.(reports := l.reports[e := Report(cumulative, Deltas(Of(l.acked, e), cumulative), early)])
    case Conclude(e, ok) =>
      if Accepts(l.reports[e], ok) then Settle(l, e, b.own.owner[e], l.reports[e]) else l
    case Push(e, names) => l.(pushed := l.pushed[e := PushedTo(l, e) + names])
    case Count(n, x, more) =>
      l.(seen := l.seen[n := Of(l.seen, n)[x := Plus(At(Of(l.seen, n), x), more)]])
  }

  function After(b: Books, act: Act): Books
    requires CanAct(b, act)
  {
    Books(OwnAfter(b.own, act), LedgerAfter(b, act))
  }

  ghost predicate IsHistory(books: seq<Books>, acts: seq<Act>) {
    && |books| == |acts| + 1
    && books[0] == EMPTY
    && forall i :: 0 <= i < |acts| ==> CanAct(books[i], acts[i]) && books[i + 1] == After(books[i], acts[i])
  }

  // ---------- a history is a run of the manager

  ghost predicate CleanAct(b: Books, act: Act) {
    act.Manage? ==> InstallsClean(b.own, act.step)
  }

  ghost predicate Owned(b: Books) {
    Steady(b.own) && SoleLive(b.own)
  }

  lemma ActSteady(b: Books, act: Act)
    requires CanAct(b, act) && Steady(b.own)
    ensures Steady(After(b, act).own)
  {
    if StepOf(act).Some? {
      var step := StepOf(act).value;
      StepTracked(b.own, step);
      StepVacant(b.own, step);
      StepBookers(b.own, step);
    }
  }

  lemma ActOwned(b: Books, act: Act)
    requires CanAct(b, act) && CleanAct(b, act) && Owned(b)
    ensures Owned(After(b, act))
  {
    ActSteady(b, act);
    if StepOf(act).Some? {
      StepSoleLive(b.own, StepOf(act).value);
    }
  }

  // ---------- one node, one name

  function Charged(l: Ledger, n: NodeID, x: Name): Usage {
    At(Of(l.charged, n), x)
  }

  function Stored(l: Ledger, n: NodeID, x: Name): Usage {
    At(Of(l.stored, n), x)
  }

  function Seen(l: Ledger, n: NodeID, x: Name): Usage {
    At(Of(l.seen, n), x)
  }

  function Acked(l: Ledger, e: EntryID, x: Name): Usage {
    At(Of(l.acked, e), x)
  }

  lemma ChargeAt(charged: Counters, deltas: Counters, users: set<Name>, x: Name)
    ensures At(Charge(charged, deltas, users), x) ==
            if x in deltas && x in users then Plus(At(charged, x), deltas[x]) else At(charged, x)
  {
    assert x in Charge(charged, deltas, users) <==> x in charged || (x in deltas && x in users);
  }

  lemma SaveAt(stored: Counters, cumulative: Counters, users: set<Name>, x: Name)
    ensures At(Save(stored, cumulative, users), x) ==
            if Saves(cumulative, users, x) then cumulative[x] else At(stored, x)
  {
    assert x in Save(stored, cumulative, users) <==> x in stored || Saves(cumulative, users, x);
  }

  /** A booking on node n that is accepted moves the name's counters like this, and nothing else does. */
  lemma SettleEffect(l: Ledger, e: EntryID, n: NodeID, r: Report, m: NodeID, x: Name)
    ensures var c := Settle(l, e, n, r);
            && Charged(c, m, x) == (if m == n && x in r.deltas && x in PushedTo(l, e)
                                    then Plus(Charged(l, n, x), r.deltas[x]) else Charged(l, m, x))
            && Stored(c, m, x) == (if m == n && Saves(r.cumulative, Early(r), x)
                                   then r.cumulative[x] else Stored(l, m, x))
  {
    ChargeAt(Of(l.charged, n), r.deltas, PushedTo(l, e), x);
    SaveAt(Of(l.stored, n), r.cumulative, Early(r), x);
  }

  lemma DeltaIs(acked: Counters, cumulative: Counters, x: Name)
    requires Below(acked, cumulative)
    ensures AtMost(At(acked, x), At(cumulative, x))
    ensures At(Deltas(acked, cumulative), x) == Minus(At(cumulative, x), At(acked, x))
  {}
}
