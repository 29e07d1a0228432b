/** Histories in which bytes are charged twice: one for every name that cannot be stored, one for every
    name pushed in the middle of a booking, one for a drop cut in two. */
module BookingFailures {
  import opened Common
  import opened Ownership
  import opened Booking

  ghost predicate Reachable(b: Books) {
    exists books, acts :: IsHistory(books, acts) && books[|acts|] == b
  }

  lemma Reach(b: Books, act: Act)
    requires Reachable(b) && CanAct(b, act)
    ensures Reachable(After(b, act))
  {
    var books, acts :| IsHistory(books, acts) && books[|acts|] == b;
    assert IsHistory(books + [After(b, act)], acts + [act]);
    assert (books + [After(b, act)])[|acts + [act]|] == After(b, act);
  }

  /** The node's old entry cancelled, entry e in its place. */
  function OwnStarted(s: State, e: EntryID): State {
    var h := Halted(s, 0);
    h.(owner := h.owner[e := 0], current := h.current[0 := e], turns := h.turns[0 := Free])
  }

  function LedgerStarted(l: Ledger, e: EntryID): Ledger {
    l.(base := l.base[0 := Of(l.stored, 0)], acked := l.acked[e := Of(l.stored, 0)])
  }

  lemma ClearNode(s: State)
    requires TurnOf(s, 0) == Free
    ensures Enabled(s, Claim(0)) && Enabled(Next(s, Claim(0)), Clear(0))
    ensures Next(Next(s, Claim(0)), Clear(0)) == Halted(s, 0).(turns := s.turns[0 := Cleared])
  {}

  lemma ReadNode(s: State)
    requires TurnOf(s, 0) == Free
    ensures var t := Halted(s, 0).(turns := s.turns[0 := Cleared]);
            Enabled(t, ReadBaseline(0)) && Next(t, ReadBaseline(0)) == t.(turns := s.turns[0 := Read])
  {}

  lemma InstallNode(s: State, e: EntryID)
    requires e !in s.owner && !s.ended
    ensures var t := Halted(s, 0).(turns := s.turns[0 := Read]);
            Enabled(t, Install(0, e)) && Next(t, Install(0, e)) == OwnStarted(s, e).(turns := s.turns[0 := Installed])
  {}

  lemma ReleaseNode(s: State, e: EntryID)
    ensures var t := OwnStarted(s, e).(turns := s.turns[0 := Installed]);
            Enabled(t, Release(0)) && Next(t, Release(0)) == OwnStarted(s, e)
  {}

  lemma StartEntry(b: Books, e: EntryID)
    requires Reachable(b) && TurnOf(b.own, 0) == Free && e !in b.own.owner && !b.own.ended
    ensures Reachable(Books(OwnStarted(b.own, e), LedgerStarted(b.ledger, e)))
  {
    ClearNode(b.own);
    ReadNode(b.own);
    InstallNode(b.own, e);
    ReleaseNode(b.own, e);
    Reach(b, Manage(Claim(0)));
    var b1 := After(b, Manage(Claim(0)));
    Reach(b1, Manage(Clear(0)));
    var b2 := After(b1, Manage(Clear(0)));
    Reach(b2, Manage(ReadBaseline(0)));
    var b3 := After(b2, Manage(ReadBaseline(0)));
    Reach(b3, Manage(Install(0, e)));
    Reach(After(b3, Manage(Install(0, e))), Manage(Release(0)));
  }

  /** Entry e may poll, and finds one byte up for x that it has not had accepted. */
  ghost predicate OneToBook(b: Books, e: EntryID, x: Name) {
    && TurnOf(b.own, 0) == Free && Alive(b.own, e) && b.own.owner[e] == 0
    && Of(b.ledger.acked, e) == map[] && Of(b.ledger.seen, 0) == map[x := Usage(1, 0)]
    && e in b.ledger.pushed
  }

  function OneByte(x: Name, early: set<Name>): Report {
    Report(map[x := Usage(1, 0)], map[x := Usage(1, 0)], Some(early))
  }

  function Polled(l: Ledger, e: EntryID, x: Name): Ledger
    requires e in l.pushed
  {
    l.(reports := l.reports[e := OneByte(x, l.pushed[e])])
  }

  lemma PollOne(b: Books, e: EntryID, x: Name)
    requires OneToBook(b, e, x)
    ensures CanAct(b, Poll(e, map[x := Usage(1, 0)]))
    ensures LedgerAfter(b, Poll(e, map[x := Usage(1, 0)])) == Polled(b.ledger, e, x)
  {
    var cumulative := map[x := Usage(1, 0)];
    assert Below(map[], cumulative);
    assert Deltas(map[], cumulative) == cumulative;
  }

  lemma TurnOne(s: State, e: EntryID)
    requires TurnOf(s, 0) == Free && Alive(s, e) && s.owner[e] == 0
    ensures Enabled(s, Begin(e)) && Enabled(Next(s, Begin(e)), Finish(e))
    ensures Next(Next(s, Begin(e)), Finish(e)) == s.(turns := s.turns[0 := Free])
    ensures Next(s, Begin(e)).owner == s.owner
  {}

  function Pushed(l: Ledger, e: EntryID, x: Name): Ledger {
    l.(pushed := l.pushed[e := PushedTo(l, e) + {x}])
  }

  /** One booking, with x pushed in its middle. */
  lemma BookOne(b: Books, e: EntryID, x: Name) returns (c: Books)
    requires Reachable(b) && OneToBook(b, e, x)
    ensures Reachable(c) && c.own == b.own.(turns := b.own.turns[0 := Free])
    ensures c.ledger == Settle(Pushed(Polled(b.ledger, e, x), e, x), e, 0, OneByte(x, b.ledger.pushed[e]))
  {
    PollOne(b, e, x);
    TurnOne(b.own, e);
    var poll, push := Poll(e, map[x := Usage(1, 0)]), Push(e, {x});
    var r := OneByte(x, b.ledger.pushed[e]);
    Reach(b, poll);
    var b1 := After(b, poll);
    assert b1 == Books(Next(b.own, Begin(e)), Polled(b.ledger, e, x));
    Reach(b1, push);
    var b2 := After(b1, push);
    assert b2 == Books(b1.own, Pushed(Polled(b.ledger, e, x), e, x));
    assert b2.ledger.reports[e] == r && Accepts(r, true);
    Reach(b2, Conclude(e, true));
    c := After(b2, Conclude(e, true));
  }

  lemma BookOneEffect(l: Ledger, e: EntryID, x: Name, k: Ledger)
    requires e in l.pushed
    requires k == Settle(Pushed(Polled(l, e, x), e, x), e, 0, OneByte(x, l.pushed[e]))
    ensures Charged(k, 0, x) == Plus(Charged(l, 0, x), Usage(1, 0))
    ensures k.seen == l.seen && k.pushed == l.pushed[e := l.pushed[e] + {x}]
    ensures k.acked == l.acked[e := map[x := Usage(1, 0)]]
    ensures Of(k.stored, 0) == Save(Of(l.stored, 0), map[x := Usage(1, 0)], l.pushed[e])
  {
    ChargeAt(Of(l.charged, 0), map[x := Usage(1, 0)], l.pushed[e] + {x}, x);
  }

  predicate Kept(x: Name, users: set<Name>) {
    Storable(x) && x in users
  }

  lemma SavesNothing(x: Name, users: set<Name>)
    requires !Kept(x, users)
    ensures Save(map[], map[x := Usage(1, 0)], users) == map[]
  {}

  lemma BookByte(b: Books, e: EntryID, x: Name) returns (c: Books)
    requires Reachable(b) && OneToBook(b, e, x)
    ensures Reachable(c) && c.own == b.own.(turns := b.own.turns[0 := Free])
    ensures Charged(c.ledger, 0, x) == Plus(Charged(b.ledger, 0, x), Usage(1, 0))
    ensures c.ledger.seen == b.ledger.seen && c.ledger.pushed == b.ledger.pushed[e := b.ledger.pushed[e] + {x}]
    ensures c.ledger.acked == b.ledger.acked[e := map[x := Usage(1, 0)]]
    ensures Of(b.ledger.stored, 0) == map[] && !Kept(x, b.ledger.pushed[e]) ==> Of(c.ledger.stored, 0) == map[]
  {
    c := BookOne(b, e, x);
    BookOneEffect(b.ledger, e, x, c.ledger);
    if !Kept(x, b.ledger.pushed[e]) {
      SavesNothing(x, b.ledger.pushed[e]);
    }
  }

  /** Start entry e on node 0, whose stored baseline is empty, and push users to it. */
  lemma StartWith(b: Books, e: EntryID, users: set<Name>) returns (c: Books)
    requires Reachable(b) && TurnOf(b.own, 0) == Free && !b.own.ended && 0 !in b.own.current
    requires e !in b.own.owner && e !in b.own.cancelled && e !in b.ledger.pushed && Of(b.ledger.stored, 0) == map[]
    ensures Reachable(c) && c.own == OwnStarted(b.own, e)
    ensures TurnOf(c.own, 0) == Free && Alive(c.own, e)
    ensures c.ledger == LedgerStarted(b.ledger, e).(pushed := b.ledger.pushed[e := users])
    ensures Of(c.ledger.acked, e) == map[]
  {
    StartEntry(b, e);
    var b1 := Books(OwnStarted(b.own, e), LedgerStarted(b.ledger, e));
    Reach(b1, Push(e, users));
    assert PushedTo(b1.ledger, e) + users == users;
    c := After(b1, Push(e, users));
  }

  lemma CountOne(b: Books, x: Name) returns (c: Books)
    requires Reachable(b) && Of(b.ledger.seen, 0) == map[]
    ensures Reachable(c) && c.own == b.own && c.ledger == b.ledger.(seen := b.ledger.seen[0 := map[x := Usage(1, 0)]])
  {
    Reach(b, Count(0, x, Usage(1, 0)));
    c := After(b, Count(0, x, Usage(1, 0)));
    assert Plus(NONE, Usage(1, 0)) == Usage(1, 0);
  }

  lemma RestartPanel(b: Books) returns (c: Books)
    requires Reachable(b)
    ensures Reachable(c) && c == Books(Next(b.own, Restart), b.ledger)
  {
    Reach(b, Manage(Restart));
    c := After(b, Manage(Restart));
  }

  /** Before anything has happened. */
  ghost predicate Untouched(b: Books) {
    && Reachable(b) && b.own == INITIAL && b.ledger.pushed == map[]
    && Of(b.ledger.stored, 0) == map[] && Of(b.ledger.charged, 0) == map[] && Of(b.ledger.seen, 0) == map[]
  }

  lemma BeginsUntouched() returns (b: Books)
    ensures Untouched(b)
  {
    var books, acts: seq<Act> := [EMPTY], [];
    assert IsHistory(books, acts) && books[|acts|] == EMPTY;
    b := EMPTY;
  }

  /** Entry 0 has booked a byte of x without saving its counter. */
  lemma BookedUnsaved(x: Name, users: set<Name>) returns (c: Books)
    requires !Kept(x, users)
    ensures Reachable(c) && TurnOf(c.own, 0) == Free && 1 !in c.own.owner
    ensures Charged(c.ledger, 0, x) == Usage(1, 0) && Of(c.ledger.stored, 0) == map[]
    ensures Of(c.ledger.seen, 0) == map[x := Usage(1, 0)] && 1 !in c.ledger.pushed
  {
    var b := BeginsUntouched();
    var b1 := StartWith(b, 0, users);
    var b2 := CountOne(b1, x);
    c := BookByte(b2, 0, x);
  }

  /** A booking that charges a name without saving its counter lets the same byte be charged again: by the
      entry the panel starts after a restart. */
  lemma ChargedTwice(x: Name, users: set<Name>) returns (c: Books)
    requires !Kept(x, users)
    ensures Reachable(c) && Charged(c.ledger, 0, x) == Usage(2, 0) && Seen(c.ledger, 0, x) == Usage(1, 0)
  {
    var b1 := BookedUnsaved(x, users);
    var b2 := RestartPanel(b1);
    var b3 := StartWith(b2, 1, users);
    c := BookByte(b3, 1, x);
  }

  /** Every name that cannot be stored, pushed in time or not. */
  lemma UnstorableIsChargedTwice(x: Name) returns (c: Books)
    requires !Storable(x)
    ensures Reachable(c) && !AtMost(Charged(c.ledger, 0, x), Seen(c.ledger, 0, x))
  {
    c := ChargedTwice(x, {x});
  }

  /** Every name, storable or not, that is pushed between onUsage's two looks at the pushed users. */
  lemma LatePushIsChargedTwice(x: Name) returns (c: Books)
    ensures Reachable(c) && !AtMost(Charged(c.ledger, 0, x), Seen(c.ledger, 0, x))
  {
    c := ChargedTwice(x, {});
  }

  lemma DropHalf(b: Books, e: EntryID) returns (c: Books)
    requires Reachable(b) && e in b.own.owner && e !in b.own.limbo && IsCurrent(b.own, e)
    ensures Reachable(c) && c.ledger == b.ledger
    ensures c.own == b.own.(limbo := b.own.limbo + {e}, current := b.own.current - {b.own.owner[e]})
  {
    Reach(b, Manage(DropDelete(e)));
    c := After(b, Manage(DropDelete(e)));
  }

  /** A start between drop's delete and its cancel leaves two entries booking the same counters. */
  lemma SplitDropChargesTwice(x: Name) returns (c: Books)
    ensures Reachable(c) && !AtMost(Charged(c.ledger, 0, x), Seen(c.ledger, 0, x))
  {
    var b := BeginsUntouched();
    var b1 := StartWith(b, 0, {x});
    var b2 := DropHalf(b1, 0);
    var b3 := StartWith(b2, 1, {x});
    var b4 := CountOne(b3, x);
    var b5 := BookByte(b4, 0, x);
    c := BookByte(b5, 1, x);
  }
}
