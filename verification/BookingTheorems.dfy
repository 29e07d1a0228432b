/** Nobody is charged twice for the same bytes: over every history, up to the two cases where it fails. */
module BookingTheorems {
  import opened Ownership
  import opened Booking

  // ---------- bookings under way

  /** The report being booked starts where the entry's accepted counters end. */
  ghost predicate Fits(l: Ledger, n: NodeID, e: EntryID, x: Name) {
    && e in l.reports
    && var r := l.reports[e];
    && AtMost(Acked(l, e, x), At(r.cumulative, x)) && AtMost(At(r.cumulative, x), Seen(l, n, x))
    && At(r.deltas, x) == Minus(At(r.cumulative, x), Acked(l, e, x))
    && (x in r.deltas ==> r.deltas[x] != NONE)
    && (x in Early(r) ==> x in PushedTo(l, e))
  }

  ghost predicate Framed(b: Books, n: NodeID, x: Name) {
    && (TurnOf(b.own, n) == Read ==> At(Of(b.ledger.base, n), x) == Stored(b.ledger, n, x))
    && (TurnOf(b.own, n).Booking? ==> Fits(b.ledger, n, TurnOf(b.own, n).entry, x))
  }

  /** The act is the node's start putting its entry in the map. */
  predicate Installs(act: Act, n: NodeID) {
    act.Manage? && act.step.Install? && act.step.node == n
  }

  /** The act concludes a booking on the node and is accepted. */
  ghost predicate Settles(b: Books, act: Act, n: NodeID)
    requires CanAct(b, act)
  {
    act.Conclude? && b.own.owner[act.entry] == n && Accepts(b.ledger.reports[act.entry], act.ok)
  }

  lemma TurnKept(s: State, step: Step, n: NodeID)
    requires Enabled(s, step)
    ensures var t := Next(s, step);
            || TurnOf(t, n) == TurnOf(s, n)
            || TurnOf(t, n) in {Free, Claimed, Cleared, Installed}
            || (TurnOf(t, n) == Read && step == ReadBaseline(n))
            || (step.Begin? && s.owner[step.entry] == n && TurnOf(t, n) == Booking(step.entry))
  {}

  lemma BooksKept(b: Books, act: Act, n: NodeID, x: Name)
    requires CanAct(b, act) && !Settles(b, act, n)
    ensures var l, k := b.ledger, LedgerAfter(b, act);
            Charged(k, n, x) == Charged(l, n, x) && Stored(k, n, x) == Stored(l, n, x)
            && AtMost(Seen(l, n, x), Seen(k, n, x))
  {
    if act.Conclude? && Accepts(b.ledger.reports[act.entry], act.ok) {
      var e := act.entry;
      SettleEffect(b.ledger, e, b.own.owner[e], b.ledger.reports[e], n, x);
    }
  }

  lemma AckedKept(b: Books, act: Act, e: EntryID, x: Name)
    requires CanAct(b, act) && BookersOwn(b.own) && e in b.own.owner && !Settles(b, act, b.own.owner[e])
    ensures Acked(LedgerAfter(b, act), e, x) == Acked(b.ledger, e, x)
  {
    match act
    case Manage(step) =>
      assert !(step.Install? && step.entry == e);
      ManagedKeepsAcked(b.ledger, step, e);
    case Conclude(f, ok) =>
      if Accepts(b.ledger.reports[f], ok) {
        assert f != e;
        assert LedgerAfter(b, act) == Settle(b.ledger, f, b.own.owner[f], b.ledger.reports[f]);
      }
    case Poll(_, _) =>
    case Push(_, _) =>
    case Count(_, _, _) =>
  }

  lemma ManagedKeepsAcked(l: Ledger, step: Step, e: EntryID)
    requires !(step.Install? && step.entry == e)
    ensures Of(Managed(l, step).acked, e) == Of(l.acked, e)
  {}

  lemma BaseKept(b: Books, act: Act, n: NodeID, x: Name)
    requires CanAct(b, act) && act != Manage(ReadBaseline(n))
    ensures Of(LedgerAfter(b, act).base, n) == Of(b.ledger.base, n)
  {
    match act
    case Manage(step) => assert step.ReadBaseline? ==> step.node != n;
    case _ =>
  }

  lemma ReportKept(b: Books, act: Act, e: EntryID)
    requires CanAct(b, act) && e in b.ledger.reports && !(act.Poll? && act.entry == e)
    ensures var k := LedgerAfter(b, act);
            e in k.reports && k.reports[e] == b.ledger.reports[e] && PushedTo(b.ledger, e) <= PushedTo(k, e)
  {}

  lemma FitsKept(b: Books, act: Act, n: NodeID, e: EntryID, x: Name)
    requires CanAct(b, act) && BookersOwn(b.own) && Framed(b, n, x)
    requires TurnOf(b.own, n) == Booking(e) && TurnOf(OwnAfter(b.own, act), n) == Booking(e)
    ensures Fits(LedgerAfter(b, act), n, e, x)
  {
    assert !(act.Poll? && act.entry == e);
    assert !Settles(b, act, n);
    ReportKept(b, act, e);
    AckedKept(b, act, e, x);
    BooksKept(b, act, n, x);
  }

  lemma FitsAtPoll(b: Books, e: EntryID, cumulative: Counters, x: Name)
    requires CanAct(b, Poll(e, cumulative))
    ensures Fits(LedgerAfter(b, Poll(e, cumulative)), b.own.owner[e], e, x)
  {
    DeltaIs(Of(b.ledger.acked, e), cumulative, x);
    assert AtMost(At(cumulative, x), At(Of(b.ledger.seen, b.own.owner[e]), x));
  }

  lemma FrameKept(b: Books, act: Act, n: NodeID, x: Name)
    requires CanAct(b, act) && BookersOwn(b.own) && Framed(b, n, x)
    ensures Framed(After(b, act), n, x)
  {
    var t := TurnOf(OwnAfter(b.own, act), n);
    if StepOf(act).Some? {
      TurnKept(b.own, StepOf(act).value, n);
    }
    if t == Read {
      BooksKept(b, act, n, x);
      if act != Manage(ReadBaseline(n)) {
        BaseKept(b, act, n, x);
      }
    } else if t.Booking? {
      if TurnOf(b.own, n) == t {
        FitsKept(b, act, n, t.entry, x);
      } else {
        FitsAtPoll(b, act.entry, act.cumulative, x);
      }
    }
  }

  // ---------- charged once

  ghost predicate Covered(b: Books, n: NodeID, x: Name, e: EntryID) {
    AtMost(Stored(b.ledger, n, x), Acked(b.ledger, e, x)) && AtMost(Acked(b.ledger, e, x), Seen(b.ledger, n, x))
  }

  /** Charged is within the stored baseline, which is within what every entry that may still book has had
      accepted, which is within what the node counted. */
  ghost predicate Sound(b: Books, n: NodeID, x: Name) {
    && AtMost(Charged(b.ledger, n, x), Stored(b.ledger, n, x))
    && AtMost(Stored(b.ledger, n, x), Seen(b.ledger, n, x))
    && (forall e :: Live(b.own, e) && b.own.owner[e] == n ==> Covered(b, n, x, e))
  }

  /** The name's bytes are charged by a booking that does not save its counter. */
  ghost predicate Slips(b: Books, act: Act, n: NodeID, x: Name)
    requires CanAct(b, act)
  {
    && Settles(b, act, n)
    && x in b.ledger.reports[act.entry].deltas && x in PushedTo(b.ledger, act.entry)
    && !(x in Early(b.ledger.reports[act.entry]) && Storable(x))
  }

  /** Charging x moves it no further than its baseline moves exactly when the booking does not slip: the
      name can be stored, and was pushed when the booking began. */
  lemma BookingCoversItself(b: Books, act: Act, n: NodeID, x: Name)
    requires CanAct(b, act) && Settles(b, act, n) && BookersOwn(b.own) && Framed(b, n, x)
    requires AtMost(Stored(b.ledger, n, x), Acked(b.ledger, act.entry, x))
    ensures var l, k := b.ledger, LedgerAfter(b, act);
            && AtMost(Charged(l, n, x), Charged(k, n, x))
            && AtMost(Stored(l, n, x), Stored(k, n, x))
            && (!Slips(b, act, n, x) <==>
                AtMost(Minus(Charged(k, n, x), Charged(l, n, x)), Minus(Stored(k, n, x), Stored(l, n, x))))
  {
    var e := act.entry;
    var r := b.ledger.reports[e];
    assert Fits(b.ledger, n, e, x);
    SettleEffect(b.ledger, e, n, r, n, x);
  }

  lemma LiveKept(b: Books, act: Act, n: NodeID, e: EntryID, x: Name)
    requires CanAct(b, act) && BookersOwn(b.own) && !Settles(b, act, n) && !Installs(act, n)
    requires Live(OwnAfter(b.own, act), e) && OwnAfter(b.own, act).owner[e] == n
    ensures Live(b.own, e) && b.own.owner[e] == n && Acked(LedgerAfter(b, act), e, x) == Acked(b.ledger, e, x)
  {
    if StepOf(act).Some? {
      OnlyInstallRevives(b.own, StepOf(act).value, e);
      OwnersKept(b.own, StepOf(act).value, e);
    }
    AckedKept(b, act, e, x);
  }

  /** Only the entry just installed, which starts from the stored baseline. */
  lemma InstallStartsAtBaseline(b: Books, act: Act, n: NodeID, e: EntryID, x: Name)
    requires CanAct(b, act) && CleanAct(b, act) && Booking.Owned(b) && Framed(b, n, x) && Installs(act, n)
    requires Live(OwnAfter(b.own, act), e) && OwnAfter(b.own, act).owner[e] == n
    ensures Acked(LedgerAfter(b, act), e, x) == Stored(b.ledger, n, x)
  {
    NoneLeft(b.own, n, act.step.entry);
    OnlyInstallRevives(b.own, act.step, e);
    assert e == act.step.entry;
  }

  /** Only the entry that booked. */
  lemma SettlerIsAlone(b: Books, act: Act, n: NodeID, e: EntryID)
    requires CanAct(b, act) && Booking.Owned(b) && Settles(b, act, n)
    requires Live(OwnAfter(b.own, act), e) && OwnAfter(b.own, act).owner[e] == n
    ensures e == act.entry
  {
    OnlyInstallRevives(b.own, Finish(act.entry), e);
    assert Live(b.own, act.entry) && Live(b.own, e);
  }

  lemma SettleSound(b: Books, act: Act, n: NodeID, x: Name)
    requires CanAct(b, act) && Booking.Owned(b) && Framed(b, n, x) && Sound(b, n, x)
    requires Settles(b, act, n) && !Slips(b, act, n, x)
    ensures Sound(After(b, act), n, x)
  {
    var e := act.entry;
    assert Live(b.own, e) && Covered(b, n, x, e);
    BookingCoversItself(b, act, n, x);
    SettleEffect(b.ledger, e, n, b.ledger.reports[e], n, x);
    var c := After(b, act);
    forall f | Live(c.own, f) && c.own.owner[f] == n ensures Covered(c, n, x, f) {
      SettlerIsAlone(b, act, n, f);
    }
  }

  lemma ActSound(b: Books, act: Act, n: NodeID, x: Name)
    requires CanAct(b, act) && CleanAct(b, act) && Booking.Owned(b) && Framed(b, n, x) && Sound(b, n, x)
    requires !Slips(b, act, n, x)
    ensures Sound(After(b, act), n, x)
  {
    if Settles(b, act, n) {
      SettleSound(b, act, n, x);
    } else {
      BooksKept(b, act, n, x);
      var c := After(b, act);
      forall e | Live(c.own, e) && c.own.owner[e] == n ensures Covered(c, n, x, e) {
        if Installs(act, n) {
          InstallStartsAtBaseline(b, act, n, e, x);
        } else {
          LiveKept(b, act, n, e, x);
          assert Covered(b, n, x, e);
        }
      }
    }
  }

  lemma {:induction false} HistoryOwned(books: seq<Books>, acts: seq<Act>, i: nat)
    requires IsHistory(books, acts) && i < |books|
    requires forall j :: 0 <= j < i ==> CleanAct(books[j], acts[j])
    ensures Booking.Owned(books[i])
  {
    if i > 0 {
      HistoryOwned(books, acts, i - 1);
      ActOwned(books[i - 1], acts[i - 1]);
    }
  }

  lemma {:induction false} HistoryFramed(books: seq<Books>, acts: seq<Act>, i: nat, n: NodeID, x: Name)
    requires IsHistory(books, acts) && i < |books|
    ensures Steady(books[i].own) && Framed(books[i], n, x)
  {
    if i > 0 {
      HistoryFramed(books, acts, i - 1, n, x);
      ActSteady(books[i - 1], acts[i - 1]);
      FrameKept(books[i - 1], acts[i - 1], n, x);
    }
  }

  /** No double charging. In every history of polls, failed transactions, pushes, replaced entries and
      restarts in which no install lands inside a drop of its node, a name none of whose bookings slips is
      never charged beyond its stored baseline, up or down, and never stored beyond what was counted. */
  lemma {:induction false} ChargedWithinBaseline(books: seq<Books>, acts: seq<Act>, i: nat, n: NodeID, x: Name)
    requires IsHistory(books, acts) && i < |books|
    requires forall j :: 0 <= j < i ==> CleanAct(books[j], acts[j]) && !Slips(books[j], acts[j], n, x)
    ensures Sound(books[i], n, x)
  {
    if i > 0 {
      ChargedWithinBaseline(books, acts, i - 1, n, x);
      HistoryOwned(books, acts, i - 1);
      HistoryFramed(books, acts, i - 1, n, x);
      ActSound(books[i - 1], acts[i - 1], n, x);
    }
  }

  // ---------- with drop and onUsage as single steps

  ghost predicate StepsAreWhole(acts: seq<Act>) {
    forall i :: 0 <= i < |acts| - 1 ==>
      && (acts[i].Poll? ==> acts[i + 1].Conclude? && acts[i + 1].entry == acts[i].entry)
      && (acts[i].Manage? && acts[i].step.DropDelete? ==> acts[i + 1] == Manage(DropCancel(acts[i].step.entry)))
  }

  lemma LimboAct(b: Books, act: Act)
    requires CanAct(b, act)
    ensures var limbo := After(b, act).own.limbo;
            if act.Manage? && act.step.DropDelete? then limbo == b.own.limbo + {act.step.entry}
            else if act.Manage? && act.step.DropCancel? then limbo == b.own.limbo - {act.step.entry}
            else limbo <= b.own.limbo
  {
    if StepOf(act).Some? {
      LimboStep(b.own, StepOf(act).value);
    }
  }

  lemma {:induction false} LimboIsShort(books: seq<Books>, acts: seq<Act>, i: nat)
    requires IsHistory(books, acts) && StepsAreWhole(acts) && i < |books|
    ensures books[i].own.limbo == {} ||
            (i > 0 && acts[i - 1].Manage? && acts[i - 1].step.DropDelete? && books[i].own.limbo == {acts[i - 1].step.entry})
  {
    if i > 0 {
      LimboIsShort(books, acts, i - 1);
      LimboAct(books[i - 1], acts[i - 1]);
    }
  }

  lemma WholeDropsAreClean(books: seq<Books>, acts: seq<Act>, i: nat)
    requires IsHistory(books, acts) && StepsAreWhole(acts) && i < |acts|
    ensures CleanAct(books[i], acts[i])
  {
    LimboIsShort(books, acts, i);
  }

  lemma TurnAct(b: Books, act: Act, n: NodeID)
    requires CanAct(b, act) && TurnOf(After(b, act).own, n).Booking?
    ensures TurnOf(After(b, act).own, n) == TurnOf(b.own, n) || (act.Poll? && TurnOf(After(b, act).own, n) == Booking(act.entry))
    ensures TurnOf(b.own, n).Booking? ==> !(act.Conclude? && act.entry == TurnOf(b.own, n).entry && act.entry in b.own.owner && b.own.owner[act.entry] == n)
  {
    if StepOf(act).Some? {
      TurnKept(b.own, StepOf(act).value, n);
    }
  }

  lemma {:induction false} BookingIsShort(books: seq<Books>, acts: seq<Act>, i: nat, n: NodeID)
    requires IsHistory(books, acts) && StepsAreWhole(acts) && i < |books| && TurnOf(books[i].own, n).Booking?
    ensures i > 0 && acts[i - 1].Poll? && acts[i - 1].entry == TurnOf(books[i].own, n).entry
  {
    if i > 0 {
      var b, act := books[i - 1], acts[i - 1];
      TurnAct(b, act, n);
      if TurnOf(b.own, n) == TurnOf(books[i].own, n) {
        BookingIsShort(books, acts, i - 1, n);
        WholeOwned(books, acts, i - 1);
      }
    }
  }

  lemma WholeOwned(books: seq<Books>, acts: seq<Act>, i: nat)
    requires IsHistory(books, acts) && StepsAreWhole(acts) && i < |books|
    ensures Booking.Owned(books[i])
  {
    forall j | 0 <= j < i ensures CleanAct(books[j], acts[j]) {
      WholeDropsAreClean(books, acts, j);
    }
    HistoryOwned(books, acts, i);
  }

  lemma WholeBookingsNeverSlip(books: seq<Books>, acts: seq<Act>, i: nat, n: NodeID, x: Name)
    requires IsHistory(books, acts) && StepsAreWhole(acts) && i < |acts| && Storable(x)
    ensures !Slips(books[i], acts[i], n, x)
  {
    if Settles(books[i], acts[i], n) {
      BookingIsShort(books, acts, i, n);
      assert books[i] == After(books[i - 1], acts[i - 1]);
    }
  }

  /** Taking drop and onUsage as single steps, a name that can be stored is never charged beyond its
      stored baseline. */
  lemma NoDoubleCharging(books: seq<Books>, acts: seq<Act>, i: nat, n: NodeID, x: Name)
    requires IsHistory(books, acts) && StepsAreWhole(acts) && i < |books| && Storable(x)
    ensures AtMost(Charged(books[i].ledger, n, x), Stored(books[i].ledger, n, x))
    ensures AtMost(Stored(books[i].ledger, n, x), Seen(books[i].ledger, n, x))
  {
    forall j | 0 <= j < i ensures CleanAct(books[j], acts[j]) && !Slips(books[j], acts[j], n, x) {
      WholeDropsAreClean(books, acts, j);
      WholeBookingsNeverSlip(books, acts, j, n, x);
    }
    ChargedWithinBaseline(books, acts, i, n, x);
  }

  // ---------- nothing lost

  /** The books agree on x: what was charged is what is stored, and what the owner has had accepted. */
  ghost predicate Exact(b: Books, n: NodeID, x: Name) {
    && Charged(b.ledger, n, x) == Stored(b.ledger, n, x)
    && (forall e :: Live(b.own, e) && b.own.owner[e] == n ==> Acked(b.ledger, e, x) == Stored(b.ledger, n, x))
  }

  /** If anyone was pushed when the booking began, x was, and it can be stored. */
  ghost predicate Knows(b: Books, act: Act, n: NodeID, x: Name)
    requires CanAct(b, act)
  {
    Settles(b, act, n) && b.ledger.reports[act.entry].early.Some? ==>
      Storable(x) && x in Early(b.ledger.reports[act.entry])
  }

  /** A transaction that fails leaves no trace, and one that goes through for a pushed user is accepted whole. */
  lemma TransactionDecides(b: Books, e: EntryID, ok: bool)
    requires CanAct(b, Conclude(e, ok)) && b.ledger.reports[e].early.Some?
    ensures !ok ==> LedgerAfter(b, Conclude(e, ok)) == b.ledger
    ensures ok ==> Of(LedgerAfter(b, Conclude(e, ok)).acked, e) == b.ledger.reports[e].cumulative
  {}

  /** A booking that found nobody pushed keeps the counters: whatever it returns, nothing is accepted, charged or
      stored, and it returns no error only if no counter had moved. */
  lemma NobodyPushedKeepsCounters(b: Books, e: EntryID, ok: bool, n: NodeID, x: Name)
    requires CanAct(b, Conclude(e, ok)) && b.own.owner[e] == n && Framed(b, n, x) && b.ledger.reports[e].early.None?
    ensures var l, k := b.ledger, LedgerAfter(b, Conclude(e, ok));
            && Acked(k, e, x) == Acked(l, e, x) && Charged(k, n, x) == Charged(l, n, x) && Stored(k, n, x) == Stored(l, n, x)
            && (Accepts(l.reports[e], ok) ==> At(l.reports[e].cumulative, x) == Acked(l, e, x))
  {
    assert Fits(b.ledger, n, e, x);
    if Accepts(b.ledger.reports[e], ok) {
      SettleEffect(b.ledger, e, n, b.ledger.reports[e], n, x);
    }
  }

  lemma SettleExact(b: Books, act: Act, n: NodeID, x: Name)
    requires CanAct(b, act) && Booking.Owned(b) && Framed(b, n, x) && Exact(b, n, x)
    requires Settles(b, act, n) && Knows(b, act, n, x)
    ensures Exact(After(b, act), n, x)
  {
    var e := act.entry;
    assert Live(b.own, e) && Fits(b.ledger, n, e, x);
    if b.ledger.reports[e].early.None? {
      NobodyPushedKeepsCounters(b, e, act.ok, n, x);
    } else {
      SettleEffect(b.ledger, e, n, b.ledger.reports[e], n, x);
    }
    var c := After(b, act);
    forall f | Live(c.own, f) && c.own.owner[f] == n ensures Acked(c.ledger, f, x) == Stored(c.ledger, n, x) {
      SettlerIsAlone(b, act, n, f);
    }
  }

  lemma ActExact(b: Books, act: Act, n: NodeID, x: Name)
    requires CanAct(b, act) && CleanAct(b, act) && Booking.Owned(b) && Framed(b, n, x) && Exact(b, n, x)
    requires Knows(b, act, n, x)
    ensures Exact(After(b, act), n, x)
  {
    if Settles(b, act, n) {
      SettleExact(b, act, n, x);
    } else {
      BooksKept(b, act, n, x);
      var c := After(b, act);
      forall e | Live(c.own, e) && c.own.owner[e] == n ensures Acked(c.ledger, e, x) == Stored(c.ledger, n, x) {
        if Installs(act, n) {
          InstallStartsAtBaseline(b, act, n, e, x);
        } else {
          LiveKept(b, act, n, e, x);
        }
      }
    }
  }

  /** A name that is pushed whenever anyone is pushed to its node's entry is charged for exactly what is stored: over
      failed transactions, replacements and restarts, and whatever was counted before the first push, no byte is
      charged twice and none is dropped. */
  lemma {:induction false} PushedInTimeIsExact(books: seq<Books>, acts: seq<Act>, i: nat, n: NodeID, x: Name)
    requires IsHistory(books, acts) && i < |books|
    requires forall j :: 0 <= j < i ==> CleanAct(books[j], acts[j]) && Knows(books[j], acts[j], n, x)
    ensures Exact(books[i], n, x)
  {
    if i > 0 {
      PushedInTimeIsExact(books, acts, i - 1, n, x);
      HistoryOwned(books, acts, i - 1);
      HistoryFramed(books, acts, i - 1, n, x);
      ActExact(books[i - 1], acts[i - 1], n, x);
    }
  }

  /** An accepted booking of it brings the charge up to the report: all that was counted by then has been charged. */
  lemma BookedUpToReport(books: seq<Books>, acts: seq<Act>, i: nat, n: NodeID, x: Name)
    requires IsHistory(books, acts) && i < |acts|
    requires forall j :: 0 <= j <= i ==> CleanAct(books[j], acts[j]) && Knows(books[j], acts[j], n, x)
    requires Settles(books[i], acts[i], n) && x in Early(books[i].ledger.reports[acts[i].entry])
    ensures Charged(books[i + 1].ledger, n, x) == At(books[i].ledger.reports[acts[i].entry].cumulative, x)
  {
    var b, e := books[i], acts[i].entry;
    PushedInTimeIsExact(books, acts, i, n, x);
    HistoryFramed(books, acts, i, n, x);
    assert Live(b.own, e) && Fits(b.ledger, n, e, x);
    SettleEffect(b.ledger, e, n, b.ledger.reports[e], n, x);
  }

  /** So the first booking that slips shows at once: after any history of bookings that knew the name, it is
      charged beyond its baseline exactly when the act was one that slips. */
  lemma OverchargedExactlyWhenSlips(books: seq<Books>, acts: seq<Act>, i: nat, n: NodeID, x: Name)
    requires IsHistory(books, acts) && i < |acts|
    requires forall j :: 0 <= j < i ==> CleanAct(books[j], acts[j]) && Knows(books[j], acts[j], n, x)
    ensures AtMost(Charged(books[i + 1].ledger, n, x), Stored(books[i + 1].ledger, n, x))
            <==> !Slips(books[i], acts[i], n, x)
  {
    var b, act := books[i], acts[i];
    PushedInTimeIsExact(books, acts, i, n, x);
    HistoryFramed(books, acts, i, n, x);
    if Settles(b, act, n) {
      assert Live(b.own, act.entry);
      BookingCoversItself(b, act, n, x);
    } else {
      BooksKept(b, act, n, x);
    }
  }

  // ---------- before the first push

  /** Nobody has been pushed to the entry, and a booking of it that is under way knows that. */
  ghost predicate Unpushed(b: Books, e: EntryID) {
    && e in b.own.owner && e !in b.ledger.pushed
    && (TurnOf(b.own, b.own.owner[e]) == Booking(e) ==> e in b.ledger.reports && b.ledger.reports[e].early.None?)
  }

  lemma OnlyConcludeAcks(b: Books, act: Act, e: EntryID, x: Name)
    requires CanAct(b, act) && e in b.own.owner && !(act.Conclude? && act.entry == e)
    ensures Acked(LedgerAfter(b, act), e, x) == Acked(b.ledger, e, x)
  {
    match act
    case Manage(step) => ManagedKeepsAcked(b.ledger, step, e);
    case Conclude(f, ok) =>
    case Poll(_, _) =>
    case Push(_, _) =>
    case Count(_, _, _) =>
  }

  lemma UnpushedReport(b: Books, act: Act, e: EntryID)
    requires CanAct(b, act) && BookersOwn(b.own) && Unpushed(b, e) && !(act.Push? && act.entry == e)
    ensures Unpushed(After(b, act), e)
  {
    var n := b.own.owner[e];
    if StepOf(act).Some? {
      OwnersKept(b.own, StepOf(act).value, e);
      TurnKept(b.own, StepOf(act).value, n);
    }
    if e in b.ledger.reports && !(act.Poll? && act.entry == e) {
      ReportKept(b, act, e);
    }
  }

  lemma UnpushedKeeps(b: Books, act: Act, e: EntryID, x: Name)
    requires CanAct(b, act) && Steady(b.own) && Unpushed(b, e) && Framed(b, b.own.owner[e], x)
    requires !(act.Push? && act.entry == e)
    ensures Acked(LedgerAfter(b, act), e, x) == Acked(b.ledger, e, x)
  {
    if act.Conclude? && act.entry == e {
      NobodyPushedKeepsCounters(b, e, act.ok, b.own.owner[e], x);
    } else {
      OnlyConcludeAcks(b, act, e, x);
    }
  }

  lemma {:induction false} PushedToOwn(books: seq<Books>, acts: seq<Act>, i: nat)
    requires IsHistory(books, acts) && i < |books|
    ensures books[i].ledger.pushed.Keys <= books[i].own.owner.Keys
  {
    if i > 0 {
      PushedToOwn(books, acts, i - 1);
      PushedStep(books[i - 1], acts[i - 1]);
    }
  }

  lemma PushedStep(b: Books, act: Act)
    requires CanAct(b, act) && b.ledger.pushed.Keys <= b.own.owner.Keys
    ensures After(b, act).ledger.pushed.Keys <= After(b, act).own.owner.Keys
  {
    forall e | e in After(b, act).ledger.pushed ensures e in After(b, act).own.owner {
      assert e in b.own.owner;
      if StepOf(act).Some? {
        OwnersKept(b.own, StepOf(act).value, e);
      }
    }
  }

  /** Until the first push reaches an entry its accepted counters stay at the baseline it started from, whatever it
      polls and books in between: what is counted meanwhile is still to be booked. */
  lemma {:induction false} CountersWaitForPush(books: seq<Books>, acts: seq<Act>, i: nat, j: nat, n: NodeID, e: EntryID, x: Name)
    requires IsHistory(books, acts) && i < j < |books| && acts[i] == Manage(Install(n, e))
    requires forall m :: i < m < j ==> !(acts[m].Push? && acts[m].entry == e)
    ensures Unpushed(books[j], e) && books[j].own.owner[e] == n
    ensures Acked(books[j].ledger, e, x) == Stored(books[i].ledger, n, x)
  {
    if j == i + 1 {
      PushedToOwn(books, acts, i);
      HistoryFramed(books, acts, i, n, x);
      JustInstalled(books[i], n, e, x);
    } else {
      CountersWaitForPush(books, acts, i, j - 1, n, e, x);
      HistoryFramed(books, acts, j - 1, n, x);
      UnpushedReport(books[j - 1], acts[j - 1], e);
      UnpushedKeeps(books[j - 1], acts[j - 1], e, x);
      if StepOf(acts[j - 1]).Some? {
        OwnersKept(books[j - 1].own, StepOf(acts[j - 1]).value, e);
      }
    }
  }

  lemma JustInstalled(b: Books, n: NodeID, e: EntryID, x: Name)
    requires CanAct(b, Manage(Install(n, e))) && Framed(b, n, x) && b.ledger.pushed.Keys <= b.own.owner.Keys
    ensures var c := After(b, Manage(Install(n, e)));
            Unpushed(c, e) && c.own.owner[e] == n && Acked(c.ledger, e, x) == Stored(b.ledger, n, x)
  {}

  // ---------- only pushed users

  /** The panel gave the name to an entry of the node. */
  ghost predicate Given(b: Books, n: NodeID, x: Name) {
    exists e :: e in b.own.owner && b.own.owner[e] == n && x in PushedTo(b.ledger, e)
  }

  ghost predicate OnBooks(l: Ledger, n: NodeID, x: Name) {
    x in Of(l.charged, n) || x in Of(l.stored, n)
  }

  lemma GivenKept(b: Books, act: Act, n: NodeID, x: Name)
    requires CanAct(b, act) && Given(b, n, x)
    ensures Given(After(b, act), n, x)
  {
    var e :| e in b.own.owner && b.own.owner[e] == n && x in PushedTo(b.ledger, e);
    if StepOf(act).Some? {
      OwnersKept(b.own, StepOf(act).value, e);
    }
    assert x in PushedTo(LedgerAfter(b, act), e);
  }

  lemma SettleGainsPushed(l: Ledger, e: EntryID, n: NodeID, r: Report, m: NodeID, x: Name)
    requires OnBooks(Settle(l, e, n, r), m, x) && !OnBooks(l, m, x)
    ensures m == n && (x in PushedTo(l, e) || x in Early(r))
  {}

  lemma BooksGainPushed(b: Books, act: Act, n: NodeID, x: Name)
    requires CanAct(b, act) && Framed(b, n, x) && OnBooks(LedgerAfter(b, act), n, x) && !OnBooks(b.ledger, n, x)
    ensures act.Conclude? && b.own.owner[act.entry] == n && x in PushedTo(b.ledger, act.entry)
  {
    match act
    case Manage(step) => ManagedKeepsBooks(b.ledger, step, n, x);
    case Conclude(e, ok) =>
      var r := b.ledger.reports[e];
      assert Accepts(r, ok) && LedgerAfter(b, act) == Settle(b.ledger, e, b.own.owner[e], r);
      SettleGainsPushed(b.ledger, e, b.own.owner[e], r, n, x);
    case Poll(_, _) =>
    case Push(_, _) =>
    case Count(_, _, _) =>
  }

  lemma ManagedKeepsBooks(l: Ledger, step: Step, n: NodeID, x: Name)
    ensures OnBooks(Managed(l, step), n, x) == OnBooks(l, n, x)
  {}

  /** Only users given to an entry of the node are ever charged or saved for it. */
  lemma {:induction false} OnlyPushedAreBooked(books: seq<Books>, acts: seq<Act>, i: nat, n: NodeID, x: Name)
    requires IsHistory(books, acts) && i < |books| && OnBooks(books[i].ledger, n, x)
    ensures Given(books[i], n, x)
  {
    if i > 0 {
      var b, act := books[i - 1], acts[i - 1];
      HistoryFramed(books, acts, i - 1, n, x);
      if OnBooks(b.ledger, n, x) {
        OnlyPushedAreBooked(books, acts, i - 1, n, x);
      } else {
        BooksGainPushed(b, act, n, x);
      }
      GivenKept(b, act, n, x);
    }
  }
}
