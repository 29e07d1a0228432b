/** onUsage and the baseline store it saves to, as the loops that the callback runs under the turn. */
module UsageObject {
  import opened Booking
  import opened ManagerObject

  /** The entries of c whose name is in users. */
  ghost predicate IsPart(part: Counters, c: Counters, users: set<Name>) {
    && (forall x :: x in part <==> x in c && x in users)
    && (forall x :: x in part ==> part[x] == c[x])
  }

  /** One pass over a report, keeping the users the panel has pushed. */
  method Pick(c: Counters, users: set<Name>) returns (part: Counters)
    ensures IsPart(part, c, users)
  {
    part := map[];
    var todo := c.Keys;
    while todo != {}
      invariant todo <= c.Keys
      invariant forall x :: x in part <==> x in c && x in users && x !in todo
      invariant forall x :: x in part ==> part[x] == c[x]
    {
      var x :| x in todo;
      if x in users {
        part := part[x := c[x]];
      }
      todo := todo - {x};
    }
  }

  /** Where a transaction breaks, if it does. */
  datatype Fate = Lands | IngestBreaks | SaveBreaks | CommitBreaks

  /** One node's rows in the database, and the copy an open transaction works on. */
  class Store {
    var stored: Counters
    var charged: Counters
    var open: bool
    var txStored: Counters
    var txCharged: Counters

    constructor (stored: Counters, charged: Counters)
      ensures this.stored == stored && this.charged == charged && !open
    {
      this.stored, this.charged, open, txStored, txCharged := stored, charged, false, map[], map[];
    }

    method Begin()
      requires !open
      modifies this`open, this`txStored, this`txCharged
      ensures open && txStored == stored && txCharged == charged
    {
      open, txStored, txCharged := true, stored, charged;
    }

    method Rollback()
      modifies this`open
      ensures !open
    {
      open := false;
    }

    method Commit()
      requires open
      modifies this`open, this`stored, this`charged
      ensures !open && stored == txStored && charged == txCharged
    {
      open, stored, charged := false, txStored, txCharged;
    }

    /** Upsert the names the column can hold: inside the open transaction if there is one. */
    method SaveBaseline(ours: Counters)
      modifies this`stored, this`txStored
      ensures open ==> txStored == Save(old(txStored), ours, ours.Keys) && stored == old(stored)
      ensures !open ==> stored == Save(old(stored), ours, ours.Keys) && txStored == old(txStored)
    {
      var rows: Counters := map[];
      var todo := ours.Keys;
      while todo != {}
        invariant todo <= ours.Keys
        invariant forall x :: x in rows <==> x in ours && x !in todo && Storable(x)
        invariant forall x :: x in rows ==> rows[x] == ours[x]
      {
        var x :| x in todo;
        if Storable(x) {
          rows := rows[x := ours[x]];
        }
        todo := todo - {x};
      }
      if open {
        txStored := txStored + rows;
      } else {
        stored := stored + rows;
      }
    }

    /** Charge a traffic record, inside the open transaction. */
    method Ingest(record: Counters)
      requires open
      modifies this`txCharged
      ensures txCharged == Charge(old(txCharged), record, record.Keys)
    {
      txCharged := map x | x in txCharged.Keys + record.Keys :: Plus(At(txCharged, x), At(record, x));
    }

    /** IngestTraffic with the baseline saved in its transaction: whatever breaks on the way, the charge and the
        baseline are both in the database or neither is. */
    method IngestTraffic(record: Counters, ours: Counters, fate: Fate) returns (ok: bool)
      requires !open
      modifies this
      ensures !open && ok == fate.Lands?
      ensures if ok then stored == Save(old(stored), ours, ours.Keys) && charged == Charge(old(charged), record, record.Keys)
              else stored == old(stored) && charged == old(charged)
    {
      ok := false;
      Begin();
      if fate.IngestBreaks? {
        Rollback();
        return;
      }
      Ingest(record);
      if fate.SaveBreaks? {
        Rollback();
        return;
      }
      SaveBaseline(ours);
      if fate.CommitBreaks? {
        Rollback();
        return;
      }
      Commit();
      ok := true;
    }
  }

  lemma SavePart(stored: Counters, ours: Counters, c: Counters, users: set<Name>)
    requires IsPart(ours, c, users)
    ensures Save(stored, ours, ours.Keys) == Save(stored, c, users)
  {
    assert forall x :: Saves(ours, ours.Keys, x) <==> Saves(c, users, x);
  }

  lemma ChargePart(charged: Counters, record: Counters, c: Counters, users: set<Name>)
    requires IsPart(record, c, users)
    ensures Charge(charged, record, record.Keys) == Charge(charged, c, users)
  {
    assert record.Keys * record.Keys == c.Keys * users;
  }

  lemma NobodyBooked(stored: Counters, charged: Counters, c: Counters)
    ensures Save(stored, c, {}) == stored && Charge(charged, map[], {}) == charged
  {}

  lemma NothingCharged(charged: Counters, users: set<Name>)
    ensures Charge(charged, map[], users) == charged
  {}

  /** onUsage as one step. A cancelled entry and an entry nobody pushed to book nothing; otherwise the charge
      and the baseline land together, wherever the transaction breaks, and for the pushed users alone. */
  method OnUsage(e: Entry, cumulative: Counters, deltas: Counters, store: Store, fate: Fate)
    returns (accepted: bool)
    requires !store.open
    modifies store
    ensures !store.open
    ensures accepted == (!e.cancelled && if e.pushed.None? then deltas == map[] else fate.Lands?)
    ensures accepted == (!e.cancelled && Accepts(Report(cumulative, deltas, e.pushed), fate.Lands?))
    ensures accepted ==>
              var users := Early(Report(cumulative, deltas, e.pushed));
              && store.stored == Save(old(store.stored), cumulative, users)
              && store.charged == Charge(old(store.charged), deltas, users)
    ensures !accepted ==> store.stored == old(store.stored) && store.charged == old(store.charged)
  {
    if e.cancelled {
      return false;
    }
    if e.pushed.None? {
      NobodyBooked(store.stored, store.charged, cumulative);
      return deltas == map[];
    }
    var users := e.pushed.value;
    var ours := Pick(cumulative, users);
    SavePart(store.stored, ours, cumulative, users);
    if deltas != map[] {
      var record := Pick(deltas, users);
      ChargePart(store.charged, record, deltas, users);
      accepted := store.IngestTraffic(record, ours, fate);
    } else {
      NothingCharged(store.charged, users);
      accepted := fate.Lands?;
      if accepted {
        store.SaveBaseline(ours);
      }
    }
  }
}
