/** The manager's entries and its usage callback as the objects that hold them. */
module ManagerObject {
  import opened Common
  import opened Ownership
  import B = Booking

  class Entry {
    const id: NodeID
    const tag: EntryID
    var cancelled: bool
    var pushed: Option<set<B.Name>>

    constructor (id: NodeID, tag: EntryID, cancelled: bool)
      ensures this.id == id && this.tag == tag && this.cancelled == cancelled && pushed == None
    {
      this.id, this.tag, this.cancelled, pushed := id, tag, cancelled, None;
    }
  }

  function Tags(entries: map<NodeID, Entry>): map<NodeID, EntryID> {
    map n | n in entries :: entries[n].tag
  }

  class Manager {
    var entries: map<NodeID, Entry>
    var ended: bool
    /** Every entry ever made, by its tag. */
    ghost var made: map<EntryID, Entry>

    ghost predicate Valid()
      reads this
    {
      && (forall t :: t in made ==> made[t].tag == t)
      && (forall n :: n in entries ==> Made(entries[n]) && entries[n].id == n)
    }

    ghost predicate Made(e: Entry)
      reads this
    {
      e.tag in made && made[e.tag] == e
    }

    ghost function Cancelled(): set<EntryID>
      reads this, made.Values
    {
      set t | t in made && made[t].cancelled
    }

    /** The entries as a state with no turn taken, no drop under way and no sync running. */
    ghost function View(): State
      reads this, made.Values
    {
      State(map t | t in made :: made[t].id, Cancelled(), Tags(entries), map[], {}, map[], ended)
    }

    constructor ()
      ensures Valid() && made == map[] && View() == INITIAL
    {
      entries, ended, made := map[], false, map[];
    }

    twostate predicate PushedKept()
      reads this, made.Values
    {
      made == old(made) && forall t :: t in made ==> made[t].pushed == old(made[t].pushed)
    }

    method Cancel(e: Entry)
      requires Valid() && Made(e)
      modifies e`cancelled
      ensures e.cancelled && Valid() && Cancelled() == old(Cancelled()) + {e.tag}
    {
      e.cancelled := true;
    }

    /** The part of halt, and of start before it reads the baseline, that is held under the lock. */
    method Halt(n: NodeID)
      requires Valid()
      modifies this`entries, made.Values
      ensures Valid() && View() == Halted(old(View()), n) && PushedKept()
    {
      if n in entries {
        Cancel(entries[n]);
        entries := entries - {n};
        assert Tags(entries) == old(Tags(entries)) - {n};
      }
    }

    /** Drop in one go, as two locked sections with nothing between them. */
    method Drop(e: Entry)
      requires Valid() && Made(e)
      modifies this`entries, made.Values
      ensures Valid() && PushedKept()
      ensures View() == Next(Next(old(View()), DropDelete(e.tag)), DropCancel(e.tag))
    {
      if e.id in entries && entries[e.id] == e {
        entries := entries - {e.id};
        assert Tags(entries) == old(Tags(entries)) - {e.id};
      }
      Cancel(e);
    }

    /** The map's old entry, if any, is simply overwritten: start has cancelled it before. */
    method Install(n: NodeID, tag: EntryID) returns (e: Entry)
      requires Valid() && tag !in made
      modifies this`entries, this`made
      ensures Valid() && fresh(e) && e.id == n && e.cancelled == ended && e.pushed == None
      ensures entries == old(entries)[n := e] && made == old(made)[tag := e]
    {
      e := new Entry(n, tag, ended);
      entries := entries[n := e];
      made := made[tag := e];
    }

    method Stop()
      requires Valid()
      modifies this`entries, made.Values
      ensures Valid() && PushedKept() && entries == map[]
      ensures forall t :: t in made ==>
                made[t].cancelled == (old(made[t].cancelled) || Registered(old(entries), made[t]))
    {
      var todo := entries.Keys;
      while todo != {}
        invariant todo <= entries.Keys && Valid() && entries == old(entries) && PushedKept()
        invariant forall t :: t in made ==>
                    made[t].cancelled == (old(made[t].cancelled) || (made[t].id !in todo && Registered(entries, made[t])))
      {
        var n :| n in todo;
        entries[n].cancelled := true;
        todo := todo - {n};
      }
      entries := map[];
    }

    method PruneOne(n: NodeID, before: map<NodeID, Entry>, want: set<NodeID>)
      requires Valid() && n in before && Made(before[n]) && before[n].id == n
      modifies this`entries, made.Values
      ensures Valid() && PushedKept()
      ensures entries == if old(Goes(entries, before, want, n)) then old(entries) - {n} else old(entries)
      ensures forall t :: t in made ==>
                made[t].cancelled == (old(made[t].cancelled) ||
                                      (made[t] == before[n] && Goes(old(entries), before, want, n)))
    {
      if n !in want && n in entries && entries[n] == before[n] {
        before[n].cancelled := true;
        entries := entries - {n};
      }
    }

    /** sync's last section: of the entries seen when it began, those whose row is gone and that nobody has
        replaced since. */
    method Prune(before: map<NodeID, Entry>, want: set<NodeID>)
      requires Valid() && forall n :: n in before ==> Made(before[n]) && before[n].id == n
      modifies this`entries, made.Values
      ensures Valid() && PushedKept()
      ensures forall n :: n in entries <==> n in old(entries) && !Goes(old(entries), before, want, n)
      ensures forall n :: n in entries ==> entries[n] == old(entries)[n]
      ensures forall t :: t in made ==>
                made[t].cancelled == (old(made[t].cancelled) ||
                                      (Registered(before, made[t]) && Goes(old(entries), before, want, made[t].id)))
    {
      var todo := before.Keys;
      while todo != {}
        invariant todo <= before.Keys && Valid() && PushedKept()
        invariant forall n :: n in entries <==> n in old(entries) && (n in todo || !Goes(old(entries), before, want, n))
        invariant forall n :: n in entries ==> entries[n] == old(entries)[n]
        invariant forall t :: t in made ==>
                    made[t].cancelled == (old(made[t].cancelled) ||
                                          (made[t].id !in todo && Registered(before, made[t]) &&
                                           Goes(old(entries), before, want, made[t].id)))
      {
        var n :| n in todo;
        assert Goes(entries, before, want, n) == Goes(old(entries), before, want, n);
        PruneOne(n, before, want);
        todo := todo - {n};
      }
    }
  }

  predicate Registered(entries: map<NodeID, Entry>, e: Entry) {
    e.id in entries && entries[e.id] == e
  }

  predicate Goes(entries: map<NodeID, Entry>, before: map<NodeID, Entry>, want: set<NodeID>, n: NodeID) {
    n in before && n !in want && n in entries && entries[n] == before[n]
  }
}
