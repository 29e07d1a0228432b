/** Sweeps from different nodes may arrive in any order. */
module OnlineUsersOrder {
  import opened Common
  import opened OnlineUsers

  /** Observed by then, and still fresh at the end of the span. */
  predicate InSpan(w: Sweep, start: Time, end: Time) {
    MAX_AGE < start && w.observedAt <= start <= end && end - w.observedAt <= MAX_AGE
  }

  /** Inside the span the arrival time makes no difference. */
  lemma ArrivalTimeIrrelevant(c: Cache, w: Sweep, start: Time, end: Time, now: Time)
    requires InSpan(w, start, end) && start <= now <= end
    ensures Accepted(c, w, now) == Accepted(c, w, start)
    ensures Apply(c, w, now) == Apply(c, w, start)
  {
  }

  /** Whether one line of each sweep may be applied in either order. */
  predicate Interchange(cell: Cell, ips1: IPs, o1: Time, ips2: IPs, o2: Time) {
    o1 != o2 || ips1 == ips2 || o1 < Stamp(cell.ipsAt) || o1 < Stamp(cell.seen)
  }

  lemma SeenInCommutes(cell: Cell, ips1: IPs, o1: Time, ips2: IPs, o2: Time)
    requires o1 > 0 && o2 > 0
    ensures SeenIn(SeenIn(cell, ips1, o1), ips2, o2) == SeenIn(SeenIn(cell, ips2, o2), ips1, o1)
       <==> Interchange(cell, ips1, o1, ips2, o2)
  {
  }

  /** d is c after the accepted sweep w. */
  ghost predicate SweptTo(c: Cache, w: Sweep, d: Cache)
    requires w.users.Some?
  {
    Merged(c, w.node, w.users.value, w.observedAt, w.sourceID, d)
  }

  lemma ApplyMerges(c: Cache, w: Sweep, now: Time)
    requires InSpan(w, now, now) && Accepted(c, w, now)
    ensures SweptTo(c, w, Apply(c, w, now))
  {
    MergeMeets(c, w.node, w.users.value, w.observedAt, w.sourceID);
  }

  /** A user both sweeps name, if it cares about their order. */
  predicate OrderMatters(c: Cache, w1: Sweep, w2: Sweep, e: Email)
    requires w1.users.Some? && w2.users.Some?
  {
    && e in w1.users.value && e in w2.users.value
    && !Interchange(CellOf(c, e), w1.users.value[e], w1.observedAt, w2.users.value[e], w2.observedAt)
  }

  lemma CellTwice(c: Cache, w1: Sweep, w2: Sweep, c1: Cache, c2: Cache, x: Cache, y: Cache, e: Email)
    requires w1.users.Some? && w2.users.Some? && w1.observedAt > 0 && w2.observedAt > 0
    requires CellOf(c1, e) == CellAfter(c, w1.users.value, w1.observedAt, e)
    requires CellOf(c2, e) == CellAfter(c, w2.users.value, w2.observedAt, e)
    requires CellOf(x, e) == CellAfter(c1, w2.users.value, w2.observedAt, e)
    requires CellOf(y, e) == CellAfter(c2, w1.users.value, w1.observedAt, e)
    ensures CellOf(x, e) == CellOf(y, e) <==> !OrderMatters(c, w1, w2, e)
  {
    if e in w1.users.value && e in w2.users.value {
      SeenInCommutes(CellOf(c, e), w1.users.value[e], w1.observedAt, w2.users.value[e], w2.observedAt);
    }
  }

  lemma NodesTwice(c: Cache, w1: Sweep, w2: Sweep, c1: Cache, c2: Cache, x: Cache, y: Cache)
    requires w1.users.Some? && w2.users.Some? && w1.node != w2.node
    requires SweptTo(c, w1, c1) && SweptTo(c1, w2, x) && SweptTo(c, w2, c2) && SweptTo(c2, w1, y)
    ensures SameNodes(x, y)
  {
    forall n, e ensures Get(OnNode(x, n), e) == Get(OnNode(y, n), e) {
      var u1, u2, o1, o2 := w1.users.value, w2.users.value, w1.observedAt, w2.observedAt;
      assert Get(OnNode(x, n), e) == NodeAfter(c1, w2.node, u2, o2, n, e);
      assert Get(OnNode(y, n), e) == NodeAfter(c2, w1.node, u1, o1, n, e);
      assert Get(OnNode(c1, n), e) == NodeAfter(c, w1.node, u1, o1, n, e);
      assert Get(OnNode(c2, n), e) == NodeAfter(c, w2.node, u2, o2, n, e);
    }
  }

  lemma CellsTwice(c: Cache, w1: Sweep, w2: Sweep, c1: Cache, c2: Cache, x: Cache, y: Cache)
    requires w1.users.Some? && w2.users.Some? && w1.observedAt > 0 && w2.observedAt > 0
    requires SweptTo(c, w1, c1) && SweptTo(c1, w2, x) && SweptTo(c, w2, c2) && SweptTo(c2, w1, y)
    ensures SameCells(x, y) <==> forall e :: !OrderMatters(c, w1, w2, e)
  {
    forall e ensures CellOf(x, e) == CellOf(y, e) <==> !OrderMatters(c, w1, w2, e) {
      CellTwice(c, w1, w2, c1, c2, x, y, e);
    }
  }

  lemma MarksTwice(c: Cache, w1: Sweep, w2: Sweep, c1: Cache, c2: Cache, x: Cache, y: Cache)
    requires w1.node != w2.node
    requires MarksMerged(c, w1.node, w1.observedAt, w1.sourceID, c1) && MarksMerged(c1, w2.node, w2.observedAt, w2.sourceID, x)
    requires MarksMerged(c, w2.node, w2.observedAt, w2.sourceID, c2) && MarksMerged(c2, w1.node, w1.observedAt, w1.sourceID, y)
    ensures x.snapshotsAt == y.snapshotsAt && x.snapshotIDs == y.snapshotIDs
  {
  }

  lemma MergesCommute(c: Cache, w1: Sweep, w2: Sweep, c1: Cache, c2: Cache, x: Cache, y: Cache)
    requires w1.users.Some? && w2.users.Some? && w1.node != w2.node && w1.observedAt > 0 && w2.observedAt > 0
    requires SweptTo(c, w1, c1) && SweptTo(c1, w2, x) && SweptTo(c, w2, c2) && SweptTo(c2, w1, y)
    ensures x == y <==> forall e :: !OrderMatters(c, w1, w2, e)
  {
    CellsTwice(c, w1, w2, c1, c2, x, y);
    NodesTwice(c, w1, w2, c1, c2, x, y);
    MarksTwice(c, w1, w2, c1, c2, x, y);
    if SameCells(x, y) {
      Extensional(x, y);
    }
  }

  /** Exactly when two sweeps from different nodes may arrive in either order. */
  ghost predicate Independent(c: Cache, w1: Sweep, w2: Sweep, now: Time) {
    Accepted(c, w1, now) && Accepted(c, w2, now) ==> forall e :: !OrderMatters(c, w1, w2, e)
  }

  lemma AcceptanceIsPerNode(c: Cache, w1: Sweep, w2: Sweep, now: Time)
    requires w1.node != w2.node
    ensures Accepted(Apply(c, w1, now), w2, now) == Accepted(c, w2, now)
  {
  }

  /** Sweeps from different nodes, from any state: the two arrival orders agree exactly when the
      sweeps are independent, and with different observation times they always are. */
  lemma SweepsCommute(c: Cache, w1: Sweep, w2: Sweep, start: Time, end: Time)
    requires w1.node != w2.node && InSpan(w1, start, end) && InSpan(w2, start, end)
    ensures Apply(Apply(c, w1, start), w2, end) == Apply(Apply(c, w2, start), w1, end)
       <==> Independent(c, w1, w2, start)
    ensures w1.observedAt != w2.observedAt ==> Independent(c, w1, w2, start)
  {
    var c1, c2 := Apply(c, w1, start), Apply(c, w2, start);
    ArrivalTimeIrrelevant(c1, w2, start, end, end);
    ArrivalTimeIrrelevant(c2, w1, start, end, end);
    AcceptanceIsPerNode(c, w1, w2, start);
    AcceptanceIsPerNode(c, w2, w1, start);
    if Accepted(c, w1, start) && Accepted(c, w2, start) {
      ApplyMerges(c, w1, start);
      ApplyMerges(c, w2, start);
      ApplyMerges(c1, w2, start);
      ApplyMerges(c2, w1, start);
      MergesCommute(c, w1, w2, c1, c2, Apply(c1, w2, start), Apply(c2, w1, start));
    }
  }

  /** Two sweeps of one time that see one user at different addresses: from any cache that would take both in and
      has nothing later of the user, the one that arrives last wins. */
  lemma EqualTimesClash(c: Cache, w1: Sweep, w2: Sweep, now: Time, e: Email)
    requires w1.node != w2.node && InSpan(w1, now, now) && InSpan(w2, now, now) && w1.observedAt == w2.observedAt
    requires Accepted(c, w1, now) && Accepted(c, w2, now)
    requires e in w1.users.value && e in w2.users.value && w1.users.value[e] != w2.users.value[e]
    requires w1.users.value[e] != map[] && w2.users.value[e] != map[]
    requires Stamp(CellOf(c, e).seen) <= w1.observedAt && Stamp(CellOf(c, e).ipsAt) <= w1.observedAt
    ensures Apply(Apply(c, w1, now), w2, now) != Apply(Apply(c, w2, now), w1, now)
    ensures Get(Apply(Apply(c, w1, now), w2, now).userIPs, e) == Some(w2.users.value[e])
  {
    ClashOne(c, w1, w2, now, e);
    ClashOne(c, w2, w1, now, e);
  }

  /** A sighting newer than, or as new as, all that is known of the user becomes what is known. */
  lemma SightingWins(c: Cache, w: Sweep, now: Time, e: Email)
    requires InSpan(w, now, now) && Accepted(c, w, now) && e in w.users.value && w.users.value[e] != map[]
    requires Stamp(CellOf(c, e).seen) <= w.observedAt && Stamp(CellOf(c, e).ipsAt) <= w.observedAt
    ensures var d := CellOf(Apply(c, w, now), e);
            Stamp(d.seen) == w.observedAt == Stamp(d.ipsAt) && d.ips == Some(w.users.value[e])
  {
    MergeCell(c, w.node, w.users.value, w.observedAt, w.sourceID, e);
  }

  lemma ClashOne(c: Cache, w1: Sweep, w2: Sweep, now: Time, e: Email)
    requires w1.node != w2.node && InSpan(w1, now, now) && InSpan(w2, now, now) && w1.observedAt == w2.observedAt
    requires Accepted(c, w1, now) && Accepted(c, w2, now)
    requires e in w1.users.value && e in w2.users.value && w1.users.value[e] != map[] && w2.users.value[e] != map[]
    requires Stamp(CellOf(c, e).seen) <= w1.observedAt && Stamp(CellOf(c, e).ipsAt) <= w1.observedAt
    ensures CellOf(Apply(Apply(c, w1, now), w2, now), e).ips == Some(w2.users.value[e])
  {
    AcceptanceIsPerNode(c, w1, w2, now);
    SightingWins(c, w1, now, e);
    SightingWins(Apply(c, w1, now), w2, now, e);
  }

  // ---------- any number of sweeps in any order

  function Deliver(c: Cache, ws: seq<Sweep>, now: Time): Cache {
    if ws == [] then c else Apply(Deliver(c, ws[..|ws| - 1], now), ws[|ws| - 1], now)
  }

  ghost predicate Batch(ws: seq<Sweep>, now: Time) {
    && (forall i :: 0 <= i < |ws| ==> InSpan(ws[i], now, now))
    && forall i, j :: 0 <= i < j < |ws| ==> ws[i].node != ws[j].node && ws[i].observedAt != ws[j].observedAt
  }

  lemma {:induction false} MoveToEnd(c: Cache, ws: seq<Sweep>, k: nat, now: Time)
    requires Batch(ws, now) && k < |ws|
    ensures Deliver(c, ws, now) == Apply(Deliver(c, ws[..k] + ws[k + 1..], now), ws[k], now)
  {
    var n := |ws|;
    if k == n - 1 {
      assert ws[..k] + ws[k + 1..] == ws[..n - 1];
    } else {
      var init, last := ws[..n - 1], ws[n - 1];
      MoveToEnd(c, init, k, now);
      var rest := ws[..k] + ws[k + 1..];
      assert rest[..|rest| - 1] == init[..k] + init[k + 1..];
      assert rest[|rest| - 1] == last;
      var mid := Deliver(c, init[..k] + init[k + 1..], now);
      SweepsCommute(mid, ws[k], last, now, now);
    }
  }

  lemma DropOne<T>(s: seq<T>, k: nat)
    requires k < |s|
    ensures multiset(s[..k] + s[k + 1..]) == multiset(s) - multiset{s[k]}
  {
    assert s == s[..k] + [s[k]] + s[k + 1..];
  }

  lemma BatchWithout(ws: seq<Sweep>, k: nat, now: Time)
    requires Batch(ws, now) && k < |ws|
    ensures Batch(ws[..k] + ws[k + 1..], now)
  {
  }

  lemma PlaceOfLast<T>(s: seq<T>, t: seq<T>) returns (k: nat)
    requires multiset(s) == multiset(t) && s != []
    ensures k < |t| && t[k] == s[|s| - 1] && multiset(s[..|s| - 1]) == multiset(t[..k] + t[k + 1..])
  {
    var last := s[|s| - 1];
    assert last in multiset(s);
    assert last in multiset(t);
    k :| 0 <= k < |t| && t[k] == last;
    DropOne(s, |s| - 1);
    DropOne(t, k);
    assert s[..|s| - 1] + s[|s|..] == s[..|s| - 1];
  }

  /** A batch of sweeps from different nodes leaves the same cache in every order. */
  lemma {:induction false} BatchOrderIrrelevant(c: Cache, ws: seq<Sweep>, ws': seq<Sweep>, now: Time)
    requires Batch(ws, now) && Batch(ws', now) && multiset(ws) == multiset(ws')
    ensures Deliver(c, ws, now) == Deliver(c, ws', now)
  {
    if ws == [] {
      assert |multiset(ws')| == 0;
    } else {
      var n, last := |ws|, ws[|ws| - 1];
      var k := PlaceOfLast(ws, ws');
      var rest := ws'[..k] + ws'[k + 1..];
      BatchWithout(ws, n - 1, now);
      BatchWithout(ws', k, now);
      assert ws[..n - 1] + ws[n..] == ws[..n - 1];
      BatchOrderIrrelevant(c, ws[..n - 1], rest, now);
      MoveToEnd(c, ws', k, now);
    }
  }
}
