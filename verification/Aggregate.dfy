/** Aggregation: the shortest list of prefixes for the addresses that a list covers. */
module Aggregate {
  import opened Blocks
  import opened Prefixes

  /** Two different halves of one parent. */
  predicate AreSiblings(a: Prefix, b: Prefix) {
    a.bits == b.bits && a.bits != 0 && a != b && Shortened(a) == Shortened(b)
  }

  /** p lies inside q. */
  predicate Within(p: Prefix, q: Prefix) {
    q.bits <= p.bits && Contains(q, AddrOf(p))
  }

  ghost predicate AllMasked(ps: seq<Prefix>) {
    forall i :: 0 <= i < |ps| ==> IsMasked(ps[i])
  }

  ghost predicate Ordered(ps: seq<Prefix>) {
    forall i, j :: 0 <= i < j < |ps| ==> NotAfter(ps[i], ps[j])
  }

  /** Address order, no address twice, no pair left to merge. */
  ghost predicate IsCanonical(ps: seq<Prefix>) {
    && AllMasked(ps)
    && Ordered(ps)
    && (forall i, j :: 0 <= i < j < |ps| ==> !Overlaps(ps[i], ps[j]))
    && (forall i, j :: 0 <= i < j < |ps| ==> !AreSiblings(ps[i], ps[j]))
  }

  // ---------- the code's tests, read on blocks

  ghost predicate Ahead(a: Block, b: Block) {
    a.Lo() < b.Lo() || (a.Lo() == b.Lo() && a.k >= b.k)
  }

  lemma NotAfterIsAhead(p: Prefix, q: Prefix)
    requires IsMasked(p) && IsMasked(q)
    ensures NotAfter(p, q) <==> Ahead(BlockOf(p), BlockOf(q))
  {
    BlockStart(p);
    BlockStart(q);
    if p.family != q.family {
      InItsFamily(p);
      InItsFamily(q);
      FamiliesApart();
    }
  }

  lemma WithinIsInside(p: Prefix, q: Prefix)
    ensures Within(p, q) <==> BlockOf(p).Inside(BlockOf(q))
  {
    ContainsIsHas(q, AddrOf(p));
    ContainsIsHas(p, AddrOf(p));
    if Within(p, q) {
      NestedOrApart(BlockOf(p), BlockOf(q));
    }
    if BlockOf(p).Inside(BlockOf(q)) {
      InsideIsShorter(BlockOf(p), BlockOf(q));
    }
  }

  lemma OverlapsIsNested(p: Prefix, q: Prefix)
    ensures Overlaps(p, q) <==> Within(p, q) || Within(q, p)
    ensures Overlaps(p, q) || BlockOf(p).Hi() <= BlockOf(q).Lo() || BlockOf(q).Hi() <= BlockOf(p).Lo()
  {
    WithinIsInside(p, q);
    WithinIsInside(q, p);
    if p.bits <= q.bits && p.family == q.family {
      NestedOrApart(BlockOf(q), BlockOf(p));
    } else if p.family == q.family {
      NestedOrApart(BlockOf(p), BlockOf(q));
    } else {
      InItsFamily(p);
      InItsFamily(q);
      FamiliesApart();
    }
  }

  lemma SiblingsMatch(a: Prefix, b: Prefix)
    requires IsMasked(a) && IsMasked(b)
    ensures AreSiblings(a, b) <==> Siblings(BlockOf(a), BlockOf(b))
  {
    if AreSiblings(a, b) {
      ShortenedBlock(a);
      ShortenedBlock(b);
      if BlockOf(a) == BlockOf(b) {
        SameBlockSamePrefix(a, b);
      }
    }
    if Siblings(BlockOf(a), BlockOf(b)) {
      SiblingsShareFamily(a, b);
      if a.bits == 0 {
        InItsFamily(a);
        InItsFamily(b);
        InsideSameLength(BlockOf(a), FamilyBlock(a.family));
        InsideSameLength(BlockOf(b), FamilyBlock(b.family));
      } else {
        ShortenedBlock(a);
        ShortenedBlock(b);
        SameBlockSamePrefix(Shortened(a), Shortened(b));
      }
    }
  }

  lemma SiblingsShareFamily(a: Prefix, b: Prefix)
    requires Siblings(BlockOf(a), BlockOf(b))
    ensures a.family == b.family
  {
    InItsFamily(a);
    InItsFamily(b);
    FamiliesApart();
    if BlockOf(a).Lo() <= BlockOf(b).Lo() {
      SiblingsFillParent(BlockOf(a), BlockOf(b));
    } else {
      SiblingsFillParent(BlockOf(b), BlockOf(a));
    }
  }

  lemma CanonicalMatches(ps: seq<Prefix>)
    requires AllMasked(ps)
    ensures IsCanonical(ps) <==> Canonical(BlocksOf(ps))
  {
    var bs := BlocksOf(ps);
    forall i, j | 0 <= i < j < |ps|
      ensures NotAfter(ps[i], ps[j]) && !Overlaps(ps[i], ps[j]) <==> bs[i].Hi() <= bs[j].Lo()
      ensures AreSiblings(ps[i], ps[j]) <==> Siblings(bs[i], bs[j])
    {
      NotAfterIsAhead(ps[i], ps[j]);
      OverlapsIsNested(ps[i], ps[j]);
      WithinIsInside(ps[i], ps[j]);
      WithinIsInside(ps[j], ps[i]);
      SiblingsMatch(ps[i], ps[j]);
    }
  }

  // ---------- steps of the pass, on blocks

  /** A block that sorts after the stack is inside its top or clear of all of it. */
  lemma InTopOrClear(bs: seq<Block>, b: Block)
    requires Apart(bs) && forall i :: 0 <= i < |bs| ==> Ahead(bs[i], b)
    requires |bs| > 0 ==> !b.Inside(bs[|bs| - 1])
    ensures forall i :: 0 <= i < |bs| ==> bs[i].Hi() <= b.Lo()
  {
    if |bs| > 0 {
      var top := bs[|bs| - 1];
      if top.k >= b.k {
        NestedOrApart(b, top);
      } else {
        NestedOrApart(top, b);
      }
    }
  }

  ghost function Merged(bs: seq<Block>): seq<Block>
    requires |bs| >= 2
  {
    bs[..|bs| - 2] + [bs[|bs| - 1].Parent()]
  }

  lemma MergeKeeps(bs: seq<Block>)
    requires |bs| >= 2 && Apart(bs) && SiblingFree(bs[..|bs| - 1])
    requires Siblings(bs[|bs| - 2], bs[|bs| - 1])
    ensures Apart(Merged(bs)) && SiblingFree(Merged(bs)[..|bs| - 2]) && SameCover(bs, Merged(bs))
    ensures bs[|bs| - 1].Parent().Lo() == bs[|bs| - 2].Lo()
  {
    var n := |bs|;
    SiblingsFillParent(bs[n - 2], bs[n - 1]);
    assert Merged(bs)[..n - 2] == bs[..n - 1][..n - 2];
    MergeCovers(bs);
  }

  lemma MergeCovers(bs: seq<Block>)
    requires |bs| >= 2 && bs[|bs| - 2].Lo() <= bs[|bs| - 1].Lo() && Siblings(bs[|bs| - 2], bs[|bs| - 1])
    ensures SameCover(bs, Merged(bs))
  {
    var n, ms := |bs|, Merged(bs);
    SiblingsFillParent(bs[n - 2], bs[n - 1]);
    forall x: int ensures Covered(bs, x) <==> Covered(ms, x) {
      if Covered(bs, x) {
        var i :| 0 <= i < n && bs[i].Has(x);
        assert ms[if i < n - 2 then i else n - 2].Has(x);
      }
      if Covered(ms, x) {
        var i :| 0 <= i < n - 1 && ms[i].Has(x);
        assert bs[i].Has(x) || bs[n - 1].Has(x);
      }
    }
  }

  lemma NoPairLeft(bs: seq<Block>)
    requires Apart(bs) && |bs| > 0 && SiblingFree(bs[..|bs| - 1])
    requires |bs| >= 2 ==> !Siblings(bs[|bs| - 2], bs[|bs| - 1])
    ensures SiblingFree(bs)
  {
    var n := |bs|;
    forall i, j | 0 <= i < j < n ensures !Siblings(bs[i], bs[j]) {
      if j < n - 1 {
        assert bs[..n - 1][i] == bs[i] && bs[..n - 1][j] == bs[j];
      } else if i < n - 2 {
        assert bs[i].Hi() <= bs[n - 2].Lo() < bs[n - 2].Hi() <= bs[j].Lo();
        if Siblings(bs[i], bs[j]) {
          SiblingsFillParent(bs[i], bs[j]);
        }
      }
    }
  }

  lemma CoverAppend(bs: seq<Block>, cs: seq<Block>, b: Block)
    requires SameCover(bs, cs)
    ensures SameCover(bs + [b], cs + [b])
    ensures (exists i :: 0 <= i < |bs| && b.Inside(bs[i])) ==> SameCover(bs, cs + [b])
  {
    forall x: int
      ensures Covered(bs + [b], x) <==> Covered(bs, x) || b.Has(x)
      ensures Covered(cs + [b], x) <==> Covered(cs, x) || b.Has(x)
    {
      CoveredAppend(bs, b, x);
      CoveredAppend(cs, b, x);
    }
  }

  lemma CoveredAppend(bs: seq<Block>, b: Block, x: int)
    ensures Covered(bs + [b], x) <==> Covered(bs, x) || b.Has(x)
  {
    assert (bs + [b])[|bs|] == b;
    forall i | 0 <= i < |bs| ensures (bs + [b])[i] == bs[i] {
    }
  }

  // ---------- sorting

  /** slices.SortFunc by address and then length. */
  function Sorted(ps: seq<Prefix>): (r: seq<Prefix>)
    ensures Ordered(r) && multiset(r) == multiset(ps)
  {
    if ps == [] then [] else
      assert ps == ps[..|ps| - 1] + [ps[|ps| - 1]];
      Insert(Sorted(ps[..|ps| - 1]), ps[|ps| - 1])
  }

  function Insert(ps: seq<Prefix>, p: Prefix): (r: seq<Prefix>)
    requires Ordered(ps)
    ensures Ordered(r) && multiset(r) == multiset(ps) + multiset{p}
  {
    if ps == [] || NotAfter(ps[|ps| - 1], p) then
      AppendOrdered(ps, p);
      ps + [p]
    else
      var init, last := ps[..|ps| - 1], ps[|ps| - 1];
      assert ps == init + [last];
      InsertedBefore(init, p, Insert(init, p), last);
      Insert(init, p) + [last]
  }

  lemma AppendOrdered(ps: seq<Prefix>, last: Prefix)
    requires Ordered(ps) && (ps != [] ==> NotAfter(ps[|ps| - 1], last))
    ensures Ordered(ps + [last])
  {
    forall i | 0 <= i < |ps| ensures NotAfter(ps[i], last) {
      assert i < |ps| - 1 ==> NotAfter(ps[i], ps[|ps| - 1]);
    }
  }

  lemma SameMembers(ps: seq<Prefix>, qs: seq<Prefix>, p: Prefix)
    requires multiset(ps) == multiset(qs)
    ensures p in ps <==> p in qs
  {
    assert p in ps <==> p in multiset(ps);
    assert p in qs <==> p in multiset(qs);
  }

  lemma InsertedBefore(init: seq<Prefix>, p: Prefix, r: seq<Prefix>, last: Prefix)
    requires Ordered(init + [last]) && !NotAfter(last, p)
    requires Ordered(r) && multiset(r) == multiset(init) + multiset{p}
    ensures Ordered(r + [last])
  {
    if r != [] {
      var q := r[|r| - 1];
      assert multiset(r) == multiset(init + [p]);
      SameMembers(r, init + [p], q);
      if q != p {
        var i :| 0 <= i < |init| && init[i] == q;
        assert NotAfter((init + [last])[i], (init + [last])[|init|]);
      }
    }
    AppendOrdered(r, last);
  }

  // ---------- aggregate

  /** What aggregate promises of its result, with no mention of how it is found. */
  ghost predicate IsAggregateOf(out: seq<Prefix>, ps: seq<Prefix>) {
    IsCanonical(out) && SameAddresses(out, ps)
  }

  lemma MaskedSame(ps: seq<Prefix>, qs: seq<Prefix>)
    requires |ps| == |qs| && forall i :: 0 <= i < |ps| ==> qs[i] == Masked(ps[i])
    ensures SameAddresses(ps, qs)
  {
  }

  lemma SameElementsSameAddresses(ps: seq<Prefix>, qs: seq<Prefix>)
    requires forall p :: p in ps <==> p in qs
    ensures SameAddresses(ps, qs)
  {
    forall a: Addr ensures Covers(ps, a) <==> Covers(qs, a) {
      if Covers(ps, a) {
        var i :| 0 <= i < |ps| && Contains(ps[i], a);
        assert ps[i] in qs;
      }
      if Covers(qs, a) {
        var i :| 0 <= i < |qs| && Contains(qs[i], a);
        assert qs[i] in ps;
      }
    }
  }

  lemma BlocksOfAppend(ps: seq<Prefix>, p: Prefix)
    ensures BlocksOf(ps + [p]) == BlocksOf(ps) + [BlockOf(p)]
  {
  }

  /** Every stack entry sorts no later than anything from position i on. */
  ghost predicate StackAhead(out: seq<Prefix>, sorted: seq<Prefix>, i: nat) {
    forall a, j :: 0 <= a < |out| && i <= j < |sorted| ==> Ahead(BlockOf(out[a]), BlockOf(sorted[j]))
  }

  /** The stack between two inputs, when the first i of them have been taken in. */
  ghost predicate Settled(out: seq<Prefix>, sorted: seq<Prefix>, i: nat)
    requires i <= |sorted|
  {
    && AllMasked(out)
    && StackAhead(out, sorted, i)
    && Canonical(BlocksOf(out))
    && SameCover(BlocksOf(out), BlocksOf(sorted[..i]))
  }

  /** The stack while its top may still pair up. */
  ghost predicate Merging(out: seq<Prefix>, sorted: seq<Prefix>, i: nat)
    requires i <= |sorted|
  {
    && |out| > 0
    && AllMasked(out)
    && StackAhead(out, sorted, i)
    && Apart(BlocksOf(out))
    && SiblingFree(BlocksOf(out)[..|out| - 1])
    && SameCover(BlocksOf(out), BlocksOf(sorted[..i]))
  }

  function MergedTop(out: seq<Prefix>): seq<Prefix>
    requires |out| >= 2 && out[|out| - 1].bits > 0
  {
    out[..|out| - 2] + [Shortened(out[|out| - 1])]
  }

  lemma MergeStep(out: seq<Prefix>, sorted: seq<Prefix>, i: nat)
    requires i <= |sorted| && Merging(out, sorted, i)
    requires |out| >= 2 && AreSiblings(out[|out| - 2], out[|out| - 1])
    ensures Merging(MergedTop(out), sorted, i)
  {
    var n, bs := |out|, BlocksOf(out);
    SiblingsMatch(out[n - 2], out[n - 1]);
    MergeKeeps(bs);
    ShortenedBlock(out[n - 1]);
    assert BlocksOf(MergedTop(out)) == Merged(bs);
    MergedAhead(out, sorted, i);
  }

  lemma MergedAhead(out: seq<Prefix>, sorted: seq<Prefix>, i: nat)
    requires |out| >= 2 && out[|out| - 1].bits > 0 && StackAhead(out, sorted, i)
    requires BlockOf(Shortened(out[|out| - 1])).Lo() == BlockOf(out[|out| - 2]).Lo()
    requires Free(Shortened(out[|out| - 1])) >= Free(out[|out| - 2])
    ensures StackAhead(MergedTop(out), sorted, i)
  {
  }

  lemma MergeDone(out: seq<Prefix>, sorted: seq<Prefix>, i: nat)
    requires i <= |sorted| && Merging(out, sorted, i)
    requires |out| >= 2 ==> !AreSiblings(out[|out| - 2], out[|out| - 1])
    ensures Settled(out, sorted, i)
  {
    if |out| >= 2 {
      SiblingsMatch(out[|out| - 2], out[|out| - 1]);
    }
    NoPairLeft(BlocksOf(out));
  }

  lemma Take(out: seq<Prefix>, sorted: seq<Prefix>, i: nat)
    requires i < |sorted| && AllMasked(sorted) && Ordered(sorted) && Settled(out, sorted, i)
    ensures |out| > 0 && Within(sorted[i], out[|out| - 1]) ==> Settled(out, sorted, i + 1)
    ensures !(|out| > 0 && Within(sorted[i], out[|out| - 1])) ==> Merging(out + [sorted[i]], sorted, i + 1)
  {
    var p, bs := sorted[i], BlocksOf(out);
    assert sorted[..i + 1] == sorted[..i] + [p];
    BlocksOfAppend(sorted[..i], p);
    BlocksOfAppend(out, p);
    CoverAppend(bs, BlocksOf(sorted[..i]), BlockOf(p));
    if |out| > 0 {
      WithinIsInside(p, out[|out| - 1]);
    }
    if !(|out| > 0 && Within(p, out[|out| - 1])) {
      InTopOrClear(bs, BlockOf(p));
      forall j | i < j < |sorted| ensures Ahead(BlockOf(p), BlockOf(sorted[j])) {
        NotAfterIsAhead(p, sorted[j]);
      }
      assert BlocksOf(out + [p])[..|out|] == bs;
    }
  }

  lemma SortedMasked(ps: seq<Prefix>, masked: seq<Prefix>)
    requires |ps| == |masked| && forall i :: 0 <= i < |ps| ==> masked[i] == Masked(ps[i])
    ensures AllMasked(Sorted(masked)) && SameAddresses(Sorted(masked), ps)
  {
    var sorted := Sorted(masked);
    forall p ensures p in sorted <==> p in masked {
      SameMembers(sorted, masked, p);
    }
    forall i | 0 <= i < |sorted| ensures IsMasked(sorted[i]) {
      assert sorted[i] in masked;
    }
    SameElementsSameAddresses(masked, sorted);
    MaskedSame(ps, masked);
  }

  method Aggregate(ps: seq<Prefix>) returns (out: seq<Prefix>)
    ensures IsAggregateOf(out, ps)
  {
    var masked := seq(|ps|, i requires 0 <= i < |ps| => Masked(ps[i]));
    var sorted := Sorted(masked);
    SortedMasked(ps, masked);
    out := [];
    var i := 0;
    while i < |sorted|
      invariant 0 <= i <= |sorted|
      invariant Settled(out, sorted, i)
    {
      var p := sorted[i];
      Take(out, sorted, i);
      if |out| > 0 && out[|out| - 1].bits <= p.bits && Contains(out[|out| - 1], AddrOf(p)) {
        i := i + 1;
        continue;
      }
      out := out + [p];
      while |out| >= 2 && AreSiblings(out[|out| - 2], out[|out| - 1])
        invariant Merging(out, sorted, i + 1)
        decreases |out|
      {
        MergeStep(out, sorted, i + 1);
        out := out[..|out| - 2] + [Shortened(out[|out| - 1])];
      }
      MergeDone(out, sorted, i + 1);
      i := i + 1;
    }
    assert sorted[..i] == sorted;
    SameAddressesIsSameCover(out, sorted);
    CanonicalMatches(out);
  }

  // ---------- what follows from the promise

  /** No list of prefixes with the same addresses is shorter. */
  lemma AggregateIsShortest(out: seq<Prefix>, ps: seq<Prefix>, qs: seq<Prefix>)
    requires IsAggregateOf(out, ps) && SameAddresses(qs, ps)
    ensures |out| <= |qs|
  {
    SameAddressesIsSameCover(out, qs);
    CanonicalMatches(out);
    CanonicalIsShortest(BlocksOf(out), BlocksOf(qs));
  }

  /** Two inputs aggregate to the same list exactly when they hold the same addresses. */
  lemma AggregateDecidesEquality(out: seq<Prefix>, ps: seq<Prefix>, out': seq<Prefix>, ps': seq<Prefix>)
    requires IsAggregateOf(out, ps) && IsAggregateOf(out', ps')
    ensures out == out' <==> SameAddresses(ps, ps')
  {
    if SameAddresses(ps, ps') {
      SameAddressesIsSameCover(out, out');
      CanonicalMatches(out);
      CanonicalMatches(out');
      CanonicalIsUnique(BlocksOf(out), BlocksOf(out'));
      forall i | 0 <= i < |out| ensures out[i] == out'[i] {
        assert BlocksOf(out)[i] == BlocksOf(out')[i];
        SameBlockSamePrefix(out[i], out'[i]);
      }
    }
  }

  lemma AggregateIsIdempotent(out: seq<Prefix>, ps: seq<Prefix>, again: seq<Prefix>)
    requires IsAggregateOf(out, ps) && IsAggregateOf(again, out)
    ensures again == out
  {
    AggregateDecidesEquality(out, ps, again, out);
  }

  /** Order and repetition in the input do not matter. */
  lemma AggregateIgnoresOrder(out: seq<Prefix>, ps: seq<Prefix>, out': seq<Prefix>, ps': seq<Prefix>)
    requires IsAggregateOf(out, ps) && IsAggregateOf(out', ps')
    requires forall p :: p in ps <==> p in ps'
    ensures out == out'
  {
    SameElementsSameAddresses(ps, ps');
    AggregateDecidesEquality(out, ps, out', ps');
  }

  ghost predicate AllCovered(p: Prefix, ps: seq<Prefix>) {
    forall a: Addr :: Contains(p, a) ==> Covers(ps, a)
  }

  /** The result is exactly the set of maximal prefixes inside the union. */
  lemma AggregateIsMaximalPrefixes(out: seq<Prefix>, ps: seq<Prefix>, p: Prefix)
    requires IsAggregateOf(out, ps) && IsMasked(p)
    ensures p in out <==> AllCovered(p, ps) && forall q: Prefix :: AllCovered(q, ps) && Within(p, q) ==> Within(q, p)
  {
    if p in out {
      forall a: Addr | Contains(p, a) ensures Covers(ps, a) {
        assert Covers(out, a);
      }
      forall q: Prefix | AllCovered(q, ps) && Within(p, q) ensures Within(q, p) {
        var o := HolderOf(out, ps, q);
        WithinTransitive(p, q, o);
        SharedHolder(out, p, o);
      }
    } else if AllCovered(p, ps) {
      var o := HolderOf(out, ps, p);
      assert AllCovered(o, ps) by {
        forall a: Addr | Contains(o, a) ensures Covers(ps, a) {
          assert Covers(out, a);
        }
      }
      WithinIsInside(p, o);
      WithinIsInside(o, p);
      if Within(o, p) {
        InsideBothWays(BlockOf(p), BlockOf(o));
        SameBlockSamePrefix(p, o);
      }
    }
  }

  /** A prefix whose addresses are all in the input lies within one element of the result. */
  lemma HolderOf(out: seq<Prefix>, ps: seq<Prefix>, q: Prefix) returns (o: Prefix)
    requires IsAggregateOf(out, ps) && AllCovered(q, ps)
    ensures o in out && Within(q, o)
  {
    CanonicalMatches(out);
    forall x: int | BlockOf(q).Has(x) ensures Covered(BlocksOf(out), x) {
      assert BlocksOf([q])[0].Has(x);
      var a := CoveredHasAddress([q], x);
      ContainsIsHas(q, a);
      CoversIsCovered(out, a);
    }
    var i := InsideOne(BlocksOf(out), BlockOf(q));
    o := out[i];
    WithinIsInside(q, o);
  }

  lemma WithinTransitive(p: Prefix, q: Prefix, r: Prefix)
    requires Within(p, q) && Within(q, r)
    ensures Within(p, r)
  {
    WithinIsInside(p, q);
    WithinIsInside(q, r);
    WithinIsInside(p, r);
  }

  lemma SharedHolder(out: seq<Prefix>, p: Prefix, o: Prefix)
    requires IsCanonical(out) && p in out && o in out && Within(p, o)
    ensures p == o
  {
    OverlapsIsNested(p, o);
    OverlapsIsNested(o, p);
  }
}
