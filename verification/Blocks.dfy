/** Aligned power-of-two blocks of a number line, and the canonical way to write a union of
    them. Every address prefix is such a block, so the theory of aggregation lives here. */
module Blocks {
  import opened Powers

  /** Block number n of length 2^k: the integers from n * 2^k up to (n + 1) * 2^k, exclusive. */
  datatype Block = Block(n: nat, k: nat) {
    ghost function Lo(): nat {
      n * Pow2(k)
    }

    ghost function Hi(): nat {
      Lo() + Pow2(k)
    }

    ghost predicate Has(x: int) {
      Lo() <= x < Hi()
    }

    ghost predicate Inside(other: Block) {
      other.Lo() <= Lo() && Hi() <= other.Hi()
    }

    /** The block twice as long that this one is a half of. */
    ghost function Parent(): Block {
      Block(n / 2, k + 1)
    }
  }

  ghost predicate Siblings(a: Block, b: Block) {
    a != b && a.k == b.k && a.Parent() == b.Parent()
  }

  ghost predicate Covered(bs: seq<Block>, x: int) {
    exists i :: 0 <= i < |bs| && bs[i].Has(x)
  }

  ghost predicate SameCover(bs: seq<Block>, cs: seq<Block>) {
    forall x: int :: Covered(bs, x) <==> Covered(cs, x)
  }

  /** Sorted, and no two share a number. */
  ghost predicate Apart(bs: seq<Block>) {
    forall i, j :: 0 <= i < j < |bs| ==> bs[i].Hi() <= bs[j].Lo()
  }

  ghost predicate SiblingFree(bs: seq<Block>) {
    forall i, j :: 0 <= i < j < |bs| ==> !Siblings(bs[i], bs[j])
  }

  ghost predicate Canonical(bs: seq<Block>) {
    Apart(bs) && SiblingFree(bs)
  }

  // ---------- two blocks

  /** A block fills the lower or the upper half of its parent. */
  lemma HalfOfParent(b: Block)
    ensures b.Inside(b.Parent())
    ensures b.n % 2 == 0 ==> b.Lo() == b.Parent().Lo() && b.Hi() + Pow2(b.k) == b.Parent().Hi()
    ensures b.n % 2 == 1 ==> b.Hi() == b.Parent().Hi() && b.Lo() == b.Parent().Lo() + Pow2(b.k)
  {
    Twice(b.n / 2, Pow2(b.k));
  }

  lemma SameLengthApart(a: Block, b: Block)
    requires a.k == b.k && a.n < b.n
    ensures a.Hi() <= b.Lo()
  {
    Scaled(a.n, b.n, Pow2(a.k));
  }

  /** Blocks never overlap partly: the shorter one is inside or elsewhere. */
  lemma {:induction false} NestedOrApart(a: Block, b: Block)
    requires a.k <= b.k
    ensures a.Inside(b) || a.Hi() <= b.Lo() || b.Hi() <= a.Lo()
    decreases b.k - a.k
  {
    if a.k == b.k {
      if a.n < b.n {
        SameLengthApart(a, b);
      } else if b.n < a.n {
        SameLengthApart(b, a);
      }
    } else {
      HalfOfParent(a);
      NestedOrApart(a.Parent(), b);
    }
  }

  lemma InsideIsShorter(a: Block, b: Block)
    requires a.Inside(b)
    ensures a.k <= b.k
  {
    if a.k > b.k {
      Pow2Grows(b.k, a.k);
    }
  }

  lemma InsideBothWays(a: Block, b: Block)
    requires a.Inside(b) && b.Inside(a)
    ensures a == b
  {
    InsideIsShorter(a, b);
    InsideIsShorter(b, a);
    if a.n < b.n {
      SameLengthApart(a, b);
    } else if b.n < a.n {
      SameLengthApart(b, a);
    }
  }

  lemma InsideSameLength(a: Block, b: Block)
    requires a.k == b.k && a.Inside(b)
    ensures a == b
  {
    InsideBothWays(a, b);
  }

  /** What properly holds a block holds the block's parent. */
  lemma ProperlyHoldsParent(a: Block, b: Block)
    requires a.Inside(b) && a != b
    ensures a.Parent().Inside(b)
  {
    InsideIsShorter(a, b);
    if a.k == b.k {
      InsideSameLength(a, b);
    } else {
      HalfOfParent(a);
      NestedOrApart(a.Parent(), b);
    }
  }

  /** Siblings in order are neighbours, and together they fill their parent. */
  lemma SiblingsFillParent(a: Block, b: Block)
    requires Siblings(a, b) && a.Lo() <= b.Lo()
    ensures a.Parent().Lo() == a.Lo() && a.Hi() == b.Lo() && b.Hi() == a.Parent().Hi()
  {
    HalfOfParent(a);
    HalfOfParent(b);
    if a.n > b.n {
      SameLengthApart(b, a);
    }
  }

  // ---------- canonical lists

  /** A block that a canonical list covers lies inside one element of the list. */
  lemma {:induction false} InsideOne(bs: seq<Block>, b: Block) returns (i: nat)
    requires Canonical(bs)
    requires forall x: int :: b.Has(x) ==> Covered(bs, x)
    ensures i < |bs| && b.Inside(bs[i])
    decreases b.k
  {
    if b.k == 0 {
      assert b.Has(b.Lo());
      i :| 0 <= i < |bs| && bs[i].Has(b.Lo());
    } else {
      var l, u := Block(2 * b.n, b.k - 1), Block(2 * b.n + 1, b.k - 1);
      HalfOfParent(l);
      HalfOfParent(u);
      assert l.Parent() == b && u.Parent() == b;
      assert forall x: int :: l.Has(x) || u.Has(x) ==> b.Has(x);
      i := InsideOne(bs, l);
      var j := InsideOne(bs, u);
      if bs[i] != l {
        ProperlyHoldsParent(l, bs[i]);
      } else {
        assert bs[j] != u by {
          assert Siblings(l, u);
          SameLengthApart(l, u);
        }
        ProperlyHoldsParent(u, bs[j]);
        i := j;
      }
    }
  }

  lemma OneHolder(bs: seq<Block>, x: int, i: nat, j: nat)
    requires Apart(bs) && i < |bs| && j < |bs| && bs[i].Has(x) && bs[j].Has(x)
    ensures i == j
  {
  }

  /** Two canonical lists that cover the same numbers are the same list. */
  lemma CanonicalIsUnique(bs: seq<Block>, cs: seq<Block>)
    requires Canonical(bs) && Canonical(cs) && SameCover(bs, cs)
    ensures bs == cs
  {
    forall b | b in bs ensures b in cs {
      ElementIsShared(bs, cs, b);
    }
    forall b | b in cs ensures b in bs {
      ElementIsShared(cs, bs, b);
    }
    SameElementsSameList(bs, cs);
  }

  lemma ElementIsShared(bs: seq<Block>, cs: seq<Block>, b: Block)
    requires Canonical(bs) && Canonical(cs) && SameCover(bs, cs) && b in bs
    ensures b in cs
  {
    var i :| 0 <= i < |bs| && bs[i] == b;
    forall x: int | b.Has(x) ensures Covered(cs, x) {
      assert Covered(bs, x);
    }
    var j := InsideOne(cs, b);
    forall x: int | cs[j].Has(x) ensures Covered(bs, x) {
      assert Covered(cs, x);
    }
    var k := InsideOne(bs, cs[j]);
    OneHolder(bs, b.Lo(), i, k);
    InsideBothWays(b, cs[j]);
  }

  lemma FirstIsLeast(bs: seq<Block>, b: Block)
    requires Apart(bs) && b in bs
    ensures bs[0].Lo() <= b.Lo() && (b != bs[0] ==> bs[0].Lo() < b.Lo())
    ensures b in bs[1..] ==> bs[0].Lo() < b.Lo()
  {
  }

  lemma {:induction false} SameElementsSameList(bs: seq<Block>, cs: seq<Block>)
    requires Apart(bs) && Apart(cs)
    requires forall b :: b in bs <==> b in cs
    ensures bs == cs
  {
    assert bs != [] ==> bs[0] in cs;
    assert cs != [] ==> cs[0] in bs;
    if bs != [] {
      FirstIsLeast(bs, cs[0]);
      FirstIsLeast(cs, bs[0]);
      forall b ensures b in bs[1..] <==> b in cs[1..] {
        if b in bs[1..] {
          FirstIsLeast(bs, b);
        }
        if b in cs[1..] {
          FirstIsLeast(cs, b);
        }
        assert bs == [bs[0]] + bs[1..] && cs == [cs[0]] + cs[1..];
      }
      SameElementsSameList(bs[1..], cs[1..]);
    }
  }

  // ---------- minimality

  /** No list of blocks with the same cover is shorter than a canonical one. */
  lemma CanonicalIsShortest(bs: seq<Block>, cs: seq<Block>)
    requires Canonical(bs) && SameCover(bs, cs)
    ensures |bs| <= |cs|
  {
    var pick := [];
    while |pick| < |bs|
      invariant |pick| <= |bs|
      invariant forall i :: 0 <= i < |pick| ==> 0 <= pick[i] < |cs| && cs[pick[i]].Inside(bs[i])
    {
      var j := CoverInside(bs, cs, |pick|);
      pick := pick + [j];
    }
    DistinctBelow(pick, |cs|);
  }

  lemma CoverInside(bs: seq<Block>, cs: seq<Block>, i: nat) returns (j: nat)
    requires Canonical(bs) && SameCover(bs, cs) && i < |bs|
    ensures j < |cs| && cs[j].Inside(bs[i])
  {
    var x := bs[i].Lo();
    assert bs[i].Has(x) && Covered(bs, x);
    j :| 0 <= j < |cs| && cs[j].Has(x);
    forall y: int | cs[j].Has(y) ensures Covered(bs, y) {
      assert Covered(cs, y);
    }
    var k := InsideOne(bs, cs[j]);
    OneHolder(bs, x, i, k);
  }

  /** A list of distinct numbers below n has at most n of them. */
  lemma {:induction false} DistinctBelow(pick: seq<nat>, n: nat)
    requires forall i :: 0 <= i < |pick| ==> pick[i] < n
    requires forall i, j :: 0 <= i < j < |pick| ==> pick[i] != pick[j]
    ensures |pick| <= n
  {
    if pick != [] {
      assert pick[0] < n;
      if i :| 0 <= i < |pick| && pick[i] == n - 1 {
        DistinctBelow(pick[..i] + pick[i + 1..], n - 1);
      } else {
        DistinctBelow(pick, n - 1);
      }
    }
  }
}
