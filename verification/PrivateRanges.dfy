/** The private ranges the node blocks before it reads the domestic list, and why they are canonical. */
module PrivateRanges {
  import opened Powers
  import opened Blocks
  import opened Prefixes
  import opened Aggregate
  import opened GenDomestic

  /** The prefix whose leading bits are the number n. */
  function Cidr(f: Family, n: nat, bits: nat): Prefix
    requires bits <= Width(f) && n < Pow2(bits)
  {
    CidrFits(n, bits, Width(f) - bits);
    Prefix(f, n * Pow2(Width(f) - bits), bits)
  }

  lemma CidrFits(n: nat, bits: nat, k: nat)
    requires n < Pow2(bits)
    ensures n * Pow2(k) < Pow2(bits + k)
  {
    Pow2Sum(bits, k);
    Scaled(n, Pow2(bits), Pow2(k));
  }

  lemma MultipleShifts(n: nat, k: nat)
    ensures Shr(n * Pow2(k), k) == n
  {
    ShrIs(n * Pow2(k), k, n);
  }

  lemma CidrIsMasked(f: Family, n: nat, bits: nat)
    requires bits <= Width(f) && n < Pow2(bits)
    ensures IsMasked(Cidr(f, n, bits))
  {
    MultipleShifts(n, Width(f) - bits);
  }

  // ---------- gaps

  /** There are addresses between the two, or they are of different families. */
  predicate Gap(p: Prefix, q: Prefix) {
    (p.family == V4 && q.family == V6) || (p.family == q.family && p.addr + Pow2(Free(p)) < q.addr)
  }

  lemma GapsApart(p: Prefix, q: Prefix)
    requires IsMasked(p) && IsMasked(q) && Gap(p, q)
    ensures BlockOf(p).Hi() < BlockOf(q).Lo()
  {
    BlockStart(p);
    BlockStart(q);
    if p.family != q.family {
      InItsFamily(p);
      InItsFamily(q);
      FamiliesApart();
    }
  }

  /** Neighbours that are siblings touch. */
  lemma SiblingsTouch(a: Block, b: Block)
    requires Siblings(a, b) && a.Hi() <= b.Lo()
    ensures a.Hi() == b.Lo()
  {
    Twice(a.n / 2, Pow2(a.k));
    if a.n < b.n {
      assert b.n == a.n + 1;
      assert b.n * Pow2(a.k) == a.n * Pow2(a.k) + Pow2(a.k);
    } else {
      Scaled(b.n, a.n, Pow2(a.k));
    }
  }

  lemma ApartIsPairwise(p: Prefix, q: Prefix)
    requires IsMasked(p) && IsMasked(q) && BlockOf(p).Hi() < BlockOf(q).Lo()
    ensures NotAfter(p, q) && !Overlaps(p, q) && !AreSiblings(p, q)
  {
    NotAfterIsAhead(p, q);
    OverlapsIsNested(p, q);
    WithinIsInside(p, q);
    WithinIsInside(q, p);
    SiblingsMatch(p, q);
    if Siblings(BlockOf(p), BlockOf(q)) {
      SiblingsTouch(BlockOf(p), BlockOf(q));
    }
  }

  lemma {:induction false} GapsSpread(ps: seq<Prefix>, i: nat, j: nat)
    requires AllMasked(ps) && forall k :: 0 <= k < |ps| - 1 ==> Gap(ps[k], ps[k + 1])
    requires i < j < |ps|
    ensures BlockOf(ps[i]).Hi() < BlockOf(ps[j]).Lo()
  {
    GapsApart(ps[j - 1], ps[j]);
    if i < j - 1 {
      GapsSpread(ps, i, j - 1);
    }
  }

  /** A list of masked prefixes with a gap between each and the next is canonical. */
  lemma GapsAreCanonical(ps: seq<Prefix>)
    requires AllMasked(ps) && forall k :: 0 <= k < |ps| - 1 ==> Gap(ps[k], ps[k + 1])
    ensures IsCanonical(ps)
  {
    forall i, j | 0 <= i < j < |ps| ensures NotAfter(ps[i], ps[j]) && !Overlaps(ps[i], ps[j]) && !AreSiblings(ps[i], ps[j]) {
      GapsSpread(ps, i, j);
      ApartIsPairwise(ps[i], ps[j]);
    }
  }

  // ---------- the ranges

  /** A range by its leading bits. */
  datatype Lead = Lead(family: Family, n: nat, bits: nat)

  predicate Fits(l: Lead) {
    l.bits <= Width(l.family) && l.n < Pow2(l.bits)
  }

  function RangeOf(l: Lead): Prefix
    requires Fits(l)
  {
    Cidr(l.family, l.n, l.bits)
  }

  /** The gap, told from the leading bits. */
  predicate LeadGap(a: Lead, b: Lead) {
    || (a.family == V4 && b.family == V6)
    || (a.family == b.family &&
        if a.bits <= b.bits then (a.n + 1) * Pow2(b.bits - a.bits) < b.n else a.n + 1 < b.n * Pow2(a.bits - b.bits))
  }

  lemma Spread(m: nat, d: nat, n: nat, k: nat)
    ensures (m + 1) * Pow2(d) < n ==> m * Pow2(d + k) + Pow2(d + k) < n * Pow2(k)
    ensures m + 1 < n * Pow2(d) ==> m * Pow2(k) + Pow2(k) < n * Pow2(d + k)
  {
    Pow2Sum(d, k);
    if (m + 1) * Pow2(d) < n {
      Scaled((m + 1) * Pow2(d), n, Pow2(k));
      Associate(m + 1, Pow2(d), Pow2(k));
      assert (m + 1) * Pow2(d + k) == m * Pow2(d + k) + Pow2(d + k);
    }
    if m + 1 < n * Pow2(d) {
      Scaled(m + 1, n * Pow2(d), Pow2(k));
      Associate(n, Pow2(d), Pow2(k));
      assert (m + 1) * Pow2(k) == m * Pow2(k) + Pow2(k);
    }
  }

  lemma LeadGapIsGap(a: Lead, b: Lead)
    requires Fits(a) && Fits(b) && LeadGap(a, b)
    ensures Gap(RangeOf(a), RangeOf(b))
  {
    if a.family == b.family {
      var w := Width(a.family);
      if a.bits <= b.bits {
        Spread(a.n, b.bits - a.bits, b.n, w - b.bits);
      } else {
        Spread(a.n, a.bits - b.bits, b.n, w - a.bits);
      }
    }
  }

  /** 0.0.0.0/8, 10.0.0.0/8, 100.64.0.0/10, 127.0.0.0/8, 169.254.0.0/16, 172.16.0.0/12, 192.0.0.0/24, 192.0.2.0/24,
      192.88.99.0/24, 192.168.0.0/16, 198.18.0.0/15, 198.51.100.0/24, 203.0.113.0/24, 224.0.0.0/3, ::/127, fc00::/7,
      fe80::/10, ff00::/8. */
  const PRIVATE: seq<Lead> := [
    Lead(V4, 0, 8),
    Lead(V4, 10, 8),
    Lead(V4, 4 * 100 + 1, 10),
    Lead(V4, 127, 8),
    Lead(V4, 256 * 169 + 254, 16),
    Lead(V4, 16 * 172 + 1, 12),
    Lead(V4, 65536 * 192, 24),
    Lead(V4, 65536 * 192 + 2, 24),
    Lead(V4, 65536 * 192 + 256 * 88 + 99, 24),
    Lead(V4, 256 * 192 + 168, 16),
    Lead(V4, 128 * 198 + 9, 15),
    Lead(V4, 65536 * 198 + 256 * 51 + 100, 24),
    Lead(V4, 65536 * 203 + 113, 24),
    Lead(V4, 7, 3),
    Lead(V6, 0, 127),
    Lead(V6, 0x7e, 7),
    Lead(V6, 0x3fa, 10),
    Lead(V6, 0xff, 8)
  ]

  lemma Table()
    ensures Pow2(0) == 1 && Pow2(1) == 2 && Pow2(2) == 4 && Pow2(3) == 8 && Pow2(4) == 16 && Pow2(7) == 128 && Pow2(8) == 256
    ensures Pow2(9) == 512 && Pow2(10) == 1024 && Pow2(12) == 4096 && Pow2(15) == 32768 && Pow2(16) == 65536
    ensures Pow2(21) == 2097152 && Pow2(24) == 16777216
  {
    assert Pow2(5) == 32 && Pow2(6) == 64;
    assert Pow2(11) == 2048 && Pow2(13) == 8192 && Pow2(14) == 16384;
    assert Pow2(17) == 131072 && Pow2(18) == 262144 && Pow2(19) == 524288 && Pow2(20) == 1048576;
    assert Pow2(22) == 4194304 && Pow2(23) == 8388608;
  }

  lemma PrivateFits(i: nat)
    requires i < |PRIVATE|
    ensures Fits(PRIVATE[i])
  {
    Table();
  }

  lemma PrivateGaps(i: nat)
    requires i < |PRIVATE| - 1
    ensures LeadGap(PRIVATE[i], PRIVATE[i + 1])
  {
    Table();
  }

  ghost predicate AllFit() {
    forall i :: 0 <= i < |PRIVATE| ==> Fits(PRIVATE[i])
  }

  lemma PrivateAllFit()
    ensures AllFit()
  {
    forall i | 0 <= i < |PRIVATE| ensures Fits(PRIVATE[i]) {
      PrivateFits(i);
    }
  }

  /** PrivateCIDRs, parsed. */
  function PrivatePrefixes(): (ps: seq<Prefix>)
    ensures |ps| == |PRIVATE| && AllFit()
    ensures forall i :: 0 <= i < |PRIVATE| ==> ps[i] == RangeOf(PRIVATE[i])
  {
    PrivateAllFit();
    seq(|PRIVATE|, i requires 0 <= i < |PRIVATE| => RangeOf(PRIVATE[i]))
  }

  /** The program's own list is sorted, disjoint and free of sibling pairs. */
  lemma PrivateIsCanonical()
    ensures IsCanonical(PrivatePrefixes())
  {
    var ps := PrivatePrefixes();
    forall i | 0 <= i < |ps| ensures IsMasked(ps[i]) {
      PrivateFits(i);
      CidrIsMasked(PRIVATE[i].family, PRIVATE[i].n, PRIVATE[i].bits);
    }
    forall i | 0 <= i < |ps| - 1 ensures Gap(ps[i], ps[i + 1]) {
      PrivateFits(i);
      PrivateFits(i + 1);
      PrivateGaps(i);
      LeadGapIsGap(PRIVATE[i], PRIVATE[i + 1]);
    }
    GapsAreCanonical(ps);
  }

  /** So against it the run stops exactly on a range with both private and public addresses. */
  lemma StopsExactlyOnStraddling(p: Prefix)
    ensures Blocked(p, PrivatePrefixes()) <==> Straddles(p, PrivatePrefixes())
  {
    PrivateIsCanonical();
    BlockedIsStraddling(p, PrivatePrefixes());
  }
}
