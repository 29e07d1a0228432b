/** Address prefixes as the Go netip package has them, and what each covers. */
module Prefixes {
  import opened Powers
  import opened Blocks

  datatype Family = V4 | V6

  function Width(f: Family): nat {
    if f == V4 then 32 else 128
  }

  datatype RawAddr = Addr(family: Family, value: nat)
  type Addr = a: RawAddr | a.value < Pow2(Width(a.family)) witness Addr(V4, 0)

  datatype RawPrefix = Prefix(family: Family, addr: nat, bits: nat)
  type Prefix = p: RawPrefix | p.bits <= Width(p.family) && p.addr < Pow2(Width(p.family))
    witness Prefix(V4, 0, 0)

  /** How many low bits of an address the prefix leaves free. */
  function Free(p: Prefix): nat {
    Width(p.family) - p.bits
  }

  /** Addr: the prefix's own address, host bits and all. */
  function AddrOf(p: Prefix): Addr {
    Addr(p.family, p.addr)
  }

  /** Contains: same family, and the leading bits agree. */
  predicate Contains(p: Prefix, a: Addr) {
    p.family == a.family && Shr(p.addr, Free(p)) == Shr(a.value, Free(p))
  }

  /** Overlaps: some address is in both, which one of the two shorter-prefix tests tells. */
  predicate Overlaps(p: Prefix, q: Prefix) {
    if p.bits <= q.bits then Contains(p, AddrOf(q)) else Contains(q, AddrOf(p))
  }

  /** No host bits set. */
  predicate IsMasked(p: Prefix) {
    Shr(p.addr, Free(p)) * Pow2(Free(p)) == p.addr
  }

  /** Masked clears the host bits. */
  function Masked(p: Prefix): (m: Prefix)
    ensures m.family == p.family && m.bits == p.bits && IsMasked(m)
    ensures forall a: Addr :: Contains(m, a) <==> Contains(p, a)
  {
    var high := Shr(p.addr, Free(p));
    ShrBounds(p.addr, Free(p));
    ShrIs(high * Pow2(Free(p)), Free(p), high);
    Prefix(p.family, high * Pow2(Free(p)), p.bits)
  }

  /** The prefix one bit shorter, from which both halves come. */
  function Shortened(p: Prefix): (m: Prefix)
    requires p.bits > 0
    ensures m.bits == p.bits - 1 && IsMasked(m)
  {
    Masked(Prefix(p.family, p.addr, p.bits - 1))
  }

  /** Addr.Compare then Bits, as one "not after" test. */
  predicate NotAfter(p: Prefix, q: Prefix) {
    if p.family != q.family then p.family == V4
    else if p.addr != q.addr then p.addr < q.addr
    else p.bits <= q.bits
  }

  ghost predicate Covers(ps: seq<Prefix>, a: Addr) {
    exists i :: 0 <= i < |ps| && Contains(ps[i], a)
  }

  ghost predicate SameAddresses(ps: seq<Prefix>, qs: seq<Prefix>) {
    forall a: Addr :: Covers(ps, a) <==> Covers(qs, a)
  }

  // ---------- prefixes on the number line

  /** IPv4 addresses come first on the line, and no IPv4 block has a neighbour in IPv6. */
  ghost function Base(f: Family): nat {
    if f == V4 then 0 else Pow2(128)
  }

  ghost function Position(a: Addr): nat {
    Base(a.family) + a.value
  }

  ghost function FamilyBlock(f: Family): Block {
    if f == V4 then Block(0, 32) else Block(1, 128)
  }

  /** The positions of the addresses a prefix contains. */
  ghost function BlockOf(p: Prefix): Block {
    Block(Shr(Position(AddrOf(p)), Free(p)), Free(p))
  }

  ghost function BlocksOf(ps: seq<Prefix>): (bs: seq<Block>)
    ensures |bs| == |ps|
    ensures forall i :: 0 <= i < |ps| ==> bs[i] == BlockOf(ps[i])
  {
    seq(|ps|, i requires 0 <= i < |ps| => BlockOf(ps[i]))
  }

  lemma BaseIsMultiple(f: Family, k: nat) returns (m: nat)
    requires k <= Width(f)
    ensures Base(f) == m * Pow2(k)
  {
    if f == V6 {
      m := Pow2(128 - k);
      Pow2Sum(128 - k, k);
    } else {
      m := 0;
    }
  }

  lemma BlockStart(p: Prefix)
    ensures BlockOf(p).Lo() == Base(p.family) + Shr(p.addr, Free(p)) * Pow2(Free(p))
  {
    var m := BaseIsMultiple(p.family, Free(p));
    ShrOffset(m, p.addr, Free(p));
  }

  lemma FamiliesApart()
    ensures FamilyBlock(V4).Hi() < FamilyBlock(V6).Lo()
  {
    Pow2Grows(32, 128);
  }

  lemma InItsFamily(p: Prefix)
    ensures BlockOf(p).Inside(FamilyBlock(p.family))
  {
    ShrBounds(Position(AddrOf(p)), Free(p));
    NestedOrApart(BlockOf(p), FamilyBlock(p.family));
  }

  lemma ContainsIsHas(p: Prefix, a: Addr)
    ensures Contains(p, a) <==> BlockOf(p).Has(Position(a))
  {
    if p.family == a.family {
      BlockStart(p);
      ShrBounds(a.value, Free(p));
      if BlockOf(p).Has(Position(a)) {
        ShrIs(a.value, Free(p), Shr(p.addr, Free(p)));
      }
    } else {
      InItsFamily(p);
      FamiliesApart();
    }
  }

  lemma SameBlock(p: Prefix, q: Prefix)
    requires p.family == q.family && p.bits == q.bits && Contains(p, AddrOf(q))
    ensures BlockOf(p) == BlockOf(q)
  {
    ContainsIsHas(p, AddrOf(q));
    ShrIs(Position(AddrOf(q)), Free(p), BlockOf(p).n);
  }

  lemma MaskedBlock(p: Prefix)
    ensures BlockOf(Masked(p)) == BlockOf(p)
  {
    assert Contains(Masked(p), AddrOf(p));
    SameBlock(Masked(p), p);
  }

  lemma ShortenedBlock(p: Prefix)
    requires p.bits > 0
    ensures BlockOf(Shortened(p)) == BlockOf(p).Parent()
  {
    MaskedBlock(Prefix(p.family, p.addr, p.bits - 1));
  }

  lemma SameBlockSamePrefix(p: Prefix, q: Prefix)
    requires IsMasked(p) && IsMasked(q) && BlockOf(p) == BlockOf(q)
    ensures p == q
  {
    BlockStart(p);
    BlockStart(q);
    ContainsIsHas(p, AddrOf(q));
  }

  lemma CoversIsCovered(ps: seq<Prefix>, a: Addr)
    ensures Covers(ps, a) <==> Covered(BlocksOf(ps), Position(a))
  {
    forall i | 0 <= i < |ps| ensures Contains(ps[i], a) <==> BlocksOf(ps)[i].Has(Position(a)) {
      ContainsIsHas(ps[i], a);
    }
  }

  /** A covered position is the position of an address. */
  lemma CoveredHasAddress(ps: seq<Prefix>, x: int) returns (a: Addr)
    requires Covered(BlocksOf(ps), x)
    ensures Position(a) == x
  {
    var i :| 0 <= i < |ps| && BlocksOf(ps)[i].Has(x);
    var f := ps[i].family;
    InItsFamily(ps[i]);
    assert FamilyBlock(f).Has(x);
    a := Addr(f, x - Base(f));
  }

  lemma SameAddressesIsSameCover(ps: seq<Prefix>, qs: seq<Prefix>)
    ensures SameAddresses(ps, qs) <==> SameCover(BlocksOf(ps), BlocksOf(qs))
  {
    if SameAddresses(ps, qs) {
      forall x: int ensures Covered(BlocksOf(ps), x) <==> Covered(BlocksOf(qs), x) {
        if Covered(BlocksOf(ps), x) || Covered(BlocksOf(qs), x) {
          var a := CoveredHasAddress(if Covered(BlocksOf(ps), x) then ps else qs, x);
          CoversIsCovered(ps, a);
          CoversIsCovered(qs, a);
        }
      }
    }
    if SameCover(BlocksOf(ps), BlocksOf(qs)) {
      forall a: Addr ensures Covers(ps, a) <==> Covers(qs, a) {
        CoversIsCovered(ps, a);
        CoversIsCovered(qs, a);
      }
    }
  }
}
