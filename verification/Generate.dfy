/** generate: from the encoded geoip list to the domestic ranges. */
module Generate {
  import opened Common
  import opened Powers
  import P = Prefixes
  import A = Aggregate
  import opened Wire
  import opened GeoIP
  import opened GenDomestic
  import opened GeoIPMeaning
  import opened PrivateRanges

  datatype Generated = NoData | Unanswered(answer: Answer) | Rendered(list: Result<seq<P.Prefix>>)

  /** The printed entries, read back one by one. */
  function RangesOf(es: seq<Entry>): seq<Range> {
    seq(|es|, i requires 0 <= i < |es| => Reparsed(es[i]))
  }

  /** What render promises of its result. */
  ghost predicate IsRendering(ranges: seq<Range>, private: seq<P.Prefix>, r: Result<seq<P.Prefix>>) {
    && (r.Ok? <==> AllAcceptable(ranges) && forall i :: 0 <= i < |ranges| ==> !Blocked(ranges[i].prefix, private))
    && (r.Ok? ==> A.IsCanonical(r.value))
    && (r.Ok? ==> forall a: P.Addr :: P.Covers(r.value, a) <==> RangesCover(ranges, a) && !P.Covers(private, a))
  }

  method Generate(data: Bytes, code: Bytes, trim: Bytes -> Bytes, upper: Bytes -> Bytes, private: seq<P.Prefix>)
    returns (g: Generated)
    requires |data| <= MAX_INT64
    ensures g.NoData? <==> data == []
    ensures data != [] ==>
              var answer := Lookup(data, upper(trim(code)), upper);
              if answer.Prefixes? then g.Rendered? && IsRendering(RangesOf(Entries(answer.cidrs)), private, g.list)
              else g == Unanswered(answer)
  {
    if data == [] {
      return NoData;
    }
    var answer := ParseGeoIP(data, code, trim, upper);
    if !answer.Prefixes? {
      return Unanswered(answer);
    }
    var list := Render(RangesOf(Entries(answer.cidrs)), private);
    g := Rendered(list);
  }

  // ---------- the prefix an entry stands for

  /** The entry's prefix, an IPv4-mapped one in its IPv4 form. */
  function Normal(c: Entry): P.Prefix
    requires IsCidr(c) && !ShortMapped(c)
  {
    PrefixOf(Emitted(c))
  }

  lemma NormalIsReparsed(c: Entry)
    requires IsCidr(c) && !ShortMapped(c)
    ensures Reparsed(Emitted(c)) == Range(Normal(c)) && SameReach(Normal(c), PrefixOf(c))
  {
    EmittedIsExact(c);
  }

  lemma {:induction false} BigEndianInjective(x: Bytes, y: Bytes)
    requires |x| == |y| && BigEndian(x) == BigEndian(y)
    ensures x == y
  {
    if x != [] {
      var a, b := x[..|x| - 1], y[..|y| - 1];
      var c, d := x[|x| - 1], y[|y| - 1];
      assert 256 * (BigEndian(a) - BigEndian(b)) == d - c;
      BigEndianInjective(a, b);
      assert x == a + [c] && y == b + [d];
    }
  }

  /** The address of sixteen bytes is in the mapped block exactly when the bytes say so. */
  lemma MappedBytes(ip: Bytes)
    requires |ip| == 16
    ensures Shr(BigEndian(ip), 32) == 0xffff <==> IsV4Mapped(ip)
  {
    var top := ip[..12];
    assert ip == top + ip[12..];
    BigEndianConcat(top, ip[12..]);
    BigEndianBound(ip[12..]);
    TopIs(BigEndian(top), 32, BigEndian(ip[12..]));
    var mapped: Bytes := [0, 0, 0, 0, 0, 0, 0, 0, 0, 0, 0xff, 0xff];
    LeadingBytes(mapped);
    if BigEndian(top) == 0xffff {
      BigEndianInjective(top, mapped);
    }
  }

  lemma NormalIsAcceptable(c: Entry)
    requires IsCidr(c) && !ShortMapped(c)
    ensures !IsMapped(Normal(c))
  {
    if |c.ip| == 16 {
      MappedBytes(c.ip);
    }
  }

  // ---------- the list that is written

  ghost predicate Printable(cidrs: seq<Entry>) {
    AllCidrs(cidrs) && forall i :: 0 <= i < |cidrs| ==> !ShortMapped(cidrs[i])
  }

  ghost predicate NormalsCover(cidrs: seq<Entry>, a: P.Addr)
    requires Printable(cidrs)
  {
    exists i :: 0 <= i < |cidrs| && P.Contains(Normal(cidrs[i]), a)
  }

  ghost predicate SomeBlocked(cidrs: seq<Entry>, private: seq<P.Prefix>)
    requires Printable(cidrs)
  {
    exists i :: 0 <= i < |cidrs| && Blocked(Normal(cidrs[i]), private)
  }

  /** Each range read back is the normal form of one of the country's prefixes. */
  lemma RangeIsNormal(cidrs: seq<Entry>, k: nat) returns (i: nat)
    requires Printable(cidrs) && k < |Entries(Placed(cidrs))|
    ensures i < |cidrs| && RangesOf(Entries(Placed(cidrs)))[k] == Range(Normal(cidrs[i]))
  {
    var e := Entries(Placed(cidrs))[k];
    PlacedIsEmitted(cidrs, e);
    i :| 0 <= i < |cidrs| && e == Emitted(cidrs[i]);
    NormalIsReparsed(cidrs[i]);
  }

  /** And each normal form is among them. */
  lemma NormalIsRange(cidrs: seq<Entry>, i: nat) returns (k: nat)
    requires Printable(cidrs) && i < |cidrs|
    ensures k < |Entries(Placed(cidrs))| && RangesOf(Entries(Placed(cidrs)))[k] == Range(Normal(cidrs[i]))
  {
    PlacedIsEmitted(cidrs, Emitted(cidrs[i]));
    k :| 0 <= k < |Entries(Placed(cidrs))| && Entries(Placed(cidrs))[k] == Emitted(cidrs[i]);
    NormalIsReparsed(cidrs[i]);
  }

  lemma RangesAreAcceptable(cidrs: seq<Entry>)
    requires Printable(cidrs)
    ensures AllAcceptable(RangesOf(Entries(Placed(cidrs))))
  {
    var ranges := RangesOf(Entries(Placed(cidrs)));
    forall k | 0 <= k < |ranges| ensures Acceptable(ranges[k]) {
      var i := RangeIsNormal(cidrs, k);
      NormalIsAcceptable(cidrs[i]);
    }
  }

  lemma RangesCoverNormals(cidrs: seq<Entry>, a: P.Addr)
    requires Printable(cidrs)
    ensures RangesCover(RangesOf(Entries(Placed(cidrs))), a) <==> NormalsCover(cidrs, a)
  {
    var ranges := RangesOf(Entries(Placed(cidrs)));
    if RangesCover(ranges, a) {
      var k :| 0 <= k < |ranges| && ranges[k].Range? && P.Contains(ranges[k].prefix, a);
      var i := RangeIsNormal(cidrs, k);
      assert P.Contains(Normal(cidrs[i]), a);
    }
    if NormalsCover(cidrs, a) {
      var i :| 0 <= i < |cidrs| && P.Contains(Normal(cidrs[i]), a);
      var k := NormalIsRange(cidrs, i);
      assert ranges[k].Range? && P.Contains(ranges[k].prefix, a);
    }
  }

  lemma RangesBlockedLikeNormals(cidrs: seq<Entry>, private: seq<P.Prefix>)
    requires Printable(cidrs)
    ensures var ranges := RangesOf(Entries(Placed(cidrs)));
            AllAcceptable(ranges) &&
            ((exists k :: 0 <= k < |ranges| && Blocked(ranges[k].prefix, private)) <==> SomeBlocked(cidrs, private))
  {
    RangesAreAcceptable(cidrs);
    var ranges := RangesOf(Entries(Placed(cidrs)));
    if k :| 0 <= k < |ranges| && Blocked(ranges[k].prefix, private) {
      var i := RangeIsNormal(cidrs, k);
      assert Blocked(Normal(cidrs[i]), private);
    }
    if SomeBlocked(cidrs, private) {
      var i :| 0 <= i < |cidrs| && Blocked(Normal(cidrs[i]), private);
      var k := NormalIsRange(cidrs, i);
      assert Blocked(ranges[k].prefix, private);
    }
  }

  /** From the encoded list to the written one. For a country in it whose prefixes can all be printed, a list is
      written exactly when none of them covers part of the private ranges. It is canonical and covers exactly
      the country's prefixes without the private addresses. */
  lemma GenerateIsExact(cs: seq<Country>, want: Bytes, upper: Bytes -> Bytes, private: seq<P.Prefix>,
                        r: Result<seq<P.Prefix>>)
    requires ListFits(cs) && want != [] && Wanted(cs, want, upper).Some?
    requires var cidrs := Wanted(cs, want, upper).value.cidrs; cidrs != [] && Printable(cidrs)
    requires var answer := Lookup(ListMessage(cs), want, upper);
             answer.Prefixes? ==> IsRendering(RangesOf(Entries(answer.cidrs)), private, r)
    ensures Lookup(ListMessage(cs), want, upper).Prefixes?
    ensures var cidrs := Wanted(cs, want, upper).value.cidrs;
            && (r.Ok? <==> !SomeBlocked(cidrs, private))
            && (r.Ok? ==> A.IsCanonical(r.value))
            && (r.Ok? ==> IsWritten(cidrs, private, r.value))
  {
    var cidrs := Wanted(cs, want, upper).value.cidrs;
    LookupInvertsEncoding(cs, want, upper);
    PlacedIsEmitted(cidrs, Emitted(cidrs[0]));
    RangesBlockedLikeNormals(cidrs, private);
    forall a: P.Addr ensures RangesCover(RangesOf(Entries(Placed(cidrs))), a) <==> NormalsCover(cidrs, a) {
      RangesCoverNormals(cidrs, a);
    }
  }

  // ---------- address by address

  /** An IPv6 prefix that holds IPv4-mapped addresses. */
  ghost predicate Spans(p: P.Prefix) {
    exists a: P.Addr :: P.Contains(p, a) && Unmap(a) != a
  }

  /** For any other prefix, and for IPv6 addresses, reaching an address is containing it. */
  lemma ReachIsContains(p: P.Prefix, b: P.Addr)
    requires Unmap(b) == b && (!Spans(p) || b.family == P.V6)
    ensures Reaches(p, b) <==> P.Contains(p, b)
  {
    if Reaches(p, b) {
      var a: P.Addr :| P.Contains(p, a) && Unmap(a) == b;
    }
  }

  /** A prefix that is not itself in the mapped block and holds one mapped address holds them all. */
  lemma SpanningHoldsAll(p: P.Prefix, b: P.Addr)
    requires Spans(p) && !IsMapped(p) && b.family == P.V4
    ensures P.Contains(p, MapUp(b)) && Reaches(p, b)
  {
    var a: P.Addr :| P.Contains(p, a) && Unmap(a) != a;
    var free := P.Free(p);
    if free <= 32 {
      SameFrom(p.addr, a.value, free, 32);
    }
    assert free > 32;
    MapUpTop(b);
    SameFrom(MapUp(b).value, a.value, 32, free);
    MapUpThenUnmap(b);
  }

  lemma MapUpTop(b: P.Addr)
    requires b.family == P.V4
    ensures MapUp(b).family == P.V6 && Shr(MapUp(b).value, 32) == 0xffff
  {
    TopIs(0xffff, 32, b.value);
  }

  ghost predicate NoneSpans(cidrs: seq<Entry>)
    requires Printable(cidrs)
  {
    forall i :: 0 <= i < |cidrs| ==> !Spans(Normal(cidrs[i]))
  }

  lemma NormalsCoverCountry(cidrs: seq<Entry>, b: P.Addr)
    requires Printable(cidrs) && Unmap(b) == b && (NoneSpans(cidrs) || b.family == P.V6)
    ensures NormalsCover(cidrs, b) <==> CountryReaches(cidrs, b)
  {
    forall i | 0 <= i < |cidrs| ensures P.Contains(Normal(cidrs[i]), b) <==> Reaches(PrefixOf(cidrs[i]), b) {
      NormalIsReparsed(cidrs[i]);
      ReachIsContains(Normal(cidrs[i]), b);
    }
  }

  lemma CoveredIsReached(cidrs: seq<Entry>, b: P.Addr)
    requires Printable(cidrs) && Unmap(b) == b && NormalsCover(cidrs, b)
    ensures CountryReaches(cidrs, b)
  {
    var i :| 0 <= i < |cidrs| && P.Contains(Normal(cidrs[i]), b);
    NormalIsReparsed(cidrs[i]);
    assert Reaches(Normal(cidrs[i]), b);
  }

  lemma SpanReachesV4(cidrs: seq<Entry>, b: P.Addr)
    requires Printable(cidrs) && !NoneSpans(cidrs) && b.family == P.V4
    ensures CountryReaches(cidrs, b)
  {
    var i :| 0 <= i < |cidrs| && Spans(Normal(cidrs[i]));
    NormalIsReparsed(cidrs[i]);
    NormalIsAcceptable(cidrs[i]);
    SpanningHoldsAll(Normal(cidrs[i]), b);
  }

  /** What generate writes: the normal prefixes without the private addresses. */
  ghost predicate IsWritten(cidrs: seq<Entry>, private: seq<P.Prefix>, list: seq<P.Prefix>)
    requires Printable(cidrs)
  {
    forall a: P.Addr :: P.Covers(list, a) <==> NormalsCover(cidrs, a) && !P.Covers(private, a)
  }

  ghost predicate RightAt(cidrs: seq<Entry>, private: seq<P.Prefix>, list: seq<P.Prefix>, b: P.Addr)
    requires Printable(cidrs)
  {
    P.Covers(list, b) <==> CountryReaches(cidrs, b) && !P.Covers(private, b)
  }

  /** The list is right at every address, IPv4-mapped ones taken as IPv4. */
  ghost predicate RightEverywhere(cidrs: seq<Entry>, private: seq<P.Prefix>, list: seq<P.Prefix>)
    requires Printable(cidrs)
  {
    forall b: P.Addr :: Unmap(b) == b ==> RightAt(cidrs, private, list, b)
  }

  ghost predicate AllPublicV4(cidrs: seq<Entry>, private: seq<P.Prefix>)
    requires Printable(cidrs)
  {
    forall b: P.Addr :: b.family == P.V4 && !P.Covers(private, b) ==> NormalsCover(cidrs, b)
  }

  /** Address by address, the written list is the country without the private addresses, IPv4-mapped ones taken as
      IPv4, exactly when none of its IPv6 prefixes holds the IPv4-mapped block, or its prefixes have all public
      IPv4 addresses anyway. */
  lemma GeneratedAddresses(cidrs: seq<Entry>, private: seq<P.Prefix>, list: seq<P.Prefix>)
    requires Printable(cidrs) && IsWritten(cidrs, private, list)
    ensures RightEverywhere(cidrs, private, list) <==> NoneSpans(cidrs) || AllPublicV4(cidrs, private)
  {
    if NoneSpans(cidrs) || AllPublicV4(cidrs, private) {
      forall b: P.Addr | Unmap(b) == b ensures RightAt(cidrs, private, list, b) {
        if NoneSpans(cidrs) || b.family == P.V6 {
          NormalsCoverCountry(cidrs, b);
        } else if NormalsCover(cidrs, b) {
          CoveredIsReached(cidrs, b);
        }
      }
    }
    if RightEverywhere(cidrs, private, list) && !NoneSpans(cidrs) {
      forall b: P.Addr | b.family == P.V4 && !P.Covers(private, b) ensures NormalsCover(cidrs, b) {
        SpanReachesV4(cidrs, b);
        assert RightAt(cidrs, private, list, b);
      }
    }
  }

  /** ::/0 as the only prefix of a country: as soon as one IPv4 address is public, the list is wrong there. */
  lemma WholeV6IsWrong(private: seq<P.Prefix>, list: seq<P.Prefix>, b: P.Addr) returns (cidrs: seq<Entry>)
    requires b.family == P.V4 && !P.Covers(private, b)
    ensures Printable(cidrs) && |cidrs| == 1 && cidrs[0].prefix == 0
    ensures IsWritten(cidrs, private, list) ==> !RightEverywhere(cidrs, private, list)
  {
    var ip: Bytes := [0, 0, 0, 0, 0, 0, 0, 0, 0, 0, 0, 0, 0, 0, 0, 0];
    assert ip[..12][10] == 0;
    cidrs := [Entry(ip, 0)];
    var p := Normal(cidrs[0]);
    ZerosAreZero(ip);
    WholeSpans(p, b);
    assert !NormalsCover(cidrs, b);
    if IsWritten(cidrs, private, list) {
      GeneratedAddresses(cidrs, private, list);
    }
  }

  lemma WholeSpans(p: P.Prefix, b: P.Addr)
    requires p.family == P.V6 && p.bits == 0 && p.addr == 0 && b.family == P.V4
    ensures Spans(p)
  {
    var a := MapUp(b);
    ShrIs(a.value, 128, 0);
    ShrIs(0, 128, 0);
    MapUpThenUnmap(b);
    assert P.Contains(p, a) && Unmap(a) != a;
  }

  /** Against the program's own private ranges, a list is written exactly when no prefix of the country has both
      private and public addresses. */
  lemma OwnListIsWritten(cidrs: seq<Entry>)
    requires Printable(cidrs)
    ensures !SomeBlocked(cidrs, PrivatePrefixes()) <==>
              forall i :: 0 <= i < |cidrs| ==> !Straddles(Normal(cidrs[i]), PrivatePrefixes())
  {
    forall i | 0 <= i < |cidrs|
      ensures Blocked(Normal(cidrs[i]), PrivatePrefixes()) <==> Straddles(Normal(cidrs[i]), PrivatePrefixes())
    {
      StopsExactlyOnStraddling(Normal(cidrs[i]));
    }
  }
}
