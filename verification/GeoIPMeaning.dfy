/** What ParseGeoIP returns means: the entries of an encoded list, and the addresses they cover. */
module GeoIPMeaning {
  import opened Common
  import opened Powers
  import P = Prefixes
  import opened Wire
  import opened GeoIP
  import opened GenDomestic

  // ---------- an encoded list

  datatype Country = Country(code: Bytes, cidrs: seq<Entry>)

  /** A default value is left off the wire: no field for an empty string or a zero length. */
  function CidrFields(c: Entry): seq<Field> {
    (if c.ip == [] then [] else [BytesField(1, c.ip)]) + (if c.prefix == 0 then [] else [VarintField(2, c.prefix)])
  }

  function CidrMessage(c: Entry): Bytes {
    EncodeAll(CidrFields(c))
  }

  function CodeFields(c: Country): seq<Field> {
    if c.code == [] then [] else [BytesField(1, c.code)]
  }

  function CountryMessage(c: Country): Bytes {
    EncodeAll(CodeFields(c) + Tagged(2, CidrMessages(c.cidrs)))
  }

  function ListMessage(cs: seq<Country>): Bytes {
    EncodeAll(Tagged(1, CountryMessages(cs)))
  }

  function CidrMessages(cidrs: seq<Entry>): seq<Bytes> {
    seq(|cidrs|, i requires 0 <= i < |cidrs| => CidrMessage(cidrs[i]))
  }

  function CountryMessages(cs: seq<Country>): seq<Bytes> {
    seq(|cs|, i requires 0 <= i < |cs| => CountryMessage(cs[i]))
  }

  /** The payloads, each as a length-delimited field with this number. */
  function Tagged(num: nat, payloads: seq<Bytes>): (fs: seq<Field>)
    ensures |fs| == |payloads|
    ensures forall i :: 0 <= i < |fs| ==> fs[i] == BytesField(num, payloads[i])
  {
    seq(|payloads|, i requires 0 <= i < |payloads| => BytesField(num, payloads[i]))
  }

  lemma {:induction false} PayloadsOfTagged(num: nat, payloads: seq<Bytes>, other: nat)
    ensures Payloads(Tagged(num, payloads), other) == if num == other then payloads else []
  {
    if payloads != [] {
      var init, last := payloads[..|payloads| - 1], payloads[|payloads| - 1];
      PayloadsOfTagged(num, init, other);
      assert Tagged(num, payloads)[..|payloads| - 1] == Tagged(num, init);
      assert payloads == init + [last];
    }
  }

  /** The numbers and lengths fit the wire. */
  predicate CidrFits(c: Entry) {
    c.prefix <= MAX_UINT64 && |c.ip| <= MAX_INT64
  }

  predicate CountryFits(c: Country) {
    && |c.code| <= MAX_INT64
    && forall i :: 0 <= i < |c.cidrs| ==> CidrFits(c.cidrs[i]) && |CidrMessage(c.cidrs[i])| <= MAX_INT64
  }

  predicate ListFits(cs: seq<Country>) {
    forall i :: 0 <= i < |cs| ==> CountryFits(cs[i]) && |CountryMessage(cs[i])| <= MAX_INT64
  }

  lemma CidrIsRead(c: Entry)
    requires CidrFits(c)
    ensures ReadCidr(CidrMessage(c)) == if c.ip == [] then None else Some(c)
  {
    RoundTrip(CidrFields(c));
    CidrPayloads(c);
    CidrLength(c);
  }

  lemma CidrPayloads(c: Entry)
    ensures Payloads(CidrFields(c), 1) == if c.ip == [] then [] else [c.ip]
  {
    PayloadsConcat(if c.ip == [] then [] else [BytesField(1, c.ip)],
                   if c.prefix == 0 then [] else [VarintField(2, c.prefix)], 1);
    PayloadsOfOne(BytesField(1, c.ip), 1);
    PayloadsOfOne(VarintField(2, c.prefix), 1);
  }

  lemma CidrLength(c: Entry)
    ensures FirstVarint(CidrFields(c), 2) == if c.prefix == 0 then None else Some(c.prefix)
  {
    FirstVarintSkips(if c.ip == [] then [] else [BytesField(1, c.ip)],
                     if c.prefix == 0 then [] else [VarintField(2, c.prefix)], 2);
  }

  lemma FirstVarintSkips(fs: seq<Field>, gs: seq<Field>, num: nat)
    requires |fs| <= 1 && forall i :: 0 <= i < |fs| ==> fs[i].BytesField?
    ensures FirstVarint(fs + gs, num) == FirstVarint(gs, num)
  {
    if fs == [] {
      assert fs + gs == gs;
    } else {
      assert (fs + gs)[1..] == gs;
    }
  }

  /** The cidrs of a country, put where the parser puts them. */
  function Placed(cidrs: seq<Entry>): CIDRSet {
    if cidrs == [] then NO_CIDRS
    else Place(Placed(cidrs[..|cidrs| - 1]), cidrs[|cidrs| - 1].ip, cidrs[|cidrs| - 1].prefix)
  }

  lemma {:induction false} CollectPlaces(cidrs: seq<Entry>)
    requires forall i :: 0 <= i < |cidrs| ==> CidrFits(cidrs[i])
    ensures Collect(CidrMessages(cidrs)) == Placed(cidrs)
  {
    if cidrs != [] {
      var init, last := cidrs[..|cidrs| - 1], cidrs[|cidrs| - 1];
      CollectPlaces(init);
      var ms := CidrMessages(cidrs);
      assert ms[..|ms| - 1] == CidrMessages(init);
      CidrIsRead(last);
    }
  }

  lemma CountryPayloads(c: Country, num: nat)
    requires num == 1 || num == 2
    ensures Payloads(CodeFields(c) + Tagged(2, CidrMessages(c.cidrs)), num)
         == if num == 2 then CidrMessages(c.cidrs) else if c.code == [] then [] else [c.code]
  {
    var head, tail := CodeFields(c), Tagged(2, CidrMessages(c.cidrs));
    PayloadsConcat(head, tail, num);
    PayloadsOfOne(BytesField(1, c.code), num);
    PayloadsOfTagged(2, CidrMessages(c.cidrs), num);
  }

  lemma CountryIsRead(c: Country, want: Bytes, upper: Bytes -> Bytes)
    requires CountryFits(c)
    ensures Parse(CountryMessage(c)).Some?
    ensures IsCountry(CountryMessage(c), want, upper) <==> c.code != [] && upper(c.code) == want
    ensures Payloads(Parse(CountryMessage(c)).value, 2) == CidrMessages(c.cidrs)
  {
    RoundTrip(CodeFields(c) + Tagged(2, CidrMessages(c.cidrs)));
    CountryPayloads(c, 1);
    CountryPayloads(c, 2);
  }

  /** The first country with the wanted code, if any. */
  function Wanted(cs: seq<Country>, want: Bytes, upper: Bytes -> Bytes): Option<Country> {
    if cs == [] then None
    else if cs[0].code != [] && upper(cs[0].code) == want then Some(cs[0])
    else Wanted(cs[1..], want, upper)
  }

  function AnswerFor(c: Option<Country>): Answer {
    if c.None? then NoCountry
    else if Placed(c.value.cidrs) == NO_CIDRS then NoPrefixes
    else Prefixes(Placed(c.value.cidrs))
  }

  lemma {:induction false} SearchFinds(cs: seq<Country>, want: Bytes, upper: Bytes -> Bytes)
    requires ListFits(cs)
    ensures Search(CountryMessages(cs), want, upper) == AnswerFor(Wanted(cs, want, upper))
  {
    if cs != [] {
      var ms := CountryMessages(cs);
      assert ms[1..] == CountryMessages(cs[1..]);
      SearchFinds(cs[1..], want, upper);
      CountryIsRead(cs[0], want, upper);
      CollectPlaces(cs[0].cidrs);
    }
  }

  /** Looking a country up in an encoded list gives the cidrs of the first country with that code. */
  lemma LookupInvertsEncoding(cs: seq<Country>, want: Bytes, upper: Bytes -> Bytes)
    requires ListFits(cs) && want != []
    ensures Lookup(ListMessage(cs), want, upper) == if cs == [] then NoEntries else AnswerFor(Wanted(cs, want, upper))
  {
    var fs := Tagged(1, CountryMessages(cs));
    RoundTrip(fs);
    PayloadsOfTagged(1, CountryMessages(cs), 1);
    SearchFinds(cs, want, upper);
  }

  // ---------- the addresses an entry stands for

  function BigEndian(ip: Bytes): nat {
    if ip == [] then 0 else 256 * BigEndian(ip[..|ip| - 1]) + ip[|ip| - 1]
  }

  lemma {:induction false} BigEndianBound(ip: Bytes)
    ensures BigEndian(ip) < Pow2(8 * |ip|)
  {
    if ip != [] {
      var k := 8 * |ip| - 8;
      BigEndianBound(ip[..|ip| - 1]);
      Pow2Sum(8, k);
      Pow2Of16();
    }
  }

  lemma {:induction false} BigEndianConcat(a: Bytes, b: Bytes)
    ensures BigEndian(a + b) == BigEndian(a) * Pow2(8 * |b|) + BigEndian(b)
  {
    if b == [] {
      assert a + b == a;
    } else {
      var init, last := b[..|b| - 1], b[|b| - 1];
      assert (a + b)[..|a + b| - 1] == a + init;
      BigEndianConcat(a, init);
      Pow2Sum(8, 8 * |init|);
      Pow2Of16();
      TimesThrice(BigEndian(a), 256, Pow2(8 * |init|));
    }
  }

  lemma TimesThrice(x: nat, y: nat, z: nat)
    ensures x * (y * z) == y * (x * z)
  {
  }

  /** The address and length make a prefix. */
  predicate IsCidr(c: Entry) {
    (|c.ip| == 4 && c.prefix <= 32) || (|c.ip| == 16 && c.prefix <= 128)
  }

  function PrefixOf(c: Entry): P.Prefix
    requires IsCidr(c)
  {
    BigEndianBound(c.ip);
    P.Prefix(if |c.ip| == 4 then P.V4 else P.V6, BigEndian(c.ip), c.prefix)
  }

  /** What netip.ParsePrefix makes of the printed entry. IP.String prints an IPv4-mapped address in
      its IPv4 form. */
  function Reparsed(c: Entry): Range {
    if IsV4Mapped(c.ip) then
      (if c.prefix <= 32 then Range(PrefixOf(Entry(c.ip[12..], c.prefix))) else BadRange)
    else if IsCidr(c) then Range(PrefixOf(c))
    else BadRange
  }

  /** The IPv4 form of an IPv4-mapped address; any other address as it is. */
  function Unmap(a: P.Addr): P.Addr {
    if a.family == P.V6 && Shr(a.value, 32) == 0xffff then P.Addr(P.V4, Low(a.value, 32)) else a
  }

  /** b is the IPv4-normalised form of an address the prefix contains. */
  ghost predicate Reaches(p: P.Prefix, b: P.Addr) {
    exists a: P.Addr :: P.Contains(p, a) && Unmap(a) == b
  }

  ghost predicate SameReach(p: P.Prefix, q: P.Prefix) {
    forall b: P.Addr :: Reaches(p, b) <==> Reaches(q, b)
  }

  /** A mapped address is 0xffff above its low 32 bits. */
  lemma MappedValue(ip: Bytes)
    requires IsV4Mapped(ip)
    ensures BigEndian(ip) == 0xffff * Pow2(32) + BigEndian(ip[12..])
  {
    assert ip == ip[..12] + ip[12..];
    BigEndianConcat(ip[..12], ip[12..]);
    LeadingBytes(ip[..12]);
  }

  lemma LeadingBytes(b: Bytes)
    requires b == [0, 0, 0, 0, 0, 0, 0, 0, 0, 0, 0xff, 0xff]
    ensures BigEndian(b) == 0xffff
  {
    assert b == b[..10] + [0xff, 0xff];
    BigEndianConcat(b[..10], [0xff, 0xff]);
    ZerosAreZero(b[..10]);
    assert BigEndian([0xff, 0xff]) == 0xffff by {
      assert [0xff, 0xff][..1] == [0xff];
      assert [0xff][..0] == [];
    }
  }

  lemma {:induction false} ZerosAreZero(b: Bytes)
    requires forall i :: 0 <= i < |b| ==> b[i] == 0
    ensures BigEndian(b) == 0
  {
    if b != [] {
      ZerosAreZero(b[..|b| - 1]);
    }
  }

  /** The IPv4-mapped form of an IPv4 address. */
  function MapUp(a: P.Addr): P.Addr
    requires a.family == P.V4
  {
    MappedFits(a.value);
    P.Addr(P.V6, 0xffff * Pow2(32) + a.value)
  }

  lemma MappedFits(x: nat)
    requires x < Pow2(32)
    ensures 0xffff * Pow2(32) + x < Pow2(128)
  {
    Pow2Of16();
    TopFits(0xffff, 32, x, 16, 128);
  }

  lemma MapUpThenUnmap(a: P.Addr)
    requires a.family == P.V4
    ensures Unmap(MapUp(a)) == a
  {
    TopIs(0xffff, 32, a.value);
  }

  lemma UnmapThenMapUp(a: P.Addr)
    requires a.family == P.V6 && Shr(a.value, 32) == 0xffff
    ensures Unmap(a).family == P.V4 && MapUp(Unmap(a)) == a
  {
  }

  lemma MappedContains(c: Entry, a: P.Addr)
    requires IsV4Mapped(c.ip) && 96 <= c.prefix <= 128 && a.family == P.V4
    ensures P.Contains(PrefixOf(c), MapUp(a)) <==> P.Contains(PrefixOf(Entry(c.ip[12..], c.prefix - 96)), a)
  {
    MappedBits(c.ip, a.value, 128 - c.prefix);
  }

  lemma MappedBits(ip: Bytes, x: nat, k: nat)
    requires IsV4Mapped(ip) && k <= 32
    ensures Shr(BigEndian(ip), k) == Shr(0xffff * Pow2(32) + x, k) <==> Shr(BigEndian(ip[12..]), k) == Shr(x, k)
  {
    MappedValue(ip);
    UnderTop(0xffff, 32, BigEndian(ip[12..]), x, k);
  }

  lemma MappedTop(ip: Bytes)
    requires IsV4Mapped(ip)
    ensures Shr(BigEndian(ip), 32) == 0xffff
  {
    MappedValue(ip);
    BigEndianBound(ip[12..]);
    TopIs(0xffff, 32, BigEndian(ip[12..]));
  }

  lemma MappedContainsOnlyMapped(c: Entry, a: P.Addr)
    requires IsV4Mapped(c.ip) && 96 <= c.prefix <= 128 && P.Contains(PrefixOf(c), a)
    ensures a.family == P.V6 && Shr(a.value, 32) == 0xffff
  {
    MappedTop(c.ip);
    SameFrom(BigEndian(c.ip), a.value, 128 - c.prefix, 32);
  }

  /** A mapped prefix of length 96 or more reaches exactly what its IPv4 form contains. */
  lemma MappedReach(c: Entry)
    requires IsV4Mapped(c.ip) && 96 <= c.prefix <= 128
    ensures SameReach(PrefixOf(Entry(c.ip[12..], c.prefix - 96)), PrefixOf(c))
  {
    var p4, p6 := PrefixOf(Entry(c.ip[12..], c.prefix - 96)), PrefixOf(c);
    forall b: P.Addr | Reaches(p4, b) ensures Reaches(p6, b) {
      var a: P.Addr :| P.Contains(p4, a) && Unmap(a) == b;
      MappedContains(c, a);
      MapUpThenUnmap(a);
    }
    forall b: P.Addr | Reaches(p6, b) ensures Reaches(p4, b) {
      var a: P.Addr :| P.Contains(p6, a) && Unmap(a) == b;
      MappedContainsOnlyMapped(c, a);
      UnmapThenMapUp(a);
      MappedContains(c, b);
      assert P.Contains(p4, b) && Unmap(b) == b;
    }
  }

  /** The address one mapped block below: not mapped, and the same from bit 33 on. */
  lemma BelowMapped(ip: Bytes, k: nat) returns (y: nat)
    requires IsV4Mapped(ip) && k >= 33
    ensures y <= BigEndian(ip) && Shr(y, 32) == 0xfffe && Shr(y, k) == Shr(BigEndian(ip), k)
  {
    MappedValue(ip);
    BigEndianBound(ip[12..]);
    y := NextTop(0x7fff, 32, BigEndian(ip[12..]), k);
  }

  /** A mapped prefix shorter than 96 reaches an IPv6 address, which no IPv4 text can. */
  lemma ShortMappedReachesV6(c: Entry) returns (b: P.Addr)
    requires IsV4Mapped(c.ip) && c.prefix < 96
    ensures b.family == P.V6 && Reaches(PrefixOf(c), b)
  {
    var y := BelowMapped(c.ip, 128 - c.prefix);
    BigEndianBound(c.ip);
    b := P.Addr(P.V6, y);
    assert P.Contains(PrefixOf(c), b) && Unmap(b) == b;
  }

  predicate ShortMapped(c: Entry) {
    IsV4Mapped(c.ip) && c.prefix < 96
  }

  /** The entry the parser emits for an address and length. */
  function Emitted(c: Entry): Entry {
    if IsV4Mapped(c.ip) && c.prefix >= 96 then Entry(c.ip[12..], c.prefix - 96) else c
  }

  /** The printed entry stands for the same addresses, IPv4-mapped ones taken as IPv4, exactly when
      it is not an IPv4-mapped address with a length under 96. */
  lemma EmittedIsExact(c: Entry)
    requires IsCidr(c)
    ensures !ShortMapped(c) <==>
              Reparsed(Emitted(c)).Range? && SameReach(Reparsed(Emitted(c)).prefix, PrefixOf(c))
  {
    if ShortMapped(c) {
      var b := ShortMappedReachesV6(c);
      if c.prefix <= 32 {
        var p := PrefixOf(Entry(c.ip[12..], c.prefix));
        assert !Reaches(p, b);
      }
    } else if IsV4Mapped(c.ip) {
      MappedReach(c);
    }
  }

  // ---------- a whole country

  predicate AllCidrs(cidrs: seq<Entry>) {
    forall i :: 0 <= i < |cidrs| ==> IsCidr(cidrs[i])
  }

  function Entries(s: CIDRSet): seq<Entry> {
    s.v4 + s.v6
  }

  lemma InEntries(s: CIDRSet, e: Entry)
    ensures e in Entries(s) <==> e in s.v4 || e in s.v6
  {
  }

  /** The entries with addresses of n bytes, in their order. */
  function OfLength(es: seq<Entry>, n: nat): seq<Entry> {
    if es == [] then []
    else OfLength(es[..|es| - 1], n) + if |es[|es| - 1].ip| == n then [es[|es| - 1]] else []
  }

  /** What each cidr is turned into. */
  function AllEmitted(cidrs: seq<Entry>): seq<Entry> {
    seq(|cidrs|, i requires 0 <= i < |cidrs| => Emitted(cidrs[i]))
  }

  /** The two lists are the families: IPv4 addresses and mapped ones in their IPv4 form in one, the other IPv6
      addresses in the other, each in the country's order. Addresses of other lengths are in neither. */
  lemma {:induction false} PlacedByFamily(cidrs: seq<Entry>)
    ensures Placed(cidrs).v4 == OfLength(AllEmitted(cidrs), 4) && Placed(cidrs).v6 == OfLength(AllEmitted(cidrs), 16)
  {
    if cidrs != [] {
      var init := cidrs[..|cidrs| - 1];
      PlacedByFamily(init);
      assert AllEmitted(cidrs)[..|cidrs| - 1] == AllEmitted(init);
    }
  }

  /** In any collected set, from whatever bytes. */
  predicate FamiliesApart(s: CIDRSet) {
    && (forall i :: 0 <= i < |s.v4| ==> |s.v4[i].ip| == 4)
    && (forall i :: 0 <= i < |s.v6| ==> |s.v6[i].ip| == 16 && !(IsV4Mapped(s.v6[i].ip) && s.v6[i].prefix >= 96))
  }

  lemma {:induction false} CollectedByFamily(cidrs: seq<Bytes>)
    ensures FamiliesApart(Collect(cidrs))
  {
    if cidrs != [] {
      CollectedByFamily(cidrs[..|cidrs| - 1]);
    }
  }

  lemma {:induction false} SearchedByFamily(entries: seq<Bytes>, want: Bytes, upper: Bytes -> Bytes)
    ensures var r := Search(entries, want, upper);
            r.Prefixes? ==> FamiliesApart(r.cidrs) && |r.cidrs.v4| + |r.cidrs.v6| > 0
  {
    if entries != [] {
      if IsCountry(entries[0], want, upper) {
        CollectedByFamily(Payloads(Parse(entries[0]).value, 2));
      } else {
        SearchedByFamily(entries[1..], want, upper);
      }
    }
  }

  /** Whatever the data, what a lookup returns is never empty, and has each address in its family's list. */
  lemma LookupByFamily(data: Bytes, want: Bytes, upper: Bytes -> Bytes)
    ensures var r := Lookup(data, want, upper);
            r.Prefixes? ==> FamiliesApart(r.cidrs) && |r.cidrs.v4| + |r.cidrs.v6| > 0
  {
    if want != [] && Parse(data).Some? {
      SearchedByFamily(Payloads(Parse(data).value, 1), want, upper);
    }
  }

  /** The result holds what each cidr is turned into, and nothing else. */
  lemma {:induction false} PlacedIsEmitted(cidrs: seq<Entry>, e: Entry)
    requires AllCidrs(cidrs)
    ensures e in Entries(Placed(cidrs)) <==> exists i :: 0 <= i < |cidrs| && e == Emitted(cidrs[i])
  {
    if cidrs != [] {
      var init, last := cidrs[..|cidrs| - 1], cidrs[|cidrs| - 1];
      PlacedIsEmitted(init, e);
      InEntries(Placed(init), e);
      InEntries(Placed(cidrs), e);
      assert IsCidr(last);
      assert e in Entries(Placed(cidrs)) <==> e in Entries(Placed(init)) || e == Emitted(last);
      if i :| 0 <= i < |cidrs| && e == Emitted(cidrs[i]) {
        assert i < |init| ==> init[i] == cidrs[i];
      }
      if i :| 0 <= i < |init| && e == Emitted(init[i]) {
        assert cidrs[i] == init[i];
      }
    }
  }

  ghost predicate EntriesReach(es: seq<Entry>, b: P.Addr) {
    exists e :: e in es && Reparsed(e).Range? && Reaches(Reparsed(e).prefix, b)
  }

  ghost predicate CountryReaches(cidrs: seq<Entry>, b: P.Addr)
    requires AllCidrs(cidrs)
  {
    exists i :: 0 <= i < |cidrs| && Reaches(PrefixOf(cidrs[i]), b)
  }

  /** Entries of a country whose cidrs are valid and not short mapped ones: every entry parses, and
      together they stand for exactly the country's addresses, IPv4-mapped ones taken as IPv4. */
  lemma EntriesAreExact(cidrs: seq<Entry>, b: P.Addr)
    requires AllCidrs(cidrs) && forall i :: 0 <= i < |cidrs| ==> !ShortMapped(cidrs[i])
    ensures forall e :: e in Entries(Placed(cidrs)) ==> Reparsed(e).Range?
    ensures EntriesReach(Entries(Placed(cidrs)), b) <==> CountryReaches(cidrs, b)
  {
    var es := Entries(Placed(cidrs));
    forall e | e in es
      ensures Reparsed(e).Range?
      ensures Reaches(Reparsed(e).prefix, b) ==> CountryReaches(cidrs, b)
    {
      PlacedIsEmitted(cidrs, e);
      var i :| 0 <= i < |cidrs| && e == Emitted(cidrs[i]);
      EmittedIsExact(cidrs[i]);
    }
    if CountryReaches(cidrs, b) {
      var i :| 0 <= i < |cidrs| && Reaches(PrefixOf(cidrs[i]), b);
      PlacedIsEmitted(cidrs, Emitted(cidrs[i]));
      EmittedIsExact(cidrs[i]);
    }
  }

  /** End to end: an encoded list, looked up by code. */
  lemma LookupIsExact(cs: seq<Country>, want: Bytes, upper: Bytes -> Bytes, b: P.Addr)
    requires ListFits(cs) && want != [] && Wanted(cs, want, upper).Some?
    requires var cidrs := Wanted(cs, want, upper).value.cidrs;
             cidrs != [] && AllCidrs(cidrs) && forall i :: 0 <= i < |cidrs| ==> !ShortMapped(cidrs[i])
    ensures var r := Lookup(ListMessage(cs), want, upper);
            && r.Prefixes?
            && (EntriesReach(Entries(r.cidrs), b) <==> CountryReaches(Wanted(cs, want, upper).value.cidrs, b))
  {
    var cidrs := Wanted(cs, want, upper).value.cidrs;
    LookupInvertsEncoding(cs, want, upper);
    PlacedIsEmitted(cidrs, Emitted(cidrs[0]));
    EntriesAreExact(cidrs, b);
  }
}
