/** ParseGeoIP: one country's prefixes out of a GeoIPList message. */
module GeoIP {
  import opened Common
  import opened Wire

  /** One line of the result, before it is printed as address/length. */
  datatype Entry = Entry(ip: Bytes, prefix: nat)

  datatype CIDRSet = CIDRSet(v4: seq<Entry>, v6: seq<Entry>)

  datatype Answer =
    | Prefixes(cidrs: CIDRSet)
    | EmptyCode
    | BadList
    | NoEntries
    | NoPrefixes
    | NoCountry

  const NO_CIDRS := CIDRSet([], [])

  /** To4: the sixteen bytes are ten zeros, two 0xff and an IPv4 address. */
  predicate IsV4Mapped(ip: Bytes) {
    |ip| == 16 && ip[..12] == [0, 0, 0, 0, 0, 0, 0, 0, 0, 0, 0xff, 0xff]
  }

  /** Where one address and prefix length go. */
  function Place(out: CIDRSet, ip: Bytes, prefix: nat): CIDRSet {
    if |ip| == 4 then out.(v4 := out.v4 + [Entry(ip, prefix)])
    else if |ip| == 16 then
      if IsV4Mapped(ip) && prefix >= 96 then out.(v4 := out.v4 + [Entry(ip[12..], prefix - 96)])
      else out.(v6 := out.v6 + [Entry(ip, prefix)])
    else out
  }

  /** What a CIDR message says: its first address, and its first length or 0. */
  function ReadCidr(c: Bytes): Option<Entry> {
    match Parse(c)
    case None => None
    case Some(fs) =>
      var ips := Payloads(fs, 1);
      if ips == [] then None
      else Some(Entry(ips[0], match FirstVarint(fs, 2) case None => 0 case Some(v) => v))
  }

  function Collect(cidrs: seq<Bytes>): CIDRSet {
    if cidrs == [] then NO_CIDRS
    else
      var out := Collect(cidrs[..|cidrs| - 1]);
      match ReadCidr(cidrs[|cidrs| - 1])
      case None => out
      case Some(e) => Place(out, e.ip, e.prefix)
  }

  /** The entry is well framed and carries the wanted code. */
  predicate IsCountry(entry: Bytes, want: Bytes, upper: Bytes -> Bytes) {
    match Parse(entry)
    case None => false
    case Some(fs) => var codes := Payloads(fs, 1); codes != [] && upper(codes[0]) == want
  }

  /** The answer from the first entry that is the wanted country. */
  function Search(entries: seq<Bytes>, want: Bytes, upper: Bytes -> Bytes): Answer {
    if entries == [] then NoCountry
    else if IsCountry(entries[0], want, upper) then
      var out := Collect(Payloads(Parse(entries[0]).value, 2));
      if out == NO_CIDRS then NoPrefixes else Prefixes(out)
    else Search(entries[1..], want, upper)
  }

  function Lookup(data: Bytes, want: Bytes, upper: Bytes -> Bytes): Answer {
    if want == [] then EmptyCode
    else
      match Parse(data)
      case None => BadList
      case Some(fs) =>
        var entries := Payloads(fs, 1);
        if entries == [] then NoEntries else Search(entries, want, upper)
  }

  lemma {:induction false} PayloadsAreShort(fs: seq<Field>, num: nat, bound: nat)
    requires forall i :: 0 <= i < |fs| && fs[i].BytesField? ==> |fs[i].payload| <= bound
    ensures forall i :: 0 <= i < |Payloads(fs, num)| ==> |Payloads(fs, num)[i]| <= bound
  {
    if fs != [] {
      PayloadsAreShort(fs[..|fs| - 1], num, bound);
    }
  }

  lemma {:induction false} FieldsAreShort(buf: Bytes)
    requires Parse(buf).Some?
    ensures forall i :: 0 <= i < |Parse(buf).value| && Parse(buf).value[i].BytesField? ==>
              |Parse(buf).value[i].payload| <= |buf|
    decreases |buf|
  {
    if buf != [] {
      var n := First(buf).value.1;
      FieldsAreShort(buf[n..]);
    }
  }

  /** A payload is no longer than the message it was found in. */
  lemma PayloadsFit(buf: Bytes, num: nat)
    requires Parse(buf).Some?
    ensures forall i :: 0 <= i < |Payloads(Parse(buf).value, num)| ==> |Payloads(Parse(buf).value, num)[i]| <= |buf|
  {
    FieldsAreShort(buf);
    PayloadsAreShort(Parse(buf).value, num, |buf|);
  }

  method CollectCidrs(cidrs: seq<Bytes>) returns (out: CIDRSet)
    requires forall i :: 0 <= i < |cidrs| ==> |cidrs[i]| <= MAX_INT64
    ensures out == Collect(cidrs)
  {
    out := NO_CIDRS;
    var i := 0;
    while i < |cidrs|
      invariant 0 <= i <= |cidrs| && out == Collect(cidrs[..i])
    {
      var c := cidrs[i];
      assert cidrs[..i + 1][..i] == cidrs[..i];
      i := i + 1;
      var ips := ProtoFields(c, 1);
      if ips.None? || ips.value == [] {
        continue;
      }
      var length := ProtoVarintField(c, 2);
      assert c[0..] == c;
      AcceptedWalk(c, 0, 2);
      var prefix := if length.Found? then length.v else 0;
      out := Place(out, ips.value[0], prefix);
    }
    assert cidrs[..i] == cidrs;
  }

  method ParseGeoIP(data: Bytes, code: Bytes, trim: Bytes -> Bytes, upper: Bytes -> Bytes) returns (r: Answer)
    requires |data| <= MAX_INT64
    ensures r == Lookup(data, upper(trim(code)), upper)
  {
    var want := upper(trim(code));
    if want == [] {
      return EmptyCode;
    }
    var entries := ProtoFields(data, 1);
    if entries.None? {
      return BadList;
    }
    if entries.value == [] {
      return NoEntries;
    }
    PayloadsFit(data, 1);
    var i := 0;
    while i < |entries.value|
      invariant 0 <= i <= |entries.value|
      invariant Search(entries.value[i..], want, upper) == Search(entries.value, want, upper)
    {
      var entry := entries.value[i];
      assert entries.value[i..][0] == entry && entries.value[i..][1..] == entries.value[i + 1..];
      i := i + 1;
      var codes := ProtoFields(entry, 1);
      if codes.None? || codes.value == [] || upper(codes.value[0]) != want {
        continue;
      }
      var cidrs := ProtoFields(entry, 2);
      PayloadsFit(entry, 2);
      var out := CollectCidrs(cidrs.value);
      if |out.v4| + |out.v6| == 0 {
        return NoPrefixes;
      }
      return Prefixes(out);
    }
    return NoCountry;
  }
}
