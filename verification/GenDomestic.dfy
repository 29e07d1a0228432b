/** The domestic address list: parsed ranges in, private ones out, the rest aggregated. */
module GenDomestic {
  import opened Powers
  import opened Prefixes
  import opened Aggregate

  /** One line of the input: netip.ParsePrefix either rejects it or gives a prefix. */
  datatype Range = BadRange | Range(prefix: Prefix)

  datatype Failure =
    | Unparsable(index: nat)
    | MappedRange(index: nat)
    | CoversPrivate(range: Prefix, inner: Prefix)

  datatype Result<T> = Ok(value: T) | Err(failure: Failure)

  /** Is4In6: an IPv6 address in the IPv4-mapped block. */
  predicate IsMapped(p: Prefix) {
    p.family == V6 && Shr(p.addr, 32) == 0xffff
  }

  /** Part of the range is private and part is not. */
  ghost predicate Straddles(p: Prefix, private: seq<Prefix>) {
    (exists a: Addr :: Contains(p, a) && Covers(private, a)) && !AllCovered(p, private)
  }

  /** The first private range that p overlaps does not hold all of p. */
  ghost predicate Blocked(p: Prefix, private: seq<Prefix>) {
    exists j :: 0 <= j < |private| && FirstTouch(p, private, j) && !Within(p, private[j])
  }

  ghost predicate FirstTouch(p: Prefix, private: seq<Prefix>, j: nat)
    requires j < |private|
  {
    Overlaps(p, private[j]) && forall k :: 0 <= k < j ==> !Overlaps(p, private[k])
  }

  ghost predicate Touches(p: Prefix, private: seq<Prefix>) {
    exists j :: 0 <= j < |private| && Overlaps(p, private[j])
  }

  lemma TouchIsShared(p: Prefix, private: seq<Prefix>)
    ensures Touches(p, private) <==> exists a: Addr :: Contains(p, a) && Covers(private, a)
  {
    if Touches(p, private) {
      var j :| 0 <= j < |private| && Overlaps(p, private[j]);
      var a := if p.bits <= private[j].bits then AddrOf(private[j]) else AddrOf(p);
      assert Contains(p, a) && Contains(private[j], a);
    }
    if a: Addr :| Contains(p, a) && Covers(private, a) {
      var j :| 0 <= j < |private| && Contains(private[j], a);
      ContainsIsHas(p, a);
      ContainsIsHas(private[j], a);
      OverlapsIsNested(p, private[j]);
    }
  }

  lemma WithinMeansCovered(p: Prefix, private: seq<Prefix>, j: nat)
    requires j < |private| && Within(p, private[j])
    ensures AllCovered(p, private)
  {
    WithinIsInside(p, private[j]);
    forall a: Addr | Contains(p, a) ensures Covers(private, a) {
      ContainsIsHas(p, a);
      ContainsIsHas(private[j], a);
    }
  }

  /** A range that overlaps one private range without lying in it has public addresses. */
  lemma OverlapMeansStraddle(p: Prefix, private: seq<Prefix>, j: nat)
    requires IsCanonical(private) && j < |private| && Overlaps(p, private[j]) && !Within(p, private[j])
    ensures Straddles(p, private)
  {
    assert Touches(p, private);
    TouchIsShared(p, private);
    OverlapsIsNested(p, private[j]);
    if AllCovered(p, private) {
      var o := HolderOf(private, private, p);
      WithinTransitive(private[j], p, o);
      SharedHolder(private, private[j], o);
    }
  }

  /** Some private range is touched first. */
  lemma FirstTouchExists(p: Prefix, private: seq<Prefix>) returns (j: nat)
    requires Touches(p, private)
    ensures j < |private| && FirstTouch(p, private, j)
  {
    j := 0;
    while !Overlaps(p, private[j])
      invariant j < |private| && forall k :: 0 <= k < j ==> !Overlaps(p, private[k])
      invariant exists k :: j <= k < |private| && Overlaps(p, private[k])
      decreases |private| - j
    {
      j := j + 1;
    }
  }

  lemma FirstTouchDecides(p: Prefix, private: seq<Prefix>, j: nat)
    requires j < |private| && FirstTouch(p, private, j)
    ensures Touches(p, private) && (Blocked(p, private) <==> !Within(p, private[j]))
  {
    if Blocked(p, private) {
      var i :| 0 <= i < |private| && FirstTouch(p, private, i) && !Within(p, private[i]);
      assert i == j;
    }
  }

  lemma NotBlockedMeansPrivate(p: Prefix, private: seq<Prefix>)
    requires Touches(p, private) && !Blocked(p, private)
    ensures AllCovered(p, private)
  {
    var j := FirstTouchExists(p, private);
    WithinMeansCovered(p, private, j);
  }

  /** For private ranges that are themselves aggregated, the run stops exactly on a range with
      both private and public addresses. */
  lemma BlockedIsStraddling(p: Prefix, private: seq<Prefix>)
    requires IsCanonical(private)
    ensures Blocked(p, private) <==> Straddles(p, private)
  {
    TouchIsShared(p, private);
    if Blocked(p, private) {
      var j :| 0 <= j < |private| && FirstTouch(p, private, j) && !Within(p, private[j]);
      OverlapMeansStraddle(p, private, j);
    } else if Touches(p, private) {
      NotBlockedMeansPrivate(p, private);
    }
  }

  /** The ranges clear of the private set, in their order. */
  ghost function Outside(ps: seq<Prefix>, private: seq<Prefix>): seq<Prefix> {
    if ps == [] then []
    else
      Outside(ps[..|ps| - 1], private)
      + if Touches(ps[|ps| - 1], private) then [] else [ps[|ps| - 1]]
  }

  datatype Verdict = Clear | Private | Straddling(inner: Prefix)

  /** One range against the private set: the first private range it overlaps decides. */
  method Judge(p: Prefix, private: seq<Prefix>) returns (v: Verdict)
    ensures v.Straddling? <==> Blocked(p, private)
    ensures v.Clear? <==> !Touches(p, private)
  {
    var j := 0;
    while j < |private|
      invariant 0 <= j <= |private|
      invariant forall k :: 0 <= k < j ==> !Overlaps(p, private[k])
    {
      var q := private[j];
      OverlapsIsNested(p, q);
      if q.bits <= p.bits && Contains(q, AddrOf(p)) {
        FirstTouchDecides(p, private, j);
        return Private;
      } else if Overlaps(p, q) {
        FirstTouchDecides(p, private, j);
        return Straddling(q);
      }
      j := j + 1;
    }
    v := Clear;
  }

  method OutsidePrivate(ps: seq<Prefix>, private: seq<Prefix>) returns (r: Result<seq<Prefix>>)
    ensures r.Err? <==> exists i :: 0 <= i < |ps| && Blocked(ps[i], private)
    ensures r.Ok? ==> r.value == Outside(ps, private)
  {
    var out := [];
    var i := 0;
    while i < |ps|
      invariant 0 <= i <= |ps|
      invariant forall k :: 0 <= k < i ==> !Blocked(ps[k], private)
      invariant out == Outside(ps[..i], private)
    {
      var v := Judge(ps[i], private);
      assert ps[..i + 1][..i] == ps[..i];
      match v {
        case Clear => out := out + [ps[i]];
        case Private =>
        case Straddling(q) => return Err(CoversPrivate(ps[i], q));
      }
      i := i + 1;
    }
    assert ps[..i] == ps;
    r := Ok(out);
  }

  /** Filtering takes the private addresses away and nothing else. */
  lemma {:induction false} OutsideCovers(ps: seq<Prefix>, private: seq<Prefix>, a: Addr)
    requires forall i :: 0 <= i < |ps| ==> !Blocked(ps[i], private)
    ensures Covers(Outside(ps, private), a) <==> Covers(ps, a) && !Covers(private, a)
  {
    if ps != [] {
      var init, p := ps[..|ps| - 1], ps[|ps| - 1];
      OutsideCovers(init, private, a);
      assert ps == init + [p];
      CoversAppend(init, p, a);
      CoversAppend(Outside(init, private), p, a);
      TouchIsShared(p, private);
      assert !Blocked(ps[|ps| - 1], private);
      if Touches(p, private) {
        NotBlockedMeansPrivate(p, private);
      }
      assert Outside(ps, private) == if Touches(p, private) then Outside(init, private) else Outside(init, private) + [p];
    }
  }

  lemma CoversAppend(ps: seq<Prefix>, p: Prefix, a: Addr)
    ensures Covers(ps + [p], a) <==> Covers(ps, a) || Contains(p, a)
  {
    assert (ps + [p])[|ps|] == p;
    forall i | 0 <= i < |ps| ensures (ps + [p])[i] == ps[i] {
    }
  }

  ghost predicate RangesCover(ranges: seq<Range>, a: Addr) {
    exists i :: 0 <= i < |ranges| && ranges[i].Range? && Contains(ranges[i].prefix, a)
  }

  ghost predicate Acceptable(range: Range) {
    range.Range? && !IsMapped(range.prefix)
  }

  ghost predicate AllAcceptable(ranges: seq<Range>) {
    forall i :: 0 <= i < |ranges| ==> Acceptable(ranges[i])
  }

  ghost predicate Names(f: Failure, ranges: seq<Range>) {
    match f
    case Unparsable(i) => i < |ranges| && ranges[i].BadRange?
    case MappedRange(i) => i < |ranges| && ranges[i].Range? && IsMapped(ranges[i].prefix)
    case CoversPrivate(_, _) => false
  }

  method MaskRanges(ranges: seq<Range>) returns (r: Result<seq<Prefix>>)
    ensures r.Err? ==> Names(r.failure, ranges) && !AllAcceptable(ranges)
    ensures r.Ok? ==> AllAcceptable(ranges) && |r.value| == |ranges|
    ensures r.Ok? ==> forall k :: 0 <= k < |ranges| ==> r.value[k] == Masked(ranges[k].prefix)
  {
    var prefixes := [];
    var i := 0;
    while i < |ranges|
      invariant 0 <= i <= |ranges| && |prefixes| == i
      invariant forall k :: 0 <= k < i ==> Acceptable(ranges[k]) && prefixes[k] == Masked(ranges[k].prefix)
    {
      if ranges[i].BadRange? {
        return Err(Unparsable(i));
      }
      if IsMapped(ranges[i].prefix) {
        return Err(MappedRange(i));
      }
      prefixes := prefixes + [Masked(ranges[i].prefix)];
      i := i + 1;
    }
    r := Ok(prefixes);
  }

  /** The list render writes out, or why it writes none. */
  method Render(ranges: seq<Range>, private: seq<Prefix>) returns (r: Result<seq<Prefix>>)
    ensures r.Ok? <==> AllAcceptable(ranges) && forall i :: 0 <= i < |ranges| ==> !Blocked(ranges[i].prefix, private)
    ensures r.Ok? ==> IsCanonical(r.value)
    ensures r.Ok? ==> forall a: Addr :: Covers(r.value, a) <==> RangesCover(ranges, a) && !Covers(private, a)
    ensures r.Err? && !AllAcceptable(ranges) ==> Names(r.failure, ranges)
  {
    var prefixes := MaskRanges(ranges);
    if prefixes.Err? {
      return prefixes;
    }
    MaskedRanges(ranges, prefixes.value, private);
    var public := OutsidePrivate(prefixes.value, private);
    if public.Err? {
      return public;
    }
    var out := Aggregate.Aggregate(public.value);
    forall a: Addr ensures Covers(out, a) <==> RangesCover(ranges, a) && !Covers(private, a) {
      OutsideCovers(prefixes.value, private, a);
    }
    r := Ok(out);
  }

  lemma MaskedRanges(ranges: seq<Range>, prefixes: seq<Prefix>, private: seq<Prefix>)
    requires |ranges| == |prefixes|
    requires forall k :: 0 <= k < |ranges| ==> ranges[k].Range? && prefixes[k] == Masked(ranges[k].prefix)
    ensures forall k :: 0 <= k < |ranges| ==> (Blocked(ranges[k].prefix, private) <==> Blocked(prefixes[k], private))
    ensures forall a: Addr :: Covers(prefixes, a) <==> RangesCover(ranges, a)
  {
    forall k | 0 <= k < |ranges|
      ensures Blocked(ranges[k].prefix, private) <==> Blocked(prefixes[k], private)
    {
      MaskedBlocked(ranges[k].prefix, private);
    }
  }

  /** Host bits make no difference to the test. */
  lemma MaskedBlocked(p: Prefix, private: seq<Prefix>)
    ensures Blocked(Masked(p), private) <==> Blocked(p, private)
  {
    var m := Masked(p);
    MaskedBlock(p);
    forall j | 0 <= j < |private|
      ensures Within(m, private[j]) <==> Within(p, private[j])
      ensures Overlaps(m, private[j]) <==> Overlaps(p, private[j])
    {
      OverlapsIsNested(m, private[j]);
      OverlapsIsNested(p, private[j]);
      WithinIsInside(m, private[j]);
      WithinIsInside(p, private[j]);
      WithinIsInside(private[j], m);
      WithinIsInside(private[j], p);
    }
    forall j | 0 <= j < |private| ensures FirstTouch(m, private, j) <==> FirstTouch(p, private, j) {
    }
  }
}
