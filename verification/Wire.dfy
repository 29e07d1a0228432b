/** Protocol-buffer framing as pkg/geoip reads it: base-128 varints and tagged fields. */
module Wire {
  import opened Common
  import opened Powers

  const MAX_UINT64: int := 0xffff_ffff_ffff_ffff
  const MAX_INT64: int := 0x7fff_ffff_ffff_ffff

  /** What a uint64 becomes when converted to int, and what an int sum wraps to. */
  function Int64(x: int): int {
    (x + MAX_INT64 + 1) % (MAX_UINT64 + 1) - MAX_INT64 - 1
  }

  // ---------- varints

  /** binary.Uvarint: a value and its length, or no value. */
  datatype Varint = Value(v: nat, n: nat) | Bad

  /** The varint at the start of buf, when depth bytes of it have been read already. */
  function Uvarint(buf: Bytes, depth: nat): (r: Varint)
    ensures r.Value? ==> 0 < r.n <= |buf|
  {
    if buf == [] || depth >= 10 then Bad
    else if buf[0] < 128 then (if depth == 9 && buf[0] > 1 then Bad else Value(buf[0], 1))
    else match Uvarint(buf[1..], depth + 1)
      case Value(v, n) => Value(buf[0] - 128 + 128 * v, n + 1)
      case Bad => Bad
  }

  function PutUvarint(x: nat): (b: Bytes)
    ensures |b| > 0
  {
    if x < 128 then [x] else [x % 128 + 128] + PutUvarint(x / 128)
  }

  lemma {:induction false} UvarintBound(buf: Bytes, depth: nat)
    requires depth < 10 && Uvarint(buf, depth).Value?
    ensures Uvarint(buf, depth).v < Pow2(64 - 7 * depth)
  {
    if depth == 9 {
      assert Uvarint(buf[1..], 10).Bad?;
    } else {
      Pow2Sum(7, 57 - 7 * depth);
      Pow2Of7();
      Pow2Grows(0, 57 - 7 * depth);
      if buf[0] >= 128 {
        UvarintBound(buf[1..], depth + 1);
      }
    }
  }

  lemma UvarintFits(buf: Bytes)
    requires Uvarint(buf, 0).Value?
    ensures Uvarint(buf, 0).v <= MAX_UINT64
  {
    UvarintBound(buf, 0);
    Pow2Of64();
  }

  /** Decoding undoes encoding, whatever follows. */
  lemma {:induction false} VarintRoundTrip(x: nat, rest: Bytes, depth: nat)
    requires depth < 10 && x < Pow2(64 - 7 * depth)
    ensures Uvarint(PutUvarint(x) + rest, depth) == Value(x, |PutUvarint(x)|)
  {
    var b := PutUvarint(x) + rest;
    Pow2Of7();
    if x >= 128 {
      Pow2Sum(7, 57 - 7 * depth);
      VarintRoundTrip(x / 128, rest, depth + 1);
      assert b[1..] == PutUvarint(x / 128) + rest;
    }
  }

  /** The number whose base-128 digits, least first, are the low seven bits of the bytes. */
  function Digits(b: Bytes): nat {
    if b == [] then 0 else b[0] % 128 + 128 * Digits(b[1..])
  }

  /** The first n bytes are one varint: all but the last have the top bit, and ten of them stay within 64 bits. */
  predicate IsVarint(buf: Bytes, n: nat, depth: nat) {
    && 1 <= n <= |buf| && depth + n <= 10
    && (forall i :: 0 <= i < n - 1 ==> buf[i] >= 128)
    && buf[n - 1] < 128 && (depth + n == 10 ==> buf[n - 1] <= 1)
  }

  lemma {:induction false} VarintIsRead(buf: Bytes, depth: nat, n: nat)
    requires IsVarint(buf, n, depth)
    ensures Uvarint(buf, depth) == Value(Digits(buf[..n]), n)
    decreases |buf|
  {
    var rest := buf[1..];
    if n > 1 {
      VarintIsRead(rest, depth + 1, n - 1);
      assert buf[..n][1..] == rest[..n - 1];
    } else {
      assert buf[..1][1..] == [];
    }
  }

  lemma {:induction false} ReadIsVarint(buf: Bytes, depth: nat)
    requires Uvarint(buf, depth).Value?
    ensures IsVarint(buf, Uvarint(buf, depth).n, depth)
    decreases |buf|
  {
    if buf[0] >= 128 {
      var rest := buf[1..];
      ReadIsVarint(rest, depth + 1);
      var m := Uvarint(rest, depth + 1).n;
      assert forall i :: 1 <= i < m + 1 ==> buf[i] == rest[i - 1];
    }
  }

  /** On every byte string: the decoder finds a value exactly where there is a varint, and it is what the digits
      say, however they were written. */
  lemma UvarintExactly(buf: Bytes, v: nat, n: nat)
    ensures Uvarint(buf, 0) == Value(v, n) <==> IsVarint(buf, n, 0) && v == Digits(buf[..n])
  {
    if IsVarint(buf, n, 0) {
      VarintIsRead(buf, 0, n);
    }
    if Uvarint(buf, 0).Value? {
      ReadIsVarint(buf, 0);
      VarintIsRead(buf, 0, Uvarint(buf, 0).n);
    }
  }

  // ---------- fields

  datatype Field =
    | VarintField(num: nat, v: nat)
    | Fixed64(num: nat, data: Bytes)
    | BytesField(num: nat, payload: Bytes)
    | Fixed32(num: nat, data: Bytes)

  /** What follows a key: the rest of the field and how many bytes that takes. */
  function Body(num: nat, wire: nat, rest: Bytes): (r: Option<(Field, nat)>)
    ensures r.Some? ==> r.value.1 <= |rest|
  {
    match wire
    case 0 => (match Uvarint(rest, 0)
               case Bad => None
               case Value(v, m) => Some((VarintField(num, v), m)))
    case 1 => if |rest| < 8 then None else Some((Fixed64(num, rest[..8]), 8))
    case 2 => (match Uvarint(rest, 0)
               case Bad => None
               case Value(l, m) =>
                 if l > |rest| - m then None else Some((BytesField(num, rest[m..m + l]), m + l)))
    case 5 => if |rest| < 4 then None else Some((Fixed32(num, rest[..4]), 4))
    case _ => None
  }

  /** The first field of buf and how many bytes it takes. */
  function First(buf: Bytes): (r: Option<(Field, nat)>)
    ensures r.Some? ==> 0 < r.value.1 <= |buf|
  {
    match Uvarint(buf, 0)
    case Bad => None
    case Value(key, n) => Shifted(Body(key / 8, key % 8, buf[n..]), n)
  }

  function Shifted(body: Option<(Field, nat)>, n: nat): Option<(Field, nat)> {
    if body.None? then None else Some((body.value.0, n + body.value.1))
  }

  /** The fields of a message, if it is well framed to its last byte. */
  function Parse(buf: Bytes): Option<seq<Field>> {
    if buf == [] then Some([])
    else
      var first := First(buf);
      if first.None? then None else Prepend(first.value.0, Parse(buf[first.value.1..]))
  }

  function Prepend(f: Field, fs: Option<seq<Field>>): Option<seq<Field>> {
    if fs.None? then None else Some([f] + fs.value)
  }

  /** A field is its key and its body. */
  function EncodeBody(f: Field): Bytes {
    match f
    case VarintField(_, v) => PutUvarint(v)
    case Fixed64(_, data) => data
    case BytesField(_, payload) => PutUvarint(|payload|) + payload
    case Fixed32(_, data) => data
  }

  function WireType(f: Field): nat {
    match f
    case VarintField(_, _) => 0
    case Fixed64(_, _) => 1
    case BytesField(_, _) => 2
    case Fixed32(_, _) => 5
  }

  /** The first m bytes of rest are the field's body. */
  ghost predicate IsBody(f: Field, rest: Bytes, m: nat) {
    && m <= |rest|
    && match f
       case VarintField(_, v) => Uvarint(rest, 0) == Value(v, m)
       case Fixed64(_, data) => m == 8 && data == rest[..8]
       case BytesField(_, payload) =>
         |payload| <= m && Uvarint(rest, 0) == Value(|payload|, m - |payload|) && payload == rest[m - |payload|..m]
       case Fixed32(_, data) => m == 4 && data == rest[..4]
  }

  lemma BodyIs(num: nat, wire: nat, rest: Bytes, f: Field, m: nat)
    ensures Body(num, wire, rest) == Some((f, m)) <==> f.num == num && WireType(f) == wire && IsBody(f, rest, m)
  {}

  /** The first n bytes of buf are a key, k bytes of them, then the field's body. */
  ghost predicate IsFramed(buf: Bytes, f: Field, n: nat, k: nat) {
    k <= n && k <= |buf| && Uvarint(buf, 0) == Value(8 * f.num + WireType(f), k) && IsBody(f, buf[k..], n - k)
  }

  /** A field is found exactly where one is framed; no other wire type is. */
  lemma FirstIsFramed(buf: Bytes, f: Field, n: nat)
    ensures First(buf) == Some((f, n)) <==> exists k :: IsFramed(buf, f, n, k)
  {
    if Uvarint(buf, 0).Value? {
      var Value(key, k) := Uvarint(buf, 0);
      if k <= n {
        BodyIs(key / 8, key % 8, buf[k..], f, n - k);
        FramedAt(buf, f, n, key, k);
      }
    }
  }

  lemma FramedAt(buf: Bytes, f: Field, n: nat, key: nat, k: nat)
    requires Uvarint(buf, 0) == Value(key, k) && k <= n
    ensures IsFramed(buf, f, n, k) <==> f.num == key / 8 && WireType(f) == key % 8 && IsBody(f, buf[k..], n - k)
  {}

  function Encode(f: Field): Bytes {
    PutUvarint(8 * f.num + WireType(f)) + EncodeBody(f)
  }

  function EncodeAll(fs: seq<Field>): Bytes {
    if fs == [] then [] else Encode(fs[0]) + EncodeAll(fs[1..])
  }

  /** Fits the wire: the key, the value and the length are all 64-bit. */
  predicate Encodable(f: Field) {
    && 8 * f.num + 7 <= MAX_UINT64
    && match f
       case VarintField(_, v) => v <= MAX_UINT64
       case Fixed64(_, data) => |data| == 8
       case BytesField(_, payload) => |payload| <= MAX_INT64
       case Fixed32(_, data) => |data| == 4
  }

  lemma BodyRoundTrip(f: Field, rest: Bytes)
    requires Encodable(f)
    ensures Body(f.num, WireType(f), EncodeBody(f) + rest) == Some((f, |EncodeBody(f)|))
  {
    Pow2Of64();
    match f {
      case VarintField(_, v) =>
        VarintRoundTrip(v, rest, 0);
      case Fixed64(_, data) =>
        assert (data + rest)[..8] == data;
      case BytesField(_, payload) =>
        PayloadRoundTrip(payload, rest);
      case Fixed32(_, data) =>
        assert (data + rest)[..4] == data;
    }
  }

  lemma PayloadRoundTrip(payload: Bytes, rest: Bytes)
    requires |payload| <= MAX_INT64
    ensures var m, buf := |PutUvarint(|payload|)|, PutUvarint(|payload|) + payload + rest;
            Uvarint(buf, 0) == Value(|payload|, m) && buf[m..m + |payload|] == payload
  {
    Pow2Of64();
    assert PutUvarint(|payload|) + payload + rest == PutUvarint(|payload|) + (payload + rest);
    VarintRoundTrip(|payload|, payload + rest, 0);
  }

  lemma FieldRoundTrip(f: Field, rest: Bytes)
    requires Encodable(f)
    ensures First(Encode(f) + rest) == Some((f, |Encode(f)|))
  {
    var key := 8 * f.num + WireType(f);
    KeyThen(key, EncodeBody(f), rest);
    BodyRoundTrip(f, rest);
    KeyParts(f.num, WireType(f));
  }

  lemma KeyParts(num: nat, wire: nat)
    requires wire < 8
    ensures (8 * num + wire) / 8 == num && (8 * num + wire) % 8 == wire
  {
  }

  lemma KeyThen(key: nat, body: Bytes, rest: Bytes)
    requires key <= MAX_UINT64
    ensures var buf := PutUvarint(key) + body + rest;
            Uvarint(buf, 0) == Value(key, |PutUvarint(key)|) && buf[|PutUvarint(key)|..] == body + rest
  {
    Pow2Of64();
    VarintRoundTrip(key, body + rest, 0);
    assert PutUvarint(key) + body + rest == PutUvarint(key) + (body + rest);
  }

  /** Parsing undoes encoding of any field list. */
  lemma {:induction false} RoundTrip(fs: seq<Field>)
    requires forall i :: 0 <= i < |fs| ==> Encodable(fs[i])
    ensures Parse(EncodeAll(fs)) == Some(fs)
  {
    if fs != [] {
      var rest := EncodeAll(fs[1..]);
      RoundTrip(fs[1..]);
      FieldRoundTrip(fs[0], rest);
      assert fs == [fs[0]] + fs[1..];
      assert (Encode(fs[0]) + rest)[|Encode(fs[0])|..] == rest;
    }
  }

  // ---------- what the two walkers look for

  /** The payloads of the length-delimited fields with this number. */
  function Payloads(fs: seq<Field>, num: nat): seq<Bytes> {
    if fs == [] then []
    else
      Payloads(fs[..|fs| - 1], num)
      + var f := fs[|fs| - 1]; if f.BytesField? && f.num == num then [f.payload] else []
  }

  /** The value of the first varint field with this number. */
  function FirstVarint(fs: seq<Field>, num: nat): Option<nat> {
    if fs == [] then None
    else if fs[0].VarintField? && fs[0].num == num then Some(fs[0].v)
    else FirstVarint(fs[1..], num)
  }

  /** What the field adds to the payloads. */
  function PayloadOf(f: Field, num: nat): seq<Bytes> {
    if f.BytesField? && f.num == num then [f.payload] else []
  }

  /** What is out already and what the fields from i on will add. */
  function Gathered(buf: Bytes, i: nat, out: seq<Bytes>, field: nat): Option<seq<Bytes>>
    requires i <= |buf|
  {
    var fs := Parse(buf[i..]);
    if fs.None? then None else Some(out + Payloads(fs.value, field))
  }

  /** Adding a length the buffer has room for does not wrap; any other length fails the check. */
  lemma EndCheck(i: nat, l: nat, len: nat)
    requires i <= len <= MAX_INT64 && l <= MAX_UINT64
    ensures var end := Int64(i + Int64(l)); (end > len || end < i) <==> l > len - i
    ensures l <= len - i ==> Int64(i + Int64(l)) == i + l
  {
  }

  lemma Tail(buf: Bytes, i: nat, a: nat, b: nat)
    requires i + a <= i + b <= |buf|
    ensures buf[i..][a..] == buf[i + a..] && buf[i..][a..b] == buf[i + a..i + b] && buf[i..][..b] == buf[i..i + b]
  {
  }

  lemma PayloadsAppend(fs: seq<Field>, f: Field, num: nat)
    ensures Payloads(fs + [f], num) == Payloads(fs, num) + PayloadOf(f, num)
  {
    assert (fs + [f])[..|fs|] == fs;
  }

  lemma {:induction false} PayloadsConcat(fs: seq<Field>, gs: seq<Field>, num: nat)
    ensures Payloads(fs + gs, num) == Payloads(fs, num) + Payloads(gs, num)
  {
    if gs == [] {
      assert fs + gs == fs;
    } else {
      var init, last := gs[..|gs| - 1], gs[|gs| - 1];
      assert fs + gs == (fs + init) + [last] && gs == init + [last];
      PayloadsConcat(fs, init, num);
      PayloadsAppend(fs + init, last, num);
      PayloadsAppend(init, last, num);
    }
  }

  lemma PayloadsOfOne(f: Field, num: nat)
    ensures Payloads([f], num) == PayloadOf(f, num)
  {
    PayloadsAppend([], f, num);
    assert [] + [f] == [f];
  }

  lemma OneMoreField(buf: Bytes, i: nat, out: seq<Bytes>, field: nat, f: Field, n: nat)
    requires i < |buf| && First(buf[i..]) == Some((f, n))
    ensures i + n <= |buf| && Gathered(buf, i, out, field) == Gathered(buf, i + n, out + PayloadOf(f, field), field)
  {
    assert buf[i..][n..] == buf[i + n..];
    var after := Parse(buf[i + n..]);
    assert Parse(buf[i..]) == Prepend(f, after);
    if after.Some? {
      PayloadsConcat([f], after.value, field);
      PayloadsOfOne(f, field);
      assert out + (PayloadOf(f, field) + Payloads(after.value, field))
          == out + PayloadOf(f, field) + Payloads(after.value, field);
    }
  }

  lemma NoMoreFields(buf: Bytes, i: nat, out: seq<Bytes>, field: nat)
    requires i < |buf| && First(buf[i..]).None?
    ensures Gathered(buf, i, out, field) == None
  {}

  /** The key at i, and what First makes of it. */
  lemma KeyAt(buf: Bytes, i: nat, key: nat, n: nat)
    requires i <= |buf| && Uvarint(buf[i..], 0) == Value(key, n)
    ensures i + n <= |buf| && First(buf[i..]) == Shifted(Body(key / 8, key % 8, buf[i + n..]), n)
  {
    Tail(buf, i, n, n);
  }

  /** One turn of protoFields after the key: where the next field starts, or a framing error. */
  method PastBody(buf: Bytes, start: nat, num: nat, wire: nat) returns (next: Option<nat>, payload: Bytes)
    requires start <= |buf| <= MAX_INT64
    ensures next.None? <==> Body(num, wire, buf[start..]).None?
    ensures next.Some? ==> next.value == start + Body(num, wire, buf[start..]).value.1
    ensures next.Some? && wire == 2 ==> Body(num, wire, buf[start..]).value.0 == BytesField(num, payload)
  {
    var i := start;
    payload := [];
    match wire {
      case 0 =>
        var v := Uvarint(buf[i..], 0);
        if v.Bad? {
          return None, [];
        }
        i := i + v.n;
      case 2 =>
        var l := Uvarint(buf[i..], 0);
        if l.Bad? {
          return None, [];
        }
        UvarintFits(buf[i..]);
        i := i + l.n;
        EndCheck(i, l.v, |buf|);
        var end := Int64(i + Int64(l.v));
        if end > |buf| || end < i {
          return None, [];
        }
        Tail(buf, start, l.n, l.n + l.v);
        payload := buf[i..end];
        i := end;
      case 5 =>
        i := i + 4;
      case 1 =>
        i := i + 8;
      case _ =>
        return None, [];
    }
    if i > |buf| {
      return None, [];
    }
    next := Some(i);
  }

  /** One turn of protoFields: the field at i, kept when it is length-delimited. */
  method FieldAt(buf: Bytes, i: nat) returns (next: Option<nat>, num: nat, payload: Option<Bytes>, ghost f: Field)
    requires i < |buf| <= MAX_INT64
    ensures next.None? ==> First(buf[i..]).None?
    ensures next.Some? ==> i < next.value && First(buf[i..]) == Some((f, next.value - i))
    ensures next.Some? ==> payload == (if f.BytesField? then Some(f.payload) else None) && num == f.num
  {
    f := VarintField(0, 0);
    var key := Uvarint(buf[i..], 0);
    if key.Bad? {
      return None, 0, None, f;
    }
    KeyAt(buf, i, key.v, key.n);
    num := key.v / 8;
    var after, data := PastBody(buf, i + key.n, num, key.v % 8);
    next := after;
    payload := if key.v % 8 == 2 then Some(data) else None;
    if next.Some? {
      f := Body(num, key.v % 8, buf[i + key.n..]).value.0;
    }
  }

  lemma OneMoreTaken(buf: Bytes, i: nat, out: seq<Bytes>, field: nat, f: Field, n: nat, more: seq<Bytes>)
    requires i < |buf| && First(buf[i..]) == Some((f, n))
    requires more == if f.BytesField? && f.num == field then out + [f.payload] else out
    ensures i + n <= |buf| && Gathered(buf, i + n, more, field) == Gathered(buf, i, out, field)
  {
    OneMoreField(buf, i, out, field, f, n);
    assert out + [] == out;
  }

  /** One turn of the loop, from a field boundary to the next or to an error. */
  method TakeField(buf: Bytes, i: nat, field: nat, out: seq<Bytes>) returns (next: Option<nat>, more: seq<Bytes>)
    requires i < |buf| <= MAX_INT64
    ensures next.None? ==> Gathered(buf, i, out, field) == None
    ensures next.Some? ==>
              i < next.value <= |buf| && Gathered(buf, next.value, more, field) == Gathered(buf, i, out, field)
  {
    var num, payload;
    ghost var f;
    next, num, payload, f := FieldAt(buf, i);
    more := out;
    if next.Some? && num == field && payload.Some? {
      more := out + [payload.value];
    }
    if next.None? {
      NoMoreFields(buf, i, out, field);
    } else {
      OneMoreTaken(buf, i, out, field, f, next.value - i, more);
    }
  }

  /** protoFields: every length-delimited field with the given number. */
  method ProtoFields(buf: Bytes, field: nat) returns (r: Option<seq<Bytes>>)
    requires |buf| <= MAX_INT64
    ensures r == if Parse(buf).None? then None else Some(Payloads(Parse(buf).value, field))
  {
    var out := [];
    var i := 0;
    AtStart(buf, field);
    while i < |buf|
      invariant 0 <= i <= |buf| && Gathered(buf, i, out, field) == Gathered(buf, 0, [], field)
      decreases |buf| - i
    {
      var next;
      next, out := TakeField(buf, i, field, out);
      if next.None? {
        return None;
      }
      i := next.value;
    }
    AtEnd(buf, out, field);
    return Some(out);
  }

  lemma AtStart(buf: Bytes, field: nat)
    ensures Gathered(buf, 0, [], field) == if Parse(buf).None? then None else Some(Payloads(Parse(buf).value, field))
  {
    assert buf[0..] == buf;
    if Parse(buf).Some? {
      assert [] + Payloads(Parse(buf).value, field) == Payloads(Parse(buf).value, field);
    }
  }

  lemma AtEnd(buf: Bytes, out: seq<Bytes>, field: nat)
    ensures Gathered(buf, |buf|, out, field) == Some(out)
  {
    assert buf[|buf|..] == [];
    assert out + [] == out;
  }

  // ---------- protoVarintField

  /** How the second walker ends, or how it first goes back. Panicked: its unchecked addition has made the index
      negative, and slicing the buffer there panics. TurnedBack: the addition has moved it back to the given
      index, at or before the field it was on; from there it may answer, panic or never end. */
  datatype Walk = Found(v: nat) | NotFound | Malformed | Panicked | TurnedBack(to: nat)

  function WalkFrom(buf: Bytes, i: nat, field: nat): Walk
    decreases if i < |buf| then |buf| - i else 0
  {
    if i >= |buf| then NotFound
    else
      match Uvarint(buf[i..], 0)
      case Bad => Malformed
      case Value(key, n) => WalkBody(buf, i, i + n, key / 8, key % 8, field)
  }

  /** The field that starts at i has its body at j. */
  function WalkBody(buf: Bytes, i: nat, j: nat, num: nat, wire: nat, field: nat): Walk
    requires i < j <= |buf|
    decreases |buf| - i, 0
  {
    match wire
    case 0 => (match Uvarint(buf[j..], 0)
               case Bad => Malformed
               case Value(v, m) => if num == field then Found(v) else WalkFrom(buf, j + m, field))
    case 2 => (match Uvarint(buf[j..], 0)
               case Bad => Malformed
               case Value(l, m) =>
                 var next := Int64(j + Int64(m + Int64(l)));
                 if next < 0 then Panicked else if next <= i then TurnedBack(next) else WalkFrom(buf, next, field))
    case 5 => WalkFrom(buf, j + 4, field)
    case 1 => WalkFrom(buf, j + 8, field)
    case _ => Malformed
  }

  /** protoVarintField: the first varint field with the given number. */
  method ProtoVarintField(buf: Bytes, field: nat) returns (r: Walk)
    ensures r == WalkFrom(buf, 0, field)
  {
    var i := 0;
    while i < |buf|
      invariant WalkFrom(buf, i, field) == WalkFrom(buf, 0, field)
      decreases |buf| - i
    {
      var key := Uvarint(buf[i..], 0);
      if key.Bad? {
        return Malformed;
      }
      var at := i;
      i := i + key.n;
      match key.v % 8 {
        case 0 =>
          var v := Uvarint(buf[i..], 0);
          if v.Bad? {
            return Malformed;
          }
          if key.v / 8 == field {
            return Found(v.v);
          }
          i := i + v.n;
        case 2 =>
          var l := Uvarint(buf[i..], 0);
          if l.Bad? {
            return Malformed;
          }
          var next := Int64(i + Int64(l.n + Int64(l.v)));
          if next < 0 {
            return Panicked;
          }
          if next <= at {
            return TurnedBack(next);
          }
          i := next;
        case 5 =>
          i := i + 4;
        case 1 =>
          i := i + 8;
        case _ =>
          return Malformed;
      }
    }
    return NotFound;
  }

  lemma UncheckedEnd(i: nat, n: nat, l: nat, len: nat)
    requires i + n + l <= len <= MAX_INT64
    ensures Int64(i + Int64(n + Int64(l))) == i + n + l
  {
  }

  function FoundOrNot(v: Option<nat>): Walk {
    if v.None? then NotFound else Found(v.value)
  }

  /** On a well-framed field the walk stops at it or goes on right after it. */
  lemma WalkOne(buf: Bytes, i: nat, f: Field, size: nat, field: nat)
    requires i < |buf| <= MAX_INT64 && First(buf[i..]) == Some((f, size))
    ensures WalkFrom(buf, i, field)
         == if f.VarintField? && f.num == field then Found(f.v) else WalkFrom(buf, i + size, field)
  {
    var Value(key, n) := Uvarint(buf[i..], 0);
    KeyAt(buf, i, key, n);
    WalkUnfolds(buf, i, key, n, field);
    BodyWalk(buf, i, i + n, key / 8, key % 8, f, size - n, field);
  }

  lemma BodyWalk(buf: Bytes, i: nat, j: nat, num: nat, wire: nat, f: Field, m: nat, field: nat)
    requires i < j <= |buf| <= MAX_INT64 && Body(num, wire, buf[j..]) == Some((f, m))
    ensures WalkBody(buf, i, j, num, wire, field)
         == if f.VarintField? && f.num == field then Found(f.v) else WalkFrom(buf, j + m, field)
  {
    if wire == 2 {
      BytesWalk(buf, i, j, num, f, m, field);
    }
  }

  lemma BytesWalk(buf: Bytes, i: nat, j: nat, num: nat, f: Field, m: nat, field: nat)
    requires i < j <= |buf| <= MAX_INT64 && Body(num, 2, buf[j..]) == Some((f, m))
    ensures f.BytesField? && WalkBody(buf, i, j, num, 2, field) == WalkFrom(buf, j + m, field)
  {
    var l := Uvarint(buf[j..], 0);
    UncheckedEnd(j, l.n, l.v, |buf|);
  }

  lemma WalkUnfolds(buf: Bytes, i: nat, key: nat, n: nat, field: nat)
    requires i < |buf| && Uvarint(buf[i..], 0) == Value(key, n)
    ensures n > 0 && i + n <= |buf| && WalkFrom(buf, i, field) == WalkBody(buf, i, i + n, key / 8, key % 8, field)
  {}

  lemma FoundNextOrNow(f: Field, fs: seq<Field>, field: nat, w: Walk, w': Walk)
    requires w == if f.VarintField? && f.num == field then Found(f.v) else w'
    requires w' == FoundOrNot(FirstVarint(fs, field))
    ensures w == FoundOrNot(FirstVarint([f] + fs, field))
  {
    assert ([f] + fs)[1..] == fs;
  }

  lemma ParseStep(buf: Bytes, i: nat) returns (f: Field, size: nat)
    requires i < |buf| && Parse(buf[i..]).Some?
    ensures First(buf[i..]) == Some((f, size)) && 0 < size <= |buf| - i
    ensures Parse(buf[i + size..]).Some? && Parse(buf[i..]).value == [f] + Parse(buf[i + size..]).value
  {
    f, size := First(buf[i..]).value.0, First(buf[i..]).value.1;
    assert buf[i..][size..] == buf[i + size..];
  }

  /** A buffer protoFields accepts is walked field by field with the same framing: the walk stays
      in bounds, ends, and finds the first varint field with the number, if there is one. */
  lemma {:induction false} AcceptedWalk(buf: Bytes, i: nat, field: nat)
    requires i <= |buf| <= MAX_INT64 && Parse(buf[i..]).Some?
    ensures WalkFrom(buf, i, field) == FoundOrNot(FirstVarint(Parse(buf[i..]).value, field))
    decreases |buf| - i
  {
    if i == |buf| {
      assert buf[i..] == [];
    } else {
      var f, size := ParseStep(buf, i);
      WalkOne(buf, i, f, size, field);
      AcceptedWalk(buf, i + size, field);
      FoundNextOrNow(f, Parse(buf[i + size..]).value, field, WalkFrom(buf, i, field), WalkFrom(buf, i + size, field));
    }
  }

  /** Without that check the walk can leave the buffer: a length close to 2^64 takes it backwards. */
  lemma UncheckedWalkEscapes(num: nat, field: nat)
    requires 8 * num + 7 <= MAX_UINT64
    ensures var buf := PutUvarint(8 * num + 2) + PutUvarint(MAX_UINT64 - 99);
            WalkFrom(buf, 0, field) == Panicked && Parse(buf).None?
  {
    Pow2Of64();
    var key, l := PutUvarint(8 * num + 2), PutUvarint(MAX_UINT64 - 99);
    assert key + l + [] == key + l && l + [] == l;
    KeyThen(8 * num + 2, l, []);
    KeyParts(num, 2);
    VarintRoundTrip(MAX_UINT64 - 99, [], 0);
    UvarintLength(l, 0);
    UvarintLength(key + l, 0);
    HugeEscapes(key + l, 8 * num + 2, |key|, |l|, field);
  }

  lemma HugeEscapes(buf: Bytes, key: nat, n: nat, m: nat, field: nat)
    requires Uvarint(buf, 0) == Value(key, n) && n <= 10 && key % 8 == 2
    requires Uvarint(buf[n..], 0) == Value(MAX_UINT64 - 99, m) && m <= 10 && |buf| <= 20
    ensures WalkFrom(buf, 0, field) == Panicked && Parse(buf).None?
  {
    assert buf[0..] == buf;
    HugeLength(n, m);
  }

  lemma HugeLength(j: nat, m: nat)
    requires j <= 10 && m <= 10
    ensures Int64(j + Int64(m + Int64(MAX_UINT64 - 99))) < 0
  {
  }

  lemma {:induction false} UvarintLength(buf: Bytes, depth: nat)
    requires depth <= 10 && Uvarint(buf, depth).Value?
    ensures Uvarint(buf, depth).n + depth <= 10
    decreases 10 - depth
  {
    if depth < 10 && buf[0] >= 128 {
      UvarintLength(buf[1..], depth + 1);
    }
  }
}
