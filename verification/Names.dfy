/** Which names the baseline column can hold: valid UTF-8 is exactly the encoding of Unicode scalar values. */
module Names {
  import opened Common
  import opened Booking

  /** A Unicode scalar value: no surrogate. */
  predicate IsScalar(r: nat) {
    r < 0xd800 || 0xe000 <= r <= 0x10ffff
  }

  /** UTF-8, section 3 of RFC 3629. */
  function EncodeRune(r: nat): (b: Bytes)
    requires IsScalar(r)
  {
    if r < 0x80 then [r]
    else if r < 0x800 then [0xc0 + r / 64, 0x80 + r % 64]
    else if r < 0x10000 then [0xe0 + r / 4096, 0x80 + r / 64 % 64, 0x80 + r % 64]
    else [0xf0 + r / 262144, 0x80 + r / 4096 % 64, 0x80 + r / 64 % 64, 0x80 + r % 64]
  }

  function EncodeRunes(rs: seq<nat>): Bytes
    requires forall i :: 0 <= i < |rs| ==> IsScalar(rs[i])
  {
    if rs == [] then [] else EncodeRune(rs[0]) + EncodeRunes(rs[1..])
  }

  lemma EncodedIsRune(r: nat, rest: Bytes)
    requires IsScalar(r)
    ensures RuneAt(EncodeRune(r) + rest) == |EncodeRune(r)|
  {
    var s := EncodeRune(r) + rest;
    assert s[0] == EncodeRune(r)[0];
    if r >= 0x80 {
      assert s[1] == EncodeRune(r)[1];
    }
    if r >= 0x800 {
      assert s[2] == EncodeRune(r)[2];
    }
    if r >= 0x10000 {
      assert s[3] == EncodeRune(r)[3];
    }
  }

  function Join(a: int, b: int): int {
    64 * a + b
  }

  lemma Split(a: nat, b: nat)
    requires b < 64
    ensures Join(a, b) / 64 == a && Join(a, b) % 64 == b
  {}

  lemma Encoded2(a: nat, b: nat)
    requires 2 <= a < 32 && b < 64
    ensures var r := Join(a, b); r >= 0 && IsScalar(r) && EncodeRune(r) == [0xc0 + a, 0x80 + b]
  {
    Split(a, b);
  }

  lemma Encoded3(a: nat, b: nat, c: nat)
    requires a < 16 && b < 64 && c < 64 && (a == 0 ==> b >= 32) && (a == 13 ==> b < 32)
    ensures var r := Join(Join(a, b), c); r >= 0 && IsScalar(r) && EncodeRune(r) == [0xe0 + a, 0x80 + b, 0x80 + c]
  {
    Split(a, b);
    Split(Join(a, b), c);
    assert Join(Join(a, b), c) / 4096 == a;
  }

  lemma Encoded4(a: nat, b: nat, c: nat, d: nat)
    requires a < 5 && b < 64 && c < 64 && d < 64 && (a == 0 ==> b >= 16) && (a == 4 ==> b < 16)
    ensures var r := Join(Join(Join(a, b), c), d);
            r >= 0 && IsScalar(r) && EncodeRune(r) == [0xf0 + a, 0x80 + b, 0x80 + c, 0x80 + d]
  {
    Split(a, b);
    Split(Join(a, b), c);
    Split(Join(Join(a, b), c), d);
    assert Join(Join(Join(a, b), c), d) / 4096 == Join(a, b);
    assert Join(Join(Join(a, b), c), d) / 262144 == a;
  }

  /** The first rune is the encoding of a scalar value. */
  lemma RuneIsEncoded(s: Bytes) returns (r: nat)
    requires s != [] && RuneAt(s) > 0
    ensures IsScalar(r) && EncodeRune(r) == s[..RuneAt(s)]
  {
    var a: int := s[0];
    if RuneAt(s) == 1 {
      r := a;
    } else if RuneAt(s) == 2 {
      Encoded2(a - 0xc0, s[1] - 0x80);
      r := Join(a - 0xc0, s[1] - 0x80);
    } else if RuneAt(s) == 3 {
      Encoded3(a - 0xe0, s[1] - 0x80, s[2] - 0x80);
      r := Join(Join(a - 0xe0, s[1] - 0x80), s[2] - 0x80);
    } else {
      Encoded4(a - 0xf0, s[1] - 0x80, s[2] - 0x80, s[3] - 0x80);
      r := Join(Join(Join(a - 0xf0, s[1] - 0x80), s[2] - 0x80), s[3] - 0x80);
    }
  }

  lemma {:induction false} EncodedIsValid(rs: seq<nat>)
    requires forall i :: 0 <= i < |rs| ==> IsScalar(rs[i])
    ensures ValidUTF8(EncodeRunes(rs))
  {
    if rs != [] {
      var head, tail := EncodeRune(rs[0]), EncodeRunes(rs[1..]);
      EncodedIsRune(rs[0], tail);
      EncodedIsValid(rs[1..]);
      assert (head + tail)[|head|..] == tail;
    }
  }

  lemma Joined(s: Bytes, n: nat, r: nat, rest: seq<nat>)
    requires n <= |s| && IsScalar(r) && EncodeRune(r) == s[..n]
    requires (forall i :: 0 <= i < |rest| ==> IsScalar(rest[i])) && EncodeRunes(rest) == s[n..]
    ensures (forall i :: 0 <= i < |[r] + rest| ==> IsScalar(([r] + rest)[i])) && EncodeRunes([r] + rest) == s
  {
    assert ([r] + rest)[1..] == rest;
    assert s == s[..n] + s[n..];
  }

  lemma {:induction false} ValidIsEncoded(s: Bytes) returns (rs: seq<nat>)
    requires ValidUTF8(s)
    ensures (forall i :: 0 <= i < |rs| ==> IsScalar(rs[i])) && EncodeRunes(rs) == s
  {
    if s == [] {
      rs := [];
    } else {
      var r := RuneIsEncoded(s);
      var rest := ValidIsEncoded(s[RuneAt(s)..]);
      rs := [r] + rest;
      Joined(s, RuneAt(s), r, rest);
    }
  }

  ghost predicate IsText(s: Bytes) {
    exists rs :: IsTextOf(s, rs)
  }

  ghost predicate IsTextOf(s: Bytes, rs: seq<nat>) {
    (forall i :: 0 <= i < |rs| ==> IsScalar(rs[i])) && EncodeRunes(rs) == s
  }

  /** A name can be stored exactly if it is 1 to 190 bytes, encodes Unicode text, and has no zero byte. */
  lemma StorableExactly(x: Name)
    ensures Storable(x) <==> 1 <= |x| <= 190 && IsText(x) && forall i :: 0 <= i < |x| ==> x[i] != 0
  {
    if ValidUTF8(x) {
      var rs := ValidIsEncoded(x);
      assert IsTextOf(x, rs);
    }
    if IsText(x) {
      var rs :| IsTextOf(x, rs);
      EncodedIsValid(rs);
    }
  }
}
