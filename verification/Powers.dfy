/** Powers of two and right shifts, stated so that nothing has to divide by a variable. */
module Powers {

  /** 2 to the power k. */
  function Pow2(k: nat): (r: nat)
    ensures r > 0
  {
    if k == 0 then 1 else 2 * Pow2(k - 1)
  }

  /** x with its low k bits dropped. */
  function Shr(x: nat, k: nat): nat {
    if k == 0 then x else Shr(x, k - 1) / 2
  }

  lemma {:induction false} Pow2Sum(j: nat, k: nat)
    ensures Pow2(j + k) == Pow2(j) * Pow2(k)
  {
    if j > 0 {
      Pow2Sum(j - 1, k);
    }
  }

  lemma Pow2Of7()
    ensures Pow2(1) == 2 && Pow2(7) == 128
  {
  }

  lemma Pow2Of16()
    ensures Pow2(8) == 0x100 && Pow2(16) == 0x1_0000
  {
    assert Pow2(4) == 16;
    Pow2Sum(4, 4);
    Pow2Sum(8, 8);
  }

  lemma Pow2Of64()
    ensures Pow2(64) == 0x1_0000_0000_0000_0000
  {
    Pow2Of16();
    Pow2Sum(16, 16);
    assert Pow2(32) == 0x1_0000_0000;
    Pow2Sum(32, 32);
  }

  lemma {:induction false} Pow2Grows(j: nat, k: nat)
    requires j < k
    ensures Pow2(j) < Pow2(k)
  {
    if j + 1 < k {
      Pow2Grows(j, k - 1);
    }
  }

  lemma Twice(m: nat, s: nat)
    ensures m * (2 * s) == (2 * m) * s
    ensures (2 * m + 1) * s == (2 * m) * s + s
  {
  }

  lemma Scaled(m: nat, n: nat, s: nat)
    requires m < n
    ensures m * s + s <= n * s
  {
    var d := n - m - 1;
    assert n * s == m * s + s + d * s;
  }

  lemma {:induction false} ShrBounds(x: nat, k: nat)
    ensures Shr(x, k) * Pow2(k) <= x < Shr(x, k) * Pow2(k) + Pow2(k)
  {
    if k > 0 {
      ShrBounds(x, k - 1);
      Twice(Shr(x, k), Pow2(k - 1));
    }
  }

  /** The bounds pin the shifted value down. */
  lemma ShrIs(x: nat, k: nat, q: nat)
    requires q * Pow2(k) <= x < q * Pow2(k) + Pow2(k)
    ensures Shr(x, k) == q
  {
    ShrBounds(x, k);
    if q < Shr(x, k) {
      Scaled(q, Shr(x, k), Pow2(k));
    } else if Shr(x, k) < q {
      Scaled(Shr(x, k), q, Pow2(k));
    }
  }

  /** The low k bits of x. */
  function Low(x: nat, k: nat): (r: nat)
    ensures r < Pow2(k) && x == Shr(x, k) * Pow2(k) + r
  {
    ShrBounds(x, k);
    x - Shr(x, k) * Pow2(k)
  }

  lemma Distribute(m: nat, n: nat, s: nat)
    ensures (m + n) * s == m * s + n * s
  {
  }

  /** A multiple of 2^k passes through the shift. */
  lemma ShrOffset(m: nat, x: nat, k: nat)
    ensures Shr(m * Pow2(k) + x, k) == m + Shr(x, k)
    ensures Shr(m * Pow2(k) + x, k) * Pow2(k) == m * Pow2(k) + Shr(x, k) * Pow2(k)
  {
    ShrBounds(x, k);
    Distribute(m, Shr(x, k), Pow2(k));
    ShrIs(m * Pow2(k) + x, k, m + Shr(x, k));
  }

  lemma {:induction false} ShrShr(x: nat, j: nat, k: nat)
    ensures Shr(x, j + k) == Shr(Shr(x, j), k)
  {
    if k > 0 {
      ShrShr(x, j, k - 1);
    }
  }

  /** Agreeing from bit k on means agreeing from any later bit on. */
  lemma SameFrom(x: nat, y: nat, k: nat, w: nat)
    requires k <= w && Shr(x, k) == Shr(y, k)
    ensures Shr(x, w) == Shr(y, w)
  {
    ShrShr(x, k, w - k);
    ShrShr(y, k, w - k);
  }

  lemma Associate(x: nat, y: nat, z: nat)
    ensures x * (y * z) == x * y * z
  {
  }

  /** Under the same top m, bits from k on agree exactly when those of the low parts do. */
  lemma UnderTop(m: nat, w: nat, x: nat, y: nat, k: nat)
    requires k <= w
    ensures Shr(m * Pow2(w) + x, k) == Shr(m * Pow2(w) + y, k) <==> Shr(x, k) == Shr(y, k)
  {
    Pow2Sum(w - k, k);
    Associate(m, Pow2(w - k), Pow2(k));
    ShrOffset(m * Pow2(w - k), x, k);
    ShrOffset(m * Pow2(w - k), y, k);
  }

  lemma TopIs(m: nat, w: nat, x: nat)
    requires x < Pow2(w)
    ensures Shr(m * Pow2(w) + x, w) == m
  {
    ShrIs(m * Pow2(w) + x, w, m);
  }

  /** Below an odd top is an even one; the two agree from one bit further on. */
  lemma NextTop(m: nat, w: nat, x: nat, k: nat) returns (y: nat)
    requires x < Pow2(w) && k > w
    ensures y <= (2 * m + 1) * Pow2(w) + x && Shr(y, w) == 2 * m
    ensures Shr(y, k) == Shr((2 * m + 1) * Pow2(w) + x, k)
  {
    y := 2 * m * Pow2(w) + x;
    TopIs(2 * m + 1, w, x);
    TopIs(2 * m, w, x);
    Scaled(2 * m, 2 * m + 1, Pow2(w));
    SameFrom(y, (2 * m + 1) * Pow2(w) + x, w + 1, k);
  }

  lemma TopFits(m: nat, w: nat, x: nat, j: nat, k: nat)
    requires x < Pow2(w) && m < Pow2(j) && j + w < k
    ensures m * Pow2(w) + x < Pow2(k)
  {
    Pow2Sum(j, w);
    Scaled(m, Pow2(j), Pow2(w));
    Pow2Grows(j + w, k);
  }
}
