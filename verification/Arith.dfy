/**
 Integer and real arithmetic shared by the model: Rust's truncating division, the wrap-around of
 `i32`, and the bridge between quotients of reals and quotients of integers.
 */
module Arith {

  /** Rust's `/` on signed integers: the quotient rounded toward zero. */
  function TruncDiv(a: int, b: int): int
    requires 0 < b
  {
    if 0 <= a then a / b else -(-a / b)
  }

  /** Rust's `as i16`, `as usize` on a float in range: the real rounded toward zero. */
  function Trunc(x: real): int
  {
    if 0.0 <= x then x.Floor else -(-x).Floor
  }

  /** `f64::ceil`. */
  function Ceil(x: real): int
  {
    -(-x).Floor
  }

  /** The integer quotient rounded up. */
  function CeilDiv(a: nat, b: int): nat
    requires 0 < b
  {
    (a + b - 1) / b
  }

  /** Two's complement wrap-around of a 32-bit signed integer. */
  function Wrap32(a: int): (w: int)
    ensures -0x8000_0000 <= w < 0x8000_0000 && (a - w) % 0x1_0000_0000 == 0
  {
    (a + 0x8000_0000) % 0x1_0000_0000 - 0x8000_0000
  }

  function Min(a: int, b: int): int
  {
    if a <= b then a else b
  }

  function Max(a: int, b: int): int
  {
    if a <= b then b else a
  }

  // ---------- products and quotients ----------

  lemma MulMonotone(a: int, b: int, c: int)
    requires a <= b && 0 <= c
    ensures a * c <= b * c
  {
    assert (b - a) * c >= 0;
  }

  lemma MulStrictlyMonotone(a: int, b: int, c: int)
    requires a < b && 0 < c
    ensures a * c < b * c
  {
    MulMonotone(a + 1, b, c);
    assert (a + 1) * c == a * c + c;
  }

  lemma MulCancels(a: int, b: int, c: int)
    requires a * c < b * c && 0 < c
    ensures a < b
  {
    if b <= a {
      MulMonotone(b, a, c);
    }
  }

  lemma Distribute(a: int, b: int, c: int)
    ensures (a + b) * c == a * c + b * c
  {
  }

  lemma DivIsUnique(a: int, b: int, q: int)
    requires 0 < b && q * b <= a < q * b + b
    ensures a / b == q
  {
    var d := a / b;
    assert d * b <= a < d * b + b;
    MulCancels(d, q + 1, b);
    MulCancels(q, d + 1, b);
  }

  lemma DivModIsUnique(a: int, b: int, q: int, r: int)
    requires 0 < b && a == q * b + r && 0 <= r < b
    ensures a / b == q && a % b == r
  {
    DivIsUnique(a, b, q);
    assert a == a / b * b + a % b;
  }

  lemma DivMonotone(a: int, c: int, b: int)
    requires 0 < b && a <= c
    ensures a / b <= c / b
  {
    var p, q := a / b, c / b;
    assert p * b <= a && c < q * b + b;
    MulCancels(p, q + 1, b);
  }

  lemma CeilDivBounds(a: nat, b: int)
    requires 0 < b
    ensures a <= CeilDiv(a, b) * b < a + b
  {
    var q := CeilDiv(a, b);
    assert q * b <= a + b - 1 < q * b + b;
  }

  lemma CeilDivIsUnique(a: nat, b: int, q: nat)
    requires 0 < b && a <= q * b < a + b
    ensures CeilDiv(a, b) == q
  {
    DivIsUnique(a + b - 1, b, q);
  }

  lemma CeilDivShifts(a: nat, b: int, m: nat)
    requires 0 < b
    ensures CeilDiv(a + m * b, b) == CeilDiv(a, b) + m
  {
    CeilDivBounds(a, b);
    var q := CeilDiv(a, b);
    assert (q + m) * b == q * b + m * b;
    CeilDivIsUnique(a + m * b, b, q + m);
  }

  lemma TruncDivBounds(a: int, b: int)
    requires 0 < b
    ensures 0 <= a ==> 0 <= TruncDiv(a, b) * b <= a < TruncDiv(a, b) * b + b
    ensures a <= 0 ==> TruncDiv(a, b) * b - b < a <= TruncDiv(a, b) * b <= 0
  {
    if 0 <= a {
      var q := a / b;
      assert q * b <= a < q * b + b;
      MulCancels(-1, q, b) by { assert -1 * b < q * b; }
      MulMonotone(0, q, b);
    } else {
      var q := -a / b;
      assert q * b <= -a < q * b + b;
      MulCancels(-1, q, b) by { assert -1 * b < q * b; }
      MulMonotone(0, q, b);
      assert TruncDiv(a, b) * b == -(q * b);
    }
    if a == 0 {
      assert 0 / b == 0 by { DivIsUnique(0, b, 0); }
    }
  }

  /** The quotient toward zero of a value between two multiples of the divisor stays between them. */
  lemma TruncDivBetween(a: int, b: int, lo: int, hi: int)
    requires 0 < b && lo * b <= a <= hi * b
    ensures lo <= TruncDiv(a, b) <= hi
  {
    TruncDivBounds(a, b);
    var q := TruncDiv(a, b);
    if 0 <= a {
      MulCancels(lo, q + 1, b) by { assert (q + 1) * b == q * b + b; }
      MulCancels(q, hi + 1, b) by { assert (hi + 1) * b == hi * b + b; }
    } else {
      MulCancels(q - 1, hi, b) by { assert (q - 1) * b == q * b - b; }
      MulCancels(lo - 1, q, b) by { assert (lo - 1) * b == lo * b - b; }
    }
  }

  lemma TruncDivMonotone(a: int, c: int, b: int)
    requires 0 < b && a <= c
    ensures TruncDiv(a, b) <= TruncDiv(c, b)
  {
    if 0 <= a {
      DivMonotone(a, c, b);
    } else if c < 0 {
      DivMonotone(-c, -a, b);
    } else {
      TruncDivBounds(a, b);
      TruncDivBounds(c, b);
      MulCancels(TruncDiv(a, b) - 1, 0, b) by { assert (TruncDiv(a, b) - 1) * b == TruncDiv(a, b) * b - b; }
      MulCancels(-1, TruncDiv(c, b), b) by { assert -1 * b < TruncDiv(c, b) * b; }
    }
  }

  lemma TruncDivOfMultiple(q: int, b: int)
    requires 0 < b
    ensures TruncDiv(q * b, b) == q
  {
    TruncDivBetween(q * b, b, q, q);
  }

  // ---------- wrap-around ----------

  lemma WrapAbsorbs(a: int, b: int)
    ensures Wrap32(Wrap32(a) + b) == Wrap32(a + b)
  {
    var m := 0x1_0000_0000;
    var q := (a + 0x8000_0000) / m;
    assert Wrap32(a) == a - q * m;
    var q' := (a + b + 0x8000_0000) / m;
    DivModIsUnique(a - q * m + b + 0x8000_0000, m, q' - q, (a + b + 0x8000_0000) % m);
  }

  // ---------- quotients of reals ----------

  lemma RealQuotient(a: int, b: int, k: int)
    requires 0 < b
    ensures k * b <= a <==> k as real <= a as real / b as real
    ensures a < k * b <==> a as real / b as real < k as real
  {
    var x := a as real / b as real;
    assert x * b as real == a as real;
    assert (k * b) as real == k as real * b as real;
    if k as real <= x {
      RealMulMonotone(k as real, x, b as real);
    } else {
      RealMulStrictlyMonotone(x, k as real, b as real);
    }
  }

  /** A quotient of naturals is one, and as a real it is not negative. */
  lemma QuotientIsNat(a: nat, b: int)
    requires 0 < b
    ensures 0 <= a / b && 0.0 <= a as real / b as real
  {
    var q := a / b;
    assert a < q * b + b;
    if q < 0 { MulMonotone(q + 1, 0, b); }
    RealQuotient(a, b, 0);
  }

  lemma RealMulMonotone(x: real, y: real, z: real)
    requires x <= y && 0.0 <= z
    ensures x * z <= y * z
  {
    assert 0.0 <= (y - x) * z;
  }

  lemma RealMulStrictlyMonotone(x: real, y: real, z: real)
    requires x < y && 0.0 < z
    ensures x * z < y * z
  {
    assert 0.0 < (y - x) * z;
  }

  lemma FloorOfQuotient(a: int, b: int)
    requires 0 < b
    ensures (a as real / b as real).Floor == a / b
  {
    var q := a / b;
    assert q * b <= a < (q + 1) * b;
    RealQuotient(a, b, q);
    RealQuotient(a, b, q + 1);
  }

  lemma TruncOfQuotient(a: int, b: int)
    requires 0 < b
    ensures Trunc(a as real / b as real) == TruncDiv(a, b)
  {
    RealQuotient(a, b, 0);
    FloorOfQuotient(a, b);
    FloorOfQuotient(-a, b);
    assert -(a as real / b as real) == (-a) as real / b as real;
  }

  lemma CeilOfQuotient(a: nat, b: int)
    requires 0 < b
    ensures Ceil(a as real / b as real) == CeilDiv(a, b)
  {
    hide CeilDiv;
    var c: int := 0 - a;
    FloorOfQuotient(c, b);
    NegatedQuotient(a, b);
    var q := c / b;
    assert q * b <= c < q * b + b;
    NegatedProduct(q, b);
    MulCancels(q, 1, b);
    CeilDivIsUnique(a, b, 0 - q);
  }

  lemma NegatedProduct(q: int, b: int)
    ensures (0 - q) * b == 0 - q * b && 1 * b == b
  {
  }

  lemma NegatedQuotient(a: int, b: int)
    requires 0 < b
    ensures -(a as real / b as real) == (0 - a) as real / b as real
  {
  }
}
