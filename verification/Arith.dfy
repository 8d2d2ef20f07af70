/** Small facts about quotients, positional notation and bitwise or, as bit layouts need them. */
module Arith {
  import opened Basics

  lemma MulAtLeast(x: int, w: int)
    requires x >= 1 && w >= 0
    ensures x * w >= w
  {
  }

  lemma QuotientIs(q: int, d: int, low: int, w: int)
    requires w > 0 && 0 <= low < w && q == d * w + low
    ensures q / w == d && q % w == low
  {
    var e := q / w;
    assert q == e * w + q % w;
    var f := e - d;
    assert f * w == e * w - d * w;
    assert (-f) * w == -(f * w);
    if f >= 1 {
      MulAtLeast(f, w);
    } else if f <= -1 {
      MulAtLeast(-f, w);
    }
  }

  /** A field of weight `w` and range `m` inside a sum of disjoint fields. */
  lemma FieldAt(q: int, high: int, v: int, low: int, w: int, m: int)
    requires w > 0 && 0 <= low < w && 0 <= v < m
    requires q == (high * m + v) * w + low
    ensures q / w % m == v
  {
    QuotientIs(q, high * m + v, low, w);
    QuotientIs(high * m + v, high, v, m);
  }

  /** Bitwise or. */
  function BitOr(x: nat, y: nat): nat {
    if x == 0 && y == 0 then 0
    else 2 * BitOr(x / 2, y / 2) + (if x % 2 == 1 || y % 2 == 1 then 1 else 0)
  }

  /** The bits above the ones of `y` stay as they are, and if `x` has none below, nothing overlaps. */
  lemma {:induction false} BitOrParts(x: nat, y: nat, k: nat)
    requires y < Pow2(k)
    ensures BitOr(x, y) / Pow2(k) == x / Pow2(k)
    ensures x % Pow2(k) == 0 ==> BitOr(x, y) == x + y
  {
    if k == 0 {
      BitOrZero(x);
    } else {
      BitOrParts(x / 2, y / 2, k - 1);
      var h, r := Pow2(k - 1), BitOr(x, y);
      assert r / 2 == BitOr(x / 2, y / 2);
      HalfQuotient(r, h);
      HalfQuotient(x, h);
    }
  }

  lemma {:induction false} BitOrZero(x: nat)
    ensures BitOr(x, 0) == x
  {
    if x > 0 {
      BitOrZero(x / 2);
    }
  }

  lemma HalfQuotient(x: nat, h: nat)
    requires h > 0
    ensures x / (2 * h) == x / 2 / h
    ensures x % (2 * h) == 0 ==> x % 2 == 0 && x / 2 % h == 0
  {
    var q, r := x / 2 / h, x / 2 % h;
    assert x / 2 == q * h + r && x == 2 * (x / 2) + x % 2;
    assert x == q * (2 * h) + (2 * r + x % 2);
    QuotientIs(x, q, 2 * r + x % 2, 2 * h);
  }

  function CeilDiv(a: nat, b: nat): nat
    requires b > 0
  {
    (a + b - 1) / b
  }
}
