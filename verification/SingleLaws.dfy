/**
 * How close the damage fraction is (IEEE 754 sections 4.3.1 and 5.4): each conversion gives the nearest single, each
 * quotient is off by at most one part in 2^24, and so the fraction by at most four.
 */
module SingleLaws {
  import opened Singles
  import DirtyTiles

  function Distance(a: int, b: int): nat { if a < b then b - a else a - b }

  // ---------------------------------------------------------------------------------------
  // Conversion.
  // ---------------------------------------------------------------------------------------

  /** From the top of the range whose singles are `Ulp(n)` apart, they are multiples of it. */
  lemma {:induction false} SinglesAreMultiples(v: nat, n: nat) returns (k: nat)
    requires Representable(v) && v >= HALF * Ulp(n)
    ensures v == k * Ulp(n)
  {
    if n < PRECISION {
      k := v;
    } else {
      assert v >= HALF * (2 * Ulp(n / 2)) >= PRECISION;
      k := SinglesAreMultiples(v / 2, n / 2);
      assert v == 2 * (k * Ulp(n / 2));
    }
  }

  lemma RoundedIsNearest(q: nat, r: nat, d: nat, k: nat)
    requires r < d
    ensures Distance(q * d + r, Rounded(q, r, d) * d) <= Distance(q * d + r, k * d)
    ensures 2 * Distance(q * d + r, Rounded(q, r, d) * d) <= d
    ensures 2 * Distance(q * d + r, Rounded(q, r, d) * d) == d ==> Rounded(q, r, d) % 2 == 0
  {
    StepUp(q, d);
    if k <= q { Scaled(k, q, d); } else { Scaled(q + 1, k, d); }
  }

  lemma NearestOf(n: nat, d: nat, k: nat)
    requires d > 0
    ensures Distance(n, Nearest(n, d) * d) <= Distance(n, k * d)
    ensures 2 * Distance(n, Nearest(n, d) * d) <= d
    ensures 2 * Distance(n, Nearest(n, d) * d) == d ==> Nearest(n, d) % 2 == 0
  {
    hide Rounded;
    Quotients(n, d);
    RoundedIsNearest(n / d, n % d, d, k);
  }

  /** Converting gives the nearest single, and halfway between two the even multiple of their spacing. */
  lemma SingleIsNearest(n: nat, v: nat)
    requires Representable(v)
    ensures Representable(Single(n)) && Distance(n, Single(n)) <= Distance(n, v)
    ensures exists k: nat :: Single(n) == k * Ulp(n) && (2 * Distance(n, Single(n)) == Ulp(n) ==> k % 2 == 0)
  {
    hide Representable, Nearest, Ulp;
    var u := Ulp(n);
    SingleIsRepresentable(n);
    UlpBounds(n);
    NearestOf(n, u, HALF);
    assert Single(n) == Nearest(n, u) * u;
    if v >= HALF * u {
      var k := SinglesAreMultiples(v, n);
      NearestOf(n, u, k);
    } else if u == 1 {
      NearestOf(n, u, n);
    }
  }

  /** The relative error of a conversion is at most one part in 2^24. */
  lemma SingleIsClose(n: nat)
    ensures PRECISION * Distance(n, Single(n)) <= n
  {
    hide Nearest, Ulp;
    UlpBounds(n);
    NearestOf(n, Ulp(n), n);
  }

  // ---------------------------------------------------------------------------------------
  // Division.
  // ---------------------------------------------------------------------------------------

  /** `a` is within one part in 2^24 of `b`. */
  predicate Near(a: real, b: real) { 16777215.0 * b <= 16777216.0 * a <= 16777217.0 * b }

  function Product(x: real, n: nat): real { x * n as real }

  lemma Halves(x: real, n: nat)
    ensures Product(x / 2.0, n) == Product(x, n) / 2.0
  {
  }

  lemma Whole(m: nat, n: nat)
    ensures Product(m as real, n) == (m * n) as real
  {
  }

  /** A quotient is off by at most one part in 2^24. */
  lemma {:induction false} QuotientIsClose(a: nat, b: nat)
    requires 0 < a < PRECISION * b
    ensures Quotient(a, b) > 0.0 && Near(Product(Quotient(a, b), b), a as real)
    decreases PRECISION * b - a
  {
    hide Nearest, Product;
    if a < HALF * b {
      QuotientIsClose(2 * a, b);
      Halves(Quotient(2 * a, b), b);
    } else {
      NearestOf(a, b, 0);
      Whole(Nearest(a, b), b);
      Full(Nearest(a, b), a, b);
    }
  }

  lemma Full(m: nat, a: nat, b: nat)
    requires a >= HALF * b > 0 && 2 * Distance(a, m * b) <= b
    ensures m > 0 && Near((m * b) as real, a as real)
  {
    var mb := m * b;
    assert 16777215 * a <= 16777216 * mb <= 16777217 * a;
  }

  /** The quotient's 24 significant bits. */
  lemma {:induction false} QuotientIsSingle(a: nat, b: nat) returns (m: nat, scale: nat)
    requires 0 < a < PRECISION * b
    ensures HALF <= m <= PRECISION && PowerOfTwo(scale) && Quotient(a, b) * scale as real == m as real
    decreases PRECISION * b - a
  {
    hide Nearest;
    if a < HALF * b {
      m, scale := QuotientIsSingle(2 * a, b);
      assert 2 * scale / 2 == scale;
      scale := 2 * scale;
    } else {
      m, scale := Nearest(a, b), 1;
      QuotientAtMost(a, b);
      NearestOf(a, b, HALF);
      assert b > 0;
      if m < HALF {
        StepUp(m, b);
        Scaled(m + 1, HALF, b);
      }
    }
  }

  // ---------------------------------------------------------------------------------------
  // The fraction.
  // ---------------------------------------------------------------------------------------

  lemma Between(x: real, low: nat, high: nat)
    requires x >= 0.0 && low <= high
    ensures Product(x, low) <= Product(x, high)
  {
    assert Product(x, high) - Product(x, low) == Product(x, high - low);
  }

  lemma Multiple(x: real, k: nat, n: nat)
    ensures Product(x, k * n) == k as real * Product(x, n)
  {
    assert (k * n) as real == k as real * n as real;
  }

  predicate WithinFour(a: real, b: real) { 16777212.0 * b <= 16777216.0 * a <= 16777220.0 * b }

  /** Three such errors, in x = sn / st and in sn and st, make at most four together. */
  lemma ThreeErrors(x: real, sn: nat, st: nat, n: nat, t: nat)
    requires x >= 0.0 && 0 < n && Near(Product(x, st), sn as real)
    requires PRECISION * Distance(n, sn) <= n && PRECISION * Distance(t, st) <= t
    ensures WithinFour(Product(x, t), n as real)
  {
    hide Product;
    Between(x, 16777215 * t, 16777216 * st);
    Between(x, 16777216 * st, 16777217 * t);
    Multiple(x, 16777215, t);
    Multiple(x, 16777216, st);
    Multiple(x, 16777217, t);
    FourParts(Product(x, t), Product(x, st), sn as real, n as real);
  }

  lemma FourParts(xt: real, xst: real, sn: real, n: real)
    requires 16777215.0 * xt <= 16777216.0 * xst <= 16777217.0 * xt
    requires n > 0.0 && Near(xst, sn) && Near(sn, n)
    ensures WithinFour(xt, n)
  {
  }

  /**
   * The fraction is at most one, zero exactly for no damage or an empty grid, one for damage that fills or exceeds
   * the grid, and below that within four parts in 2^24 of the true ratio of dirty tiles to all tiles.
   */
  lemma FractionIsClose(count: nat, total: nat)
    ensures var f := DirtyTiles.Fraction(count, total);
      && 0.0 <= f <= 1.0 && (f == 0.0 <==> count == 0 || total == 0)
      && (count >= total > 0 ==> f == 1.0)
      && (count <= total ==> WithinFour(Product(f, total), count as real))
  {
    hide Single, Ratio, Product;
    var sn, st, f := Single(count), Single(total), Ratio(count, if total == 0 then 1 else total);
    SingleIsClose(count);
    SingleIsClose(total);
    Whole(0, total);
    if total > 0 && count >= total {
      SingleGrows(total, count);
      FullRatio(count, total);
    }
    if total > 0 && count == 0 { NoDamage(total); }
    if 0 < count <= total {
      SingleGrows(count, total);
      RatioIsClose(count, total);
      ThreeErrors(f, sn, st, count, total);
    }
  }

  lemma FullRatio(n: nat, total: nat)
    requires total > 0 && Single(n) >= Single(total)
    ensures Ratio(n, total) == 1.0
  {
  }

  lemma NoDamage(total: nat)
    requires total > 0
    ensures Ratio(0, total) == 0.0
  {
    hide Nearest, Ulp, Quotient;
    SingleIsClose(0);
    SingleIsClose(total);
  }

  lemma RatioIsClose(n: nat, total: nat)
    requires 0 < Single(n) <= Single(total) && total > 0
    ensures 0.0 < Ratio(n, total) <= 1.0 && Near(Product(Ratio(n, total), Single(total)), Single(n) as real)
  {
    hide Single, Product, Quotient;
    var sn, st := Single(n), Single(total);
    if sn < st { QuotientNear(sn, st); } else { Whole(1, sn); }
  }

  lemma QuotientNear(a: nat, b: nat)
    requires 0 < a < b
    ensures 0.0 < Quotient(a, b) <= 1.0 && Near(Product(Quotient(a, b), b), a as real)
  {
    hide Quotient, Product;
    QuotientIsClose(a, b);
    QuotientAtMostOne(a, b);
  }

  /** Rounding does not carry a quotient past one. */
  lemma {:induction false} QuotientAtMostOne(a: nat, b: nat)
    requires 0 < a < b
    ensures Quotient(a, b) <= 1.0
  {
    QuotientUpTo(a, b, 1);
  }

  lemma {:induction false} QuotientUpTo(a: nat, b: nat, p: nat)
    requires 0 < a < PRECISION * b && a <= p * b && PowerOfTwo(p) && p <= PRECISION
    ensures Quotient(a, b) <= p as real
    decreases PRECISION * b - a
  {
    hide Nearest, PowerOfTwo;
    if a < HALF * b {
      PowersBelow(p);
      if p == PRECISION {
        QuotientAtMost(2 * a, b);
      } else {
        DoubledProduct(p, b);
        QuotientUpTo(2 * a, b, 2 * p);
      }
    } else {
      NearestUpTo(a, b, p);
    }
  }

  lemma NearestUpTo(a: nat, b: nat, p: nat)
    requires b > 0 && a <= p * b
    ensures Nearest(a, b) <= p
  {
    hide Rounded;
    NearestGrows(a, p * b, b);
    NearestOf(p * b, b, p);
    Exactly(Nearest(p * b, b), p, b);
  }

  lemma Exactly(m: nat, p: nat, b: nat)
    requires b > 0 && Distance(p * b, m * b) == 0
    ensures m == p
  {
    Scaled(m, p, b);
    Scaled(p, m, b);
  }
}
