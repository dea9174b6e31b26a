/**
 * Counts as Rust's `f32` (IEEE 754 binary32): 24 significant bits, rounding to nearest, ties to even.
 * Only what a ratio of two counts needs: the conversion from an integer and the rounded quotient below one.
 */
module Singles {
  const HALF := 0x80_0000
  const PRECISION := 0x100_0000

  // ---------------------------------------------------------------------------------------
  // Conversion.
  // ---------------------------------------------------------------------------------------

  /** The spacing of singles around `n`. */
  function Ulp(n: nat): (u: nat)
    ensures u > 0
  {
    if n < PRECISION then 1 else 2 * Ulp(n / 2)
  }

  /** `n / d` to the nearest integer, ties to even. */
  function Nearest(n: nat, d: nat): nat
    requires d > 0
  {
    Rounded(n / d, n % d, d)
  }

  function Rounded(q: nat, r: nat, d: nat): nat {
    if 2 * r < d || (2 * r == d && q % 2 == 0) then q else q + 1
  }

  /** `n as f32`, whose value is an integer. */
  function Single(n: nat): nat {
    Nearest(n, Ulp(n)) * Ulp(n)
  }

  /** A whole number that 24 significant bits can hold. */
  predicate Representable(v: nat) {
    v < PRECISION || (v % 2 == 0 && Representable(v / 2))
  }

  lemma Quotients(n: nat, d: nat)
    requires d > 0
    ensures n / d * d <= n < n / d * d + d && n == n / d * d + n % d
  {
    assert n == d * (n / d) + n % d;
  }

  lemma StepUp(q: nat, d: nat)
    ensures (q + 1) * d == q * d + d
  {
  }

  lemma Scaled(a: nat, b: nat, u: nat)
    ensures a <= b ==> a * u <= b * u
    ensures u > 0 && a * u <= b * u ==> a <= b
  {
    StepUp(b, u);
    if a > b { Larger(b + 1, a, u); }
  }

  lemma Larger(a: nat, b: nat, u: nat)
    requires a <= b
    ensures a * u <= b * u
  {
  }

  lemma {:induction false} UlpBounds(n: nat)
    ensures n < PRECISION * Ulp(n)
    ensures Ulp(n) > 1 ==> n >= HALF * Ulp(n)
  {
    if n >= PRECISION {
      UlpBounds(n / 2);
    }
  }

  lemma UlpQuotient(n: nat)
    ensures n / Ulp(n) < PRECISION && (Ulp(n) > 1 ==> n / Ulp(n) >= HALF)
  {
    UlpBounds(n);
    var u := Ulp(n);
    hide Ulp;
    var q := n / u;
    Quotients(n, u);
    StepUp(q, u);
    if q >= PRECISION { Scaled(PRECISION, q, u); }
    if u > 1 && q < HALF { Scaled(q + 1, HALF, u); }
  }

  lemma {:induction false} UlpGrows(n: nat, m: nat)
    requires n <= m
    ensures Ulp(n) <= Ulp(m) && (Ulp(n) < Ulp(m) ==> 2 * Ulp(n) <= Ulp(m))
  {
    if n >= PRECISION { UlpGrows(n / 2, m / 2); }
    else if m >= PRECISION { assert Ulp(m / 2) >= 1; }
  }

  lemma SingleOfSmall(n: nat)
    requires n <= PRECISION
    ensures Single(n) == n
  {
    if n == PRECISION {
      assert Ulp(n) == 2 * Ulp(HALF) == 2;
    }
  }

  /** Converting keeps the order. */
  lemma SingleGrows(n: nat, m: nat)
    requires n <= m
    ensures Single(n) <= Single(m)
  {
    var u, v := Ulp(n), Ulp(m);
    UlpGrows(n, m);
    UlpQuotient(n);
    UlpQuotient(m);
    if u == v {
      NearestGrows(n, m, u);
      Scaled(Nearest(n, u), Nearest(m, u), u);
    } else {
      Scaled(Nearest(n, u), PRECISION, u);
      Scaled(HALF, Nearest(m, v), v);
      assert PRECISION * u == HALF * (2 * u) <= HALF * v;
    }
  }

  lemma NearestGrows(n: nat, m: nat, d: nat)
    requires n <= m && d > 0
    ensures Nearest(n, d) <= Nearest(m, d)
  {
    hide Rounded;
    QuotientsGrow(n, m, d);
    RoundedGrows(n / d, n % d, m / d, m % d, d);
  }

  lemma QuotientsGrow(n: nat, m: nat, d: nat)
    requires n <= m && d > 0
    ensures n / d < m / d || (n / d == m / d && n % d <= m % d)
  {
    Quotients(n, d);
    Quotients(m, d);
    var q, p := n / d, m / d;
    StepUp(p, d);
    if q > p { Scaled(p + 1, q, d); }
  }

  lemma RoundedGrows(q: nat, r: nat, p: nat, s: nat, d: nat)
    requires q < p || (q == p && r <= s)
    ensures Rounded(q, r, d) <= Rounded(p, s, d)
  {
  }

  lemma {:induction false} Doubled(v: nat)
    requires Representable(v)
    ensures Representable(2 * v)
  {
    assert 2 * v / 2 == v;
  }

  lemma {:induction false} MultipleOfUlp(n: nat, k: nat)
    requires k <= PRECISION
    ensures Representable(k * Ulp(n))
  {
    if n < PRECISION {
      if k == PRECISION { assert Representable(HALF); Doubled(HALF); }
    } else {
      MultipleOfUlp(n / 2, k);
      Doubled(k * Ulp(n / 2));
      assert k * Ulp(n) == 2 * (k * Ulp(n / 2));
    }
  }

  lemma SingleIsRepresentable(n: nat)
    ensures Representable(Single(n))
  {
    UlpQuotient(n);
    MultipleOfUlp(n, Nearest(n, Ulp(n)));
  }

  /** Two different singles are at least one part in 2^24 apart. */
  lemma {:induction false} Apart(a: nat, b: nat)
    requires Representable(a) && Representable(b) && a < b
    ensures PRECISION * (b - a) >= b
  {
    if a >= PRECISION { Apart(a / 2, b / 2); }
  }

  // ---------------------------------------------------------------------------------------
  // Division.
  // ---------------------------------------------------------------------------------------

  /** `a / b` as `f32` for a quotient below 2^24: scaled up to 24 bits, rounded, scaled back. */
  function Quotient(a: nat, b: nat): real
    requires 0 < a < PRECISION * b
    decreases PRECISION * b - a
  {
    if a < HALF * b then Quotient(2 * a, b) / 2.0 else Nearest(a, b) as real
  }

  predicate PowerOfTwo(p: nat) {
    p == 1 || (p > 1 && p % 2 == 0 && PowerOfTwo(p / 2))
  }

  lemma {:induction false} QuotientAtMost(a: nat, b: nat)
    requires 0 < a < PRECISION * b
    ensures Quotient(a, b) <= PRECISION as real
    decreases PRECISION * b - a
  {
    if a < HALF * b {
      QuotientAtMost(2 * a, b);
    } else {
      Quotients(a, b);
      if a / b >= PRECISION { Scaled(PRECISION, a / b, b); }
    }
  }

  /** A quotient that is at least one part in 2^24 below a power of two is rounded to less than it. */
  lemma {:induction false} QuotientBelow(a: nat, b: nat, p: nat)
    requires 0 < a < PRECISION * b && a < p * b && PowerOfTwo(p) && p <= PRECISION
    requires PRECISION * (p * b - a) >= p * b
    ensures Quotient(a, b) < p as real
    decreases PRECISION * b - a
  {
    hide Nearest, PowerOfTwo;
    PowersBelow(p);
    if a >= HALF * b {
      if p <= HALF { Scaled(p, HALF, b); }
      AtFullPrecision(a, b);
    } else if p == PRECISION {
      QuotientAtMost(2 * a, b);
    } else {
      DoubledProduct(p, b);
      QuotientBelow(2 * a, b, 2 * p);
    }
  }

  lemma DoubledProduct(p: nat, b: nat)
    ensures 2 * p * b == 2 * (p * b)
  {
  }

  lemma AtFullPrecision(a: nat, b: nat)
    requires 0 < a < PRECISION * b && PRECISION * (PRECISION * b - a) >= PRECISION * b
    ensures Nearest(a, b) <= PRECISION - 1
  {
    Quotients(a, b);
    StepUp(PRECISION - 1, b);
    assert a <= (PRECISION - 1) * b;
    var q := a / b;
    Scaled(q, PRECISION - 1, b);
    assert q < PRECISION - 1 ==> Nearest(a, b) <= q + 1;
    if q == PRECISION - 1 {
      assert q * b == (PRECISION - 1) * b;
      assert a % b == 0;
    }
  }

  lemma {:induction false} PowersBelow(p: nat)
    requires PowerOfTwo(p) && p <= PRECISION
    ensures p == PRECISION || p <= HALF
    ensures PowerOfTwo(2 * p)
  {
    PrecisionIsPower();
    PowersApart(p, PRECISION);
    assert 2 * p / 2 == p;
  }

  lemma PrecisionIsPower()
    ensures PowerOfTwo(PRECISION)
  {
    assert PowerOfTwo(0x40);
    assert PowerOfTwo(0x1000);
    assert PowerOfTwo(0x4_0000);
  }

  lemma {:induction false} PowersApart(p: nat, q: nat)
    requires PowerOfTwo(p) && PowerOfTwo(q) && p <= q
    ensures p == q || 2 * p <= q
  {
    if p > 1 { PowersApart(p / 2, q / 2); }
  }

  /** `n as f32 / total as f32`, clamped to at most one. */
  function Ratio(n: nat, total: nat): real
    requires total > 0
  {
    if Single(n) >= Single(total) then 1.0
    else if Single(n) == 0 then 0.0
    else assert Single(n) < PRECISION * Single(total); Quotient(Single(n), Single(total))
  }

  /** The rounded ratio is one exactly when the two counts are the same single. */
  lemma RatioIsOneIff(n: nat, total: nat)
    requires n <= total && total > 0
    ensures Ratio(n, total) == 1.0 <==> Single(n) == Single(total)
  {
    SingleGrows(n, total);
    var a, b := Single(n), Single(total);
    if 0 < a < b {
      SingleIsRepresentable(n);
      SingleIsRepresentable(total);
      Apart(a, b);
      QuotientBelow(a, b, 1);
    }
  }

  /** Every smaller count has a ratio below one exactly when the next smaller one is another single. */
  lemma RatiosBelowOneIff(total: nat)
    requires total > 0
    ensures (forall n: nat :: n < total ==> Ratio(n, total) != 1.0) <==> Single(total - 1) != Single(total)
  {
    hide Ratio, Single;
    RatioIsOneIff(total - 1, total);
    forall n: nat | n < total ensures Single(n) <= Single(total - 1) <= Single(total)
        && (Ratio(n, total) == 1.0 <==> Single(n) == Single(total)) {
      SingleGrows(n, total - 1);
      SingleGrows(total - 1, total);
      RatioIsOneIff(n, total);
    }
  }
}
