/** Non-negative integer arithmetic of IEEE 754-2019 binary64, rounding to nearest with
    ties to even (section 4.3.1 of IEEE 754-2019). */
module Doubles {

  /** 2^53: below it every integer is a double. */
  const TWO53: nat := 9007199254740992

  const EXPONENT_LIMIT: nat := 1024

  function Pow2(e: nat): (p: nat)
    ensures p > 0
  {
    if e == 0 then 1 else 2 * Pow2(e - 1)
  }

  /** The distance between neighbouring doubles around `x`. */
  function Ulp(x: nat): (u: nat)
    ensures u > 0
  {
    if x < TWO53 then 1 else 2 * Ulp(x / 2)
  }

  /** The multiple of the spacing nearest to `x`, counted in spacings; ties to even. */
  function Significand(x: nat): nat {
    var q, r := x / Ulp(x), x % Ulp(x);
    if 2 * r < Ulp(x) || (2 * r == Ulp(x) && q % 2 == 0) then q else q + 1
  }

  /** The double nearest to `x`, exponent unbounded. */
  function Round(x: nat): nat { Significand(x) * Ulp(x) }

  /** `y` has a significand of at most 53 bits. */
  ghost predicate Representable(y: nat) {
    exists m: nat, e: nat :: IsScaled(y, m, e) && m < TWO53
  }

  predicate IsScaled(y: nat, m: nat, e: nat) { y == m * Pow2(e) }

  function Distance(x: nat, y: nat): nat { if x < y then y - x else x - y }

  datatype Double = Finite(n: nat) | Infinity

  /** Rounding with the binary64 exponent range. */
  function ToDouble(x: nat): Double {
    if Round(x) >= Pow2(EXPONENT_LIMIT) then Infinity else Finite(Round(x))
  }

  function Add(x: Double, y: Double): Double {
    if x.Finite? && y.Finite? then ToDouble(x.n + y.n) else Infinity
  }

  /** The product by a positive constant. */
  function Scale(x: Double, factor: nat): Double
    requires factor > 0
  {
    if x.Finite? then ToDouble(x.n * factor) else Infinity
  }

  lemma {:induction false} Pow2Monotone(a: nat, b: nat)
    requires a <= b
    ensures Pow2(a) <= Pow2(b)
  {
    if a < b { Pow2Monotone(a, b - 1); }
  }

  lemma {:induction false} Pow2Adds(a: nat, b: nat)
    ensures Pow2(a + b) == Pow2(a) * Pow2(b)
  {
    if a > 0 { Pow2Adds(a - 1, b); }
  }

  /** The spacing is a power of two that scales `x` into 53 bits, using all of them
      once it exceeds one. */
  lemma {:induction false} UlpBounds(x: nat) returns (e: nat)
    ensures Ulp(x) == Pow2(e)
    ensures x < TWO53 * Ulp(x)
    ensures e > 0 <==> x >= TWO53
    ensures x >= TWO53 ==> TWO53 / 2 * Ulp(x) <= x
  {
    if x < TWO53 {
      e := 0;
    } else {
      var d := UlpBounds(x / 2);
      e := d + 1;
    }
  }

  lemma MulMonotone(a: nat, b: nat, u: nat)
    requires a <= b
    ensures a * u <= b * u
  {
  }

  lemma MulAssociates(a: nat, b: nat, c: nat)
    ensures a * (b * c) == (a * b) * c
  {
  }

  lemma MultipleOfSmaller(m: nat, p: nat, u: nat) returns (n: nat)
    ensures m * (p * u) == n * u
  {
    n := m * p;
    MulAssociates(m, p, u);
  }

  lemma QuotientAtLeast(a: nat, x: nat, u: nat)
    requires u > 0 && a * u <= x
    ensures x / u >= a
  {
    if x / u < a { MulMonotone(x / u + 1, a, u); }
  }

  lemma MultipleOutside(n: nat, q: nat, u: nat)
    ensures n * u <= q * u || n * u >= (q + 1) * u
  {
    if n <= q { MulMonotone(n, q, u); } else { MulMonotone(q + 1, n, u); }
  }

  /** Above 2^53 the quotient by the spacing is a full 53-bit significand. */
  lemma QuotientBounds(x: nat)
    ensures x / Ulp(x) < TWO53
    ensures x >= TWO53 ==> x / Ulp(x) >= TWO53 / 2
  {
    var e := UlpBounds(x);
    if x >= TWO53 { QuotientAtLeast(TWO53 / 2, x, Ulp(x)); }
    if x / Ulp(x) >= TWO53 { MulMonotone(TWO53, x / Ulp(x), Ulp(x)); }
  }

  /** No representable number lies strictly between two neighbouring multiples of the spacing. */
  lemma NoneBetween(x: nat, y: nat)
    requires Representable(y)
    ensures y <= x / Ulp(x) * Ulp(x) || y >= (x / Ulp(x) + 1) * Ulp(x)
  {
    var e := UlpBounds(x);
    QuotientBounds(x);
    var m: nat, k: nat :| IsScaled(y, m, k) && m < TWO53;
    AwayFromGap(m, k, e, x / Ulp(x));
  }

  lemma AwayFromGap(m: nat, k: nat, e: nat, q: nat)
    requires m < TWO53 && (e > 0 ==> q >= TWO53 / 2)
    ensures m * Pow2(k) <= q * Pow2(e) || m * Pow2(k) >= (q + 1) * Pow2(e)
  {
    if k >= e {
      Pow2Adds(k - e, e);
      var n := MultipleOfSmaller(m, Pow2(k - e), Pow2(e));
      MultipleOutside(n, q, Pow2(e));
    } else {
      BelowBinade(m, k, e, q);
    }
  }

  lemma BelowBinade(m: nat, k: nat, e: nat, q: nat)
    requires m < TWO53 && k < e && q >= TWO53 / 2
    ensures m * Pow2(k) <= q * Pow2(e)
  {
    Pow2Monotone(k, e - 1);
    BelowBinadeScaled(m, Pow2(k), q, Pow2(e - 1));
  }

  lemma BelowBinadeScaled(m: nat, small: nat, q: nat, half: nat)
    requires m < TWO53 && small <= half && q >= TWO53 / 2
    ensures m * small <= q * (2 * half)
  {
    MulMonotone(m, TWO53, small);
    MulMonotone(TWO53 / 2, q, 2 * half);
  }

  lemma RoundIsRepresentable(x: nat)
    ensures Representable(Round(x))
  {
    var e := UlpBounds(x);
    QuotientBounds(x);
    var m := Significand(x);
    assert m <= TWO53;
    if m < TWO53 {
      assert IsScaled(m * Ulp(x), m, e);
    } else {
      assert Pow2(e + 1) == 2 * Ulp(x);
      assert IsScaled(TWO53 * Ulp(x), TWO53 / 2, e + 1);
    }
  }

  /** Rounding returns a nearest representable number, and on a tie the one whose
      significand is even. */
  lemma RoundIsNearest(x: nat, y: nat)
    requires Representable(y)
    ensures Representable(Round(x))
    ensures Distance(x, Round(x)) <= Distance(x, y)
    ensures Distance(x, Round(x)) == Distance(x, y) && y != Round(x) ==> Significand(x) % 2 == 0
  {
    RoundIsRepresentable(x);
    NoneBetween(x, y);
    RoundCases(x);
    NearerNeighbour(x, y, x / Ulp(x), x / Ulp(x) * Ulp(x), Ulp(x), Significand(x), Round(x));
  }

  lemma RoundCases(x: nat)
    ensures var u, q := Ulp(x), x / Ulp(x);
            && q * u <= x < q * u + u == (q + 1) * u
            && ((Significand(x) == q && Round(x) == q * u)
                || (Significand(x) == q + 1 && Round(x) == q * u + u))
            && (Significand(x) == q <==> 2 * (x - q * u) < u || (2 * (x - q * u) == u && q % 2 == 0))
  {
    DivisionBounds(x, Ulp(x));
  }

  lemma DivisionBounds(x: nat, u: nat)
    requires u > 0
    ensures x / u * u <= x < x / u * u + u == (x / u + 1) * u
    ensures x % u == x - x / u * u
  {
  }

  lemma NearerNeighbour(x: nat, y: nat, q: nat, lo: nat, u: nat, n: nat, round: nat)
    requires lo <= x < lo + u && (y <= lo || y >= lo + u)
    requires (n == q && round == lo) || (n == q + 1 && round == lo + u)
    requires n == q <==> 2 * (x - lo) < u || (2 * (x - lo) == u && q % 2 == 0)
    ensures Distance(x, round) <= Distance(x, y)
    ensures Distance(x, round) == Distance(x, y) && y != round ==> n % 2 == 0
  {
  }

  /** Integers below 2^53 are exact; the others stay at or above 2^53. */
  lemma RoundThreshold(x: nat)
    ensures x < TWO53 ==> Round(x) == x
    ensures x >= TWO53 ==> Round(x) >= TWO53
  {
    var e := UlpBounds(x);
    QuotientBounds(x);
    if x >= TWO53 { MulMonotone(TWO53 / 2, Significand(x), Ulp(x)); }
  }

  lemma Pow2Of53()
    ensures Pow2(53) == TWO53
  {
    assert Pow2(13) == 8192;
    assert Pow2(14) == 16384;
    Pow2Adds(13, 13);
    Pow2Adds(13, 14);
    Pow2Adds(26, 27);
  }

  lemma ToDoubleThreshold(x: nat)
    ensures x < TWO53 ==> ToDouble(x) == Finite(x)
    ensures x >= TWO53 ==> ToDouble(x).Infinity? || ToDouble(x).n >= TWO53
  {
    RoundThreshold(x);
    Pow2Monotone(53, EXPONENT_LIMIT);
    Pow2Of53();
  }
}
