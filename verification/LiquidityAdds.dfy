/**
 Adding liquidity in a ratio other than the pool's: how much of the heavy side is swapped first,
 and how many pool units the add earns.
 */
module LiquidityAdds {
  import opened Decimal
  import opened Swaps
  import opened Types

  // ---------- The quadratic both closed forms solve ----------

  function Quadratic(a: real, b: real, c: real, s: real): real {
    a * s * s + b * s + c
  }

  /**
   How far the amounts left to add fall short of the pool's ratio when s of x is swapped for out
   of the other asset: positive once they hold too little of x's asset, negative while they hold too much.
   Zero means (x + X) / (y + Y) == (x - s) / (y + out).
   */
  function Imbalance(X: real, x: real, Y: real, y: real, s: real, out: real): real {
    (x + X) * (y + out) - (x - s) * (y + Y)
  }

  /** Clearing a positive denominator k of the swap's output keeps the sign of the imbalance. */
  lemma SameSign(X: real, x: real, Y: real, y: real, s: real, out: real, k: real, outK: real, q: real)
    requires k > 0.0 && out * k == outK && q == (x + X) * (y * k + outK) - (x - s) * (y + Y) * k
    ensures Imbalance(X, x, Y, y, s, out) <= 0.0 <==> q <= 0.0
  {
    var g := Imbalance(X, x, Y, y, s, out);
    assert g * k == q by {
      assert (x + X) * (y + out) * k == (x + X) * (y * k + out * k);
    }
    if g > 0.0 { MulPos(g, k); }
  }

  /** ApproxRatSquareRoot. */
  function RatSqrt(d: real): nat
    requires d >= 0.0
  {
    ISqrt(Trunc(d))
  }

  /** The root of the quadratic as the code computes it from an integer square root n of its discriminant. */
  function RootFrom(a: real, b: real, n: nat): int
    requires a > 0.0
  {
    Trunc(Abs((n as real - b) / (2.0 * a)))
  }

  function Slope(a: real, b: real, s: real): real {
    2.0 * a * s + b
  }

  /** The sign of the quadratic at s is that of its squared slope there less the discriminant. */
  lemma SignFromSlope(a: real, b: real, c: real, s: real, t: real, d: real)
    requires a > 0.0 && t == Slope(a, b, s) && d == b * b - 4.0 * a * c
    ensures Quadratic(a, b, c, s) <= 0.0 <==> t * t <= d
  {
    var q := Quadratic(a, b, c, s);
    assert 4.0 * a * q == t * t - d;
    assert q <= 0.0 <==> a * q <= 0.0;
  }

  lemma MulPos(x: real, y: real)
    requires x > 0.0 && y > 0.0
    ensures x * y > 0.0
  {
  }

  lemma SquareLe(t: real, n: real)
    requires -n <= t <= n
    ensures t * t <= n * n
  {
    assert (n - t) * (n + t) >= 0.0;
  }

  lemma SquareGt(t: real, n: real)
    requires t > n >= 0.0
    ensures t * t > n * n
  {
    MulPos(t - n, t + n);
    assert (t - n) * (t + n) == t * t - n * n;
  }

  lemma SquareBrackets(n: nat, k: nat, d: real)
    requires Square(n) <= k < Square(n + 1) && k as real <= d < k as real + 1.0
    ensures n as real * n as real <= d < (n as real + 1.0) * (n as real + 1.0)
  {
    RealMul(n, n);
    RealMul(n + 1, n + 1);
    assert (n + 1) as real == n as real + 1.0;
  }

  /** The slope at the truncated quotient stays inside the rounded-down root n, and two further on exceeds it. */
  lemma SlopeAtQuotient(a: real, b: real, n: real, q: real, s: int)
    requires a >= 1.0 && b <= n && 2.0 * a * q == n - b && q >= 0.0 && s == Trunc(q)
    ensures s >= 0 && b <= Slope(a, b, s as real) <= n && n + 1.0 < Slope(a, b, s as real + 2.0)
  {
    var sr := s as real;
    var below, above := q - sr, sr + 1.0 - q;
    assert a * below >= 0.0 && a * above >= 0.0 && a * sr >= 0.0;
    assert 2.0 * a * sr == (n - b) - 2.0 * (a * below);
    assert 2.0 * a * (sr + 2.0) == (n - b) + 2.0 * (a * above) + 2.0 * a;
  }

  /** When the rounded-down root falls short of b, the quotient truncates to zero. */
  lemma QuotientVanishes(a: real, b: real, n: real, q: real)
    requires a >= 1.0 && n < b < n + 1.0 && 2.0 * a * q == n - b
    ensures -1.0 < q < 0.0
  {
    assert a * q < 0.0;
    assert 2.0 * (a - 1.0) * q + 2.0 * q == n - b;
  }

  lemma SlopeLinear(a: real, b: real, n: real, q: real, s: int)
    requires a >= 1.0 && b < n + 1.0
    requires 2.0 * a * q == n - b && s == Trunc(Abs(q))
    ensures s >= 0
    ensures var t := Slope(a, b, s as real); b <= t && (t <= n || t == b)
    ensures Slope(a, b, s as real + 2.0) > n + 1.0
  {
    if b <= n {
      if q < 0.0 { MulPos(a, -q); assert false; }
      SlopeAtQuotient(a, b, n, q, s);
    } else {
      QuotientVanishes(a, b, n, q);
    }
  }

  lemma SlopeSquares(b: real, d: real, n: real, t: real, u: real)
    requires n >= 0.0 && b * b <= d && n * n <= d < (n + 1.0) * (n + 1.0)
    requires b <= t && (t <= n || t == b) && u > n + 1.0
    ensures t * t <= d < u * u
  {
    if 0.0 <= t && t <= n { SquareLe(t, n); } else if t < 0.0 { SquareLe(t, -b); }
    SquareGt(u, n + 1.0);
  }

  lemma BelowNext(b: real, n: real)
    requires n >= 0.0 && b * b < (n + 1.0) * (n + 1.0)
    ensures b < n + 1.0
  {
    if b >= n + 1.0 { SquareLe(n + 1.0, b); }
  }

  lemma RootFromBracket(a: real, b: real, c: real, d: real, n: nat)
    requires a >= 1.0 && b * b <= d && d == b * b - 4.0 * a * c
    requires n as real * n as real <= d < (n as real + 1.0) * (n as real + 1.0)
    ensures var s := RootFrom(a, b, n);
            s >= 0
            && Quadratic(a, b, c, s as real) <= 0.0 < Quadratic(a, b, c, s as real + 2.0)
  {
    var s := RootFrom(a, b, n);
    var t, u := Slope(a, b, s as real), Slope(a, b, s as real + 2.0);
    BelowNext(b, n as real);
    SlopeLinear(a, b, n as real, (n as real - b) / (2.0 * a), s);
    SlopeSquares(b, d, n as real, t, u);
    SignFromSlope(a, b, c, s as real, t, d);
    SignFromSlope(a, b, c, s as real + 2.0, u, d);
  }

  /** The truncated root s of a quadratic that is negative at zero brackets the true one: q(s) <= 0 < q(s + 2). */
  lemma RootBracket(a: real, b: real, c: real, d: real)
    requires a >= 1.0 && c < 0.0 && d == b * b - 4.0 * a * c
    ensures d >= 0.0
    ensures var s := RootFrom(a, b, RatSqrt(d));
            s >= 0
            && Quadratic(a, b, c, s as real) <= 0.0 < Quadratic(a, b, c, s as real + 2.0)
  {
    MulPos(a, -c);
    assert b * b >= 0.0;
    var n := RatSqrt(d);
    SquareBrackets(n, Trunc(d), d);
    RootFromBracket(a, b, c, d, n);
  }

  // ---------- Swapping external asset for an add short of native ----------

  /** The argument of the square root in CalculateExternalSwapAmountAsymmetricRat, term by term. */
  function ExternalRadicand(Y: real, X: real, y: real, x: real, f: real, r: real): real {
    (Y * -(x + X))
    * (4.0 * f * r * X * y + 2.0 * f * r * X * Y + 4.0 * f * X * y + 4.0 * f * X * Y
       - f * f * x * Y - f * f * X * Y - 2.0 * f * r * x * Y - r * r * x * Y - r * r * X * Y
       - 4.0 * r * X * y - 4.0 * r * X * Y - 4.0 * X * y - 4.0 * X * Y)
  }

  /** The rest of the numerator, which the square root is added to. */
  function ExternalOffset(Y: real, X: real, y: real, x: real, f: real, r: real): real {
    f * x * Y + f * X * Y + r * x * Y - 2.0 * r * X * y - r * X * Y - 2.0 * X * y - 2.0 * X * Y
  }

  /** The ratio-equalising equation of the external swap, cleared of its denominators. */
  function ExternalLead(Y: real, y: real, r: real): real {
    (1.0 + r) * (y + Y)
  }

  function ExternalConstant(Y: real, X: real, y: real, x: real, r: real): real {
    (1.0 + r) * X * (X * y - x * Y)
  }

  lemma ExternalRadicandFactored(Y: real, X: real, y: real, x: real, f: real, r: real)
    ensures ExternalRadicand(Y, X, y, x, f, r)
            == Y * (x + X) * (Y * (x + X) * (f + r) * (f + r) + 4.0 * X * (y + Y) * (1.0 + r) * (1.0 - f))
  {
  }

  lemma ProductNonNegative(a: real, b: real)
    requires a >= 0.0 && b >= 0.0
    ensures a * b >= 0.0
  {
  }

  /** The radicand is a product of non-negative factors, in every branch and for every amount. */
  lemma ExternalRadicandNonNegative(Y: real, X: real, y: real, x: real, f: real, r: real)
    requires Y >= 0.0 && X >= 0.0 && y >= 0.0 && x >= 0.0 && r >= 0.0 && 0.0 <= f <= 1.0
    ensures ExternalRadicand(Y, X, y, x, f, r) >= 0.0
  {
    hide ExternalRadicand;
    ExternalRadicandFactored(Y, X, y, x, f, r);
    var outer := Y * (x + X);
    ProductNonNegative(Y, x + X);
    ProductNonNegative(outer, (f + r) * (f + r));
    ProductNonNegative(X, y + Y);
    ProductNonNegative(1.0 + r, 1.0 - f);
    ProductNonNegative(X * (y + Y), (1.0 + r) * (1.0 - f));
    var inner := outer * ((f + r) * (f + r)) + 4.0 * (X * (y + Y) * ((1.0 + r) * (1.0 - f)));
    assert Y * (x + X) * (f + r) * (f + r) == outer * ((f + r) * (f + r));
    assert 4.0 * X * (y + Y) * (1.0 + r) * (1.0 - f) == 4.0 * (X * (y + Y) * ((1.0 + r) * (1.0 - f)));
    ProductNonNegative(outer, inner);
  }

  lemma ExternalDiscriminant(Y: real, X: real, y: real, x: real, f: real, r: real)
    ensures ExternalRadicand(Y, X, y, x, f, r)
            == ExternalOffset(Y, X, y, x, f, r) * ExternalOffset(Y, X, y, x, f, r)
               - 4.0 * ExternalLead(Y, y, r) * ExternalConstant(Y, X, y, x, r)
  {
  }

  lemma ExternalExpanded(Y: real, X: real, y: real, x: real, f: real, r: real, s: real, k: real)
    requires k == (1.0 + r) * (X + s)
    ensures (x + X) * (y * k + s * Y * (1.0 - f)) - (x - s) * (y + Y) * k
            == Quadratic(ExternalLead(Y, y, r), -ExternalOffset(Y, X, y, x, f, r), ExternalConstant(Y, X, y, x, r), s)
  {
  }

  lemma FeeCleared(gross: real, f: real, out: real, k: real, n: real)
    requires gross * k == n && out == gross * (1.0 - f)
    ensures out * k == n * (1.0 - f)
  {
    assert gross * (1.0 - f) * k == gross * k * (1.0 - f);
  }

  lemma PmtpDenominator(p: nat, X: nat, s: nat, gross: real, n: real)
    requires gross * PmtpFactor(p) * (X + s) as real == n && X + s > 0
    ensures var k := (1.0 + DecToRat(p)) * (X as real + s as real); k > 0.0 && gross * k == n
  {
    MulPos(1.0 + DecToRat(p), (X + s) as real);
  }

  /** An add short of native: R, A and a are positive and R/A > r/a. */
  predicate ShortOfNative(R: nat, A: nat, r: nat, a: nat) {
    R > 0 && A > 0 && R * a > r * A
  }

  lemma ExternalSigns(R: nat, A: nat, r: nat, a: nat, p: nat)
    requires ShortOfNative(R, A, r, a)
    ensures ExternalLead(R as real, r as real, DecToRat(p)) >= 1.0
    ensures ExternalConstant(R as real, A as real, r as real, a as real, DecToRat(p)) < 0.0
  {
    RealMul(R, a);
    RealMul(r, A);
    var Y, X, y, x, pr := R as real, A as real, r as real, a as real, DecToRat(p);
    assert pr >= 0.0;
    assert pr * (y + Y) >= 0.0;
    MulPos(X, x * Y - X * y);
    MulPos(1.0 + pr, X * (x * Y - X * y));
    assert (1.0 + pr) * X * (X * y - x * Y) == -((1.0 + pr) * (X * (x * Y - X * y)));
  }

  /** CalculateExternalSwapAmountAsymmetric: how much of a to swap for native before adding. */
  function ExternalSwapAmount(R: nat, A: nat, r: nat, a: nat, f: Fraction, p: nat): int
    requires ShortOfNative(R, A, r, a)
  {
    var Y, X, y, x, fr, pr := R as real, A as real, r as real, a as real, DecToRat(f), DecToRat(p);
    ExternalRootBracket(R, A, r, a, f, p);
    var root := RatSqrt(ExternalRadicand(Y, X, y, x, fr, pr)) as real;
    Trunc(Abs((root + ExternalOffset(Y, X, y, x, fr, pr)) / (2.0 * (pr + 1.0) * (y + Y))))
  }

  lemma ExternalRootBracket(R: nat, A: nat, r: nat, a: nat, f: Fraction, p: nat)
    requires ShortOfNative(R, A, r, a)
    ensures var Y, X, y, x, fr, pr := R as real, A as real, r as real, a as real, DecToRat(f), DecToRat(p);
            var lead, b, c := ExternalLead(Y, y, pr), -ExternalOffset(Y, X, y, x, fr, pr), ExternalConstant(Y, X, y, x, pr);
            var d := ExternalRadicand(Y, X, y, x, fr, pr);
            lead >= 1.0 && d >= 0.0 &&
            var s := RootFrom(lead, b, RatSqrt(d));
            s >= 0 && Quadratic(lead, b, c, s as real) <= 0.0 < Quadratic(lead, b, c, s as real + 2.0)
  {
    hide ExternalRadicand, ExternalOffset, ExternalConstant, ExternalLead, DecToRat, Quadratic, RootFrom;
    var Y, X, y, x, fr, pr := R as real, A as real, r as real, a as real, DecToRat(f), DecToRat(p);
    ExternalSigns(R, A, r, a, p);
    ExternalDiscriminant(Y, X, y, x, fr, pr);
    RootBracket(ExternalLead(Y, y, pr), -ExternalOffset(Y, X, y, x, fr, pr),
                ExternalConstant(Y, X, y, x, pr), ExternalRadicand(Y, X, y, x, fr, pr));
  }

  /** The imbalance left after swapping s external units for native. */
  function ExternalImbalance(R: nat, A: nat, r: nat, a: nat, f: Fraction, p: nat, s: nat): real
    requires A + s > 0
  {
    Imbalance(A as real, a as real, R as real, r as real, s as real, ExactOut(true, A, s, R, p, f))
  }

  lemma ExternalImbalanceSign(R: nat, A: nat, r: nat, a: nat, f: Fraction, p: nat, s: nat, q: real)
    requires A > 0
    requires q == Quadratic(ExternalLead(R as real, r as real, DecToRat(p)),
                            -ExternalOffset(R as real, A as real, r as real, a as real, DecToRat(f), DecToRat(p)),
                            ExternalConstant(R as real, A as real, r as real, a as real, DecToRat(p)), s as real)
    ensures ExternalImbalance(R, A, r, a, f, p, s) <= 0.0 <==> q <= 0.0
  {
    hide Quadratic, ExternalLead, ExternalOffset, ExternalConstant, Adjusted, Imbalance, DecToRat;
    var Y, X, y, x, fr, sr := R as real, A as real, r as real, a as real, DecToRat(f), s as real;
    var gross, out := Adjusted(true, A, s, R, p), ExactOut(true, A, s, R, p, f);
    var k := (1.0 + DecToRat(p)) * (X + sr);
    assert k > 0.0 && gross * k == sr * Y by {
      AdjustedCleared(true, A, s, R, p);
      PmtpDenominator(p, A, s, gross, sr * Y);
    }
    ExternalExpanded(Y, X, y, x, fr, DecToRat(p), sr, k);
    FeeCleared(gross, fr, out, k, sr * Y);
    SameSign(X, x, Y, y, sr, out, k, sr * Y * (1.0 - fr), q);
  }

  /**
   The external swap amount equalises the two ratios to within two units: what is left to add is
   no lighter in external asset than the pool, and would be lighter had two more units been swapped.
   */
  lemma ExternalSwapBracket(R: nat, A: nat, r: nat, a: nat, f: Fraction, p: nat)
    requires ShortOfNative(R, A, r, a)
    ensures var s := ExternalSwapAmount(R, A, r, a, f, p);
            s >= 0 && ExternalImbalance(R, A, r, a, f, p, s) <= 0.0 < ExternalImbalance(R, A, r, a, f, p, s + 2)
  {
    var Y, X, y, x, fr, pr := R as real, A as real, r as real, a as real, DecToRat(f), DecToRat(p);
    ExternalRootBracket(R, A, r, a, f, p);
    var lead, b, c := ExternalLead(Y, y, pr), -ExternalOffset(Y, X, y, x, fr, pr), ExternalConstant(Y, X, y, x, pr);
    var s := RootFrom(lead, b, RatSqrt(ExternalRadicand(Y, X, y, x, fr, pr)));
    assert s == ExternalSwapAmount(R, A, r, a, f, p);
    ExternalImbalanceSign(R, A, r, a, f, p, s, Quadratic(lead, b, c, s as real));
    ExternalImbalanceSign(R, A, r, a, f, p, s + 2, Quadratic(lead, b, c, s as real + 2.0));
  }

  // ---------- Swapping native asset for an add short of external ----------

  /** w_ of CalculateNativeSwapAmountAsymmetricRat; the numerator subtracts the same terms again. */
  function NativeLinear(Y: real, X: real, y: real, x: real, f: real, r: real): real {
    r * X * y + r * X * Y + 2.0 * x * Y + 2.0 * X * Y - f * r * X * y - f * r * X * Y - f * X * y - f * X * Y
  }

  /** y_, the argument of the square root. */
  function NativeRadicand(Y: real, X: real, y: real, x: real, f: real, r: real): real {
    var w := NativeLinear(Y, X, y, x, f, r);
    w * w - 4.0 * (x + X) * (x * Y * Y - X * y * Y)
  }

  function NativeConstant(Y: real, X: real, y: real, x: real): real {
    x * Y * Y - X * y * Y
  }

  /** An add short of external: R, A and r are positive and a = 0 or R/A < r/a. */
  predicate ShortOfExternal(R: nat, A: nat, r: nat, a: nat) {
    R > 0 && A > 0 && r > 0 && R * a < r * A
  }

  lemma NativeSigns(R: nat, A: nat, r: nat, a: nat)
    requires ShortOfExternal(R, A, r, a)
    ensures NativeConstant(R as real, A as real, r as real, a as real) < 0.0
  {
    RealMul(R, a);
    RealMul(r, A);
    var Y, X, y, x := R as real, A as real, r as real, a as real;
    MulPos(Y, X * y - x * Y);
    assert x * Y * Y - X * y * Y == -(Y * (X * y - x * Y));
  }

  /** CalculateNativeSwapAmountAsymmetric: how much of r to swap for external asset before adding. */
  function NativeSwapAmount(R: nat, A: nat, r: nat, a: nat, f: Fraction, p: nat): int
    requires ShortOfExternal(R, A, r, a)
  {
    var Y, X, y, x, fr, pr := R as real, A as real, r as real, a as real, DecToRat(f), DecToRat(p);
    NativeRootBracket(R, A, r, a, f, p);
    var root := RatSqrt(NativeRadicand(Y, X, y, x, fr, pr)) as real;
    Trunc(Abs((root - NativeLinear(Y, X, y, x, fr, pr)) / ((x + X) * 2.0)))
  }

  lemma NativeRootBracket(R: nat, A: nat, r: nat, a: nat, f: Fraction, p: nat)
    requires ShortOfExternal(R, A, r, a)
    ensures var Y, X, y, x, fr, pr := R as real, A as real, r as real, a as real, DecToRat(f), DecToRat(p);
            var lead, b, c := x + X, NativeLinear(Y, X, y, x, fr, pr), NativeConstant(Y, X, y, x);
            var d := NativeRadicand(Y, X, y, x, fr, pr);
            d >= 0.0 &&
            var s := RootFrom(lead, b, RatSqrt(d));
            s >= 0 && Quadratic(lead, b, c, s as real) <= 0.0 < Quadratic(lead, b, c, s as real + 2.0)
  {
    hide NativeLinear, DecToRat, Quadratic, RootFrom;
    var Y, X, y, x, fr, pr := R as real, A as real, r as real, a as real, DecToRat(f), DecToRat(p);
    NativeSigns(R, A, r, a);
    RootBracket(x + X, NativeLinear(Y, X, y, x, fr, pr), NativeConstant(Y, X, y, x), NativeRadicand(Y, X, y, x, fr, pr));
  }

  /** The imbalance left after swapping s native units for external asset. */
  function NativeImbalance(R: nat, A: nat, r: nat, a: nat, f: Fraction, p: nat, s: nat): real
    requires R + s > 0
  {
    Imbalance(R as real, r as real, A as real, a as real, s as real, ExactOut(false, R, s, A, p, f))
  }

  lemma NativeExpanded(Y: real, X: real, y: real, x: real, f: real, r: real, s: real, k: real)
    requires k == Y + s
    ensures (y + Y) * (x * k + s * X * (1.0 + r) * (1.0 - f)) - (y - s) * (x + X) * k
            == Quadratic(x + X, NativeLinear(Y, X, y, x, f, r), NativeConstant(Y, X, y, x), s)
  {
  }

  lemma NativeImbalanceSign(R: nat, A: nat, r: nat, a: nat, f: Fraction, p: nat, s: nat, q: real)
    requires R > 0
    requires q == Quadratic(a as real + A as real,
                            NativeLinear(R as real, A as real, r as real, a as real, DecToRat(f), DecToRat(p)),
                            NativeConstant(R as real, A as real, r as real, a as real), s as real)
    ensures NativeImbalance(R, A, r, a, f, p, s) <= 0.0 <==> q <= 0.0
  {
    hide Quadratic, NativeLinear, NativeConstant, Adjusted, Imbalance, DecToRat;
    var Y, X, y, x, fr, pr, sr := R as real, A as real, r as real, a as real, DecToRat(f), DecToRat(p), s as real;
    var gross, out := Adjusted(false, R, s, A, p), ExactOut(false, R, s, A, p, f);
    var k := Y + sr;
    AdjustedCleared(false, R, s, A, p);
    NativeExpanded(Y, X, y, x, fr, pr, sr, k);
    FeeCleared(gross, fr, out, k, sr * X * (1.0 + pr));
    SameSign(Y, y, X, x, sr, out, k, sr * X * (1.0 + pr) * (1.0 - fr), q);
  }

  /** The native swap amount equalises the two ratios to within two units, as the external one does. */
  lemma NativeSwapBracket(R: nat, A: nat, r: nat, a: nat, f: Fraction, p: nat)
    requires ShortOfExternal(R, A, r, a)
    ensures var s := NativeSwapAmount(R, A, r, a, f, p);
            s >= 0 && NativeImbalance(R, A, r, a, f, p, s) <= 0.0 < NativeImbalance(R, A, r, a, f, p, s + 2)
  {
    hide Quadratic, NativeLinear, NativeConstant, NativeRadicand, NativeImbalance, DecToRat;
    var Y, X, y, x, fr, pr := R as real, A as real, r as real, a as real, DecToRat(f), DecToRat(p);
    NativeRootBracket(R, A, r, a, f, p);
    var lead, b, c := x + X, NativeLinear(Y, X, y, x, fr, pr), NativeConstant(Y, X, y, x);
    var s := RootFrom(lead, b, RatSqrt(NativeRadicand(Y, X, y, x, fr, pr)));
    assert s == NativeSwapAmount(R, A, r, a, f, p);
    NativeImbalanceSign(R, A, r, a, f, p, s, Quadratic(lead, b, c, s as real));
    NativeImbalanceSign(R, A, r, a, f, p, s + 2, Quadratic(lead, b, c, s as real + 2.0));
  }

  // ---------- Pool units ----------

  datatype Symmetry = EmptyPool | NothingAdded | NeedMoreNative | Symmetric | NeedMoreExternal

  /** GetLiquidityAddSymmetryState: the added ratio r/a against the pool's R/A, compared crosswise. */
  function SymmetryState(R: nat, A: nat, r: nat, a: nat): Symmetry {
    if A == 0 || R == 0 then EmptyPool
    else if a == 0 && r == 0 then NothingAdded
    else if a == 0 then NeedMoreExternal
    else if R * a < r * A then NeedMoreExternal
    else if R * a == r * A then Symmetric
    else NeedMoreNative
  }

  datatype SwapStatus = SellNative | BuyNative | NoSwap

  datatype AddQuote = AddQuote(poolUnits: nat, lpUnits: nat, status: SwapStatus, swapAmount: nat)

  /** CalculatePoolUnitsSymmetric: x on top of X earns its share of P, rounded down. */
  function SymmetricUnits(X: nat, x: nat, P: nat): nat
    requires X > 0
  {
    P * x / X
  }

  /** CalculatePoolUnits. */
  function PoolUnits(P: nat, R: nat, A: nat, r: nat, a: nat,
                     sellFee: Fraction, buyFee: Fraction, rate: nat): Result<AddQuote>
  {
    match SymmetryState(R, A, r, a)
    case EmptyPool =>
      if a == 0 || r == 0 then Err(ErrInvalidAmount) else Ok(AddQuote(r, r, NoSwap, 0))
    case NothingAdded => Ok(AddQuote(P, 0, NoSwap, 0))
    case NeedMoreNative =>
      ExternalSwapBracket(R, A, r, a, buyFee, rate);
      var s := ExternalSwapAmount(R, A, r, a, buyFee, rate);
      var corrected :- Sub(a, s);
      var lpUnits := SymmetricUnits(A + s, corrected, P);
      Ok(AddQuote(P + lpUnits, lpUnits, BuyNative, s))
    case Symmetric =>
      var lpUnits := SymmetricUnits(R, r, P);
      Ok(AddQuote(P + lpUnits, lpUnits, NoSwap, 0))
    case NeedMoreExternal =>
      assert ShortOfExternal(R, A, r, a) by { MulPositive(A, r); }
      NativeSwapBracket(R, A, r, a, sellFee, rate);
      var s := NativeSwapAmount(R, A, r, a, sellFee, rate);
      var corrected :- Sub(r, s);
      var lpUnits := SymmetricUnits(R + s, corrected, P);
      Ok(AddQuote(P + lpUnits, lpUnits, SellNative, s))
  }

  lemma MulPositive(m: int, n: int)
    requires m > 0
    ensures n > 0 ==> n * m > 0
  {
  }

  /** While the amounts left are no lighter than the pool, what is left of x is still worth its share against y. */
  lemma LeftoverShare(X: nat, x: nat, Y: nat, y: nat, s: nat, out: real)
    requires out >= 0.0 && Imbalance(X as real, x as real, Y as real, y as real, s as real, out) <= 0.0
    ensures y * (X + s) <= (x - s) * Y
  {
    var Xr, xr, Yr, yr, sr := X as real, x as real, Y as real, y as real, s as real;
    assert (xr + Xr) * out >= 0.0;
    assert yr * (Xr + sr) <= (xr - sr) * Yr by {
      assert (xr + Xr) * (yr + out) == (xr + Xr) * yr + (xr + Xr) * out;
    }
    RealMul(y, X + s);
    RealMul(x - s, Y);
  }

  lemma NonNegativeOut(toFury: bool, X: nat, x: nat, Y: nat, rate: nat, fee: Fraction)
    requires X + x > 0
    ensures ExactOut(toFury, X, x, Y, rate, fee) >= 0.0
  {
    AdjustedNonNegative(toFury, X, x, Y, rate);
    FractionRange(fee);
  }

  /** The swap amount never exceeds the amount added, so the subtraction after it cannot underflow. */
  lemma SwapWithinAdded(R: nat, A: nat, r: nat, a: nat, sellFee: Fraction, buyFee: Fraction, rate: nat)
    ensures SymmetryState(R, A, r, a) == NeedMoreNative ==>
              ShortOfNative(R, A, r, a) &&
              var s := ExternalSwapAmount(R, A, r, a, buyFee, rate);
              0 <= s <= a && r * (A + s) <= (a - s) * R
    ensures SymmetryState(R, A, r, a) == NeedMoreExternal ==>
              ShortOfExternal(R, A, r, a) &&
              var s := NativeSwapAmount(R, A, r, a, sellFee, rate);
              0 <= s <= r && a * (R + s) <= (r - s) * A
  {
    hide ExternalSwapAmount, NativeSwapAmount, ExactOut, Imbalance;
    match SymmetryState(R, A, r, a)
    case NeedMoreNative =>
      ExternalSwapBracket(R, A, r, a, buyFee, rate);
      var s := ExternalSwapAmount(R, A, r, a, buyFee, rate);
      NonNegativeOut(true, A, s, R, rate, buyFee);
      LeftoverShare(A, a, R, r, s, ExactOut(true, A, s, R, rate, buyFee));
      NonNegativeCofactor(a - s, R, r * (A + s));
    case NeedMoreExternal =>
      MulPositive(A, r);
      NativeSwapBracket(R, A, r, a, sellFee, rate);
      var s := NativeSwapAmount(R, A, r, a, sellFee, rate);
      NonNegativeOut(false, R, s, A, rate, sellFee);
      LeftoverShare(R, r, A, a, s, ExactOut(false, R, s, A, rate, sellFee));
      NonNegativeCofactor(r - s, A, a * (R + s));
    case _ =>
  }

  lemma NonNegativeCofactor(n: int, m: int, k: int)
    requires m > 0 && 0 <= k <= n * m
    ensures n >= 0
  {
    assert n < 0 ==> n * m < 0;
  }

  lemma FloorShareMonotone(P: nat, x: nat, X: nat, y: nat, Y: nat)
    requires X > 0 && Y > 0 && x * Y <= y * X
    ensures SymmetricUnits(X, x, P) <= SymmetricUnits(Y, y, P)
  {
    var q := P * x / X;
    assert q * X <= P * x;
    ScaleTwice(q, X, Y, P, x, y);
    if q > P * y / Y {
      assert q >= P * y / Y + 1;
      assert q * Y >= (P * y / Y + 1) * Y;
    }
  }

  lemma ScaleTwice(q: nat, X: nat, Y: nat, P: nat, x: nat, y: nat)
    requires X > 0 && q * X <= P * x && x * Y <= y * X
    ensures q * Y <= P * y
  {
    assert q * X * Y <= P * x * Y;
    assert P * (x * Y) <= P * (y * X);
    assert (q * Y) * X <= (P * y) * X;
  }

  /**
   Every add to a pool with both depths positive is priced, and earns a number of units between the
   shares its two amounts would earn on their own, whichever is larger.
   */
  lemma UnitsBetweenShares(P: nat, R: nat, A: nat, r: nat, a: nat, sellFee: Fraction, buyFee: Fraction, rate: nat)
    requires R > 0 && A > 0
    ensures var q := PoolUnits(P, R, A, r, a, sellFee, buyFee, rate);
            var n, e := SymmetricUnits(R, r, P), SymmetricUnits(A, a, P);
            q.Ok? && q.value.poolUnits == P + q.value.lpUnits
            && (if n <= e then n else e) <= q.value.lpUnits <= (if n <= e then e else n)
  {
    hide ExternalSwapAmount, NativeSwapAmount, SymmetricUnits;
    SwapWithinAdded(R, A, r, a, sellFee, buyFee, rate);
    match SymmetryState(R, A, r, a)
    case NothingAdded =>
      assert SymmetricUnits(R, 0, P) == 0 == SymmetricUnits(A, 0, P) by { NothingEarned(P, R); NothingEarned(P, A); }
    case NeedMoreNative =>
      var s := ExternalSwapAmount(R, A, r, a, buyFee, rate);
      FloorShareMonotone(P, r, R, a - s, A + s);
      ShrunkShare(A, a, s);
      FloorShareMonotone(P, a - s, A + s, a, A);
    case Symmetric =>
      FloorShareMonotone(P, r, R, a, A);
      FloorShareMonotone(P, a, A, r, R);
    case NeedMoreExternal =>
      MulPositive(A, r);
      var s := NativeSwapAmount(R, A, r, a, sellFee, rate);
      FloorShareMonotone(P, a, A, r - s, R + s);
      ShrunkShare(R, r, s);
      FloorShareMonotone(P, r - s, R + s, r, R);
    case EmptyPool =>
  }

  lemma ShrunkShare(X: nat, x: nat, s: nat)
    requires s <= x
    ensures (x - s) * X <= x * (X + s)
  {
    assert x * s >= 0 && s * X >= 0;
  }

  lemma NothingEarned(P: nat, X: nat)
    requires X > 0
    ensures SymmetricUnits(X, 0, P) == 0
  {
  }

  // ---------- What an add earns ----------

  /** u is the floor of P times what is left of x over what the pool then has of it, after s of x was swapped. */
  predicate FloorShare(P: nat, X: nat, x: nat, s: nat, u: nat) {
    s <= x && u * (X + s) <= P * (x - s) < (u + 1) * (X + s)
  }

  /**
   The terms of an add of r native and a external to depths R and A: s of the heavy side is swapped first, so that
   the rest has the pool's ratio to within two units, and that rest earns its share of the P units.
   */
  predicate Priced(P: nat, R: nat, A: nat, r: nat, a: nat, sellFee: Fraction, buyFee: Fraction, rate: nat, s: nat, u: nat)
    requires R > 0 && A > 0
  {
    if R * a > r * A then
      && ExternalImbalance(R, A, r, a, buyFee, rate, s) <= 0.0 < ExternalImbalance(R, A, r, a, buyFee, rate, s + 2)
      && FloorShare(P, A, a, s, u)
    else if R * a < r * A then
      && NativeImbalance(R, A, r, a, sellFee, rate, s) <= 0.0 < NativeImbalance(R, A, r, a, sellFee, rate, s + 2)
      && FloorShare(P, R, r, s, u)
    else s == 0 && FloorShare(P, R, r, 0, u)
  }

  lemma FloorShareOf(P: nat, X: nat, x: nat, s: nat)
    requires X > 0 && s <= x
    ensures FloorShare(P, X, x, s, SymmetricUnits(X + s, x - s, P))
  {
    DivBounds(P * (x - s), X + s);
  }

  /** Every add to a pool with both depths positive is made on these terms. */
  lemma PoolUnitsPriced(P: nat, R: nat, A: nat, r: nat, a: nat, sellFee: Fraction, buyFee: Fraction, rate: nat)
    requires R > 0 && A > 0
    ensures var q := PoolUnits(P, R, A, r, a, sellFee, buyFee, rate);
            && q.Ok? && q.value.poolUnits == P + q.value.lpUnits
            && Priced(P, R, A, r, a, sellFee, buyFee, rate, q.value.swapAmount, q.value.lpUnits)
            && q.value.status == if R * a > r * A then BuyNative else if R * a < r * A then SellNative else NoSwap
  {
    hide ExternalSwapAmount, NativeSwapAmount, SymmetricUnits, ExternalImbalance, NativeImbalance, FloorShare;
    SwapWithinAdded(R, A, r, a, sellFee, buyFee, rate);
    match SymmetryState(R, A, r, a)
    case NothingAdded => NothingShared(P, R);
    case NeedMoreNative =>
      ExternalSwapBracket(R, A, r, a, buyFee, rate);
      FloorShareOf(P, A, a, ExternalSwapAmount(R, A, r, a, buyFee, rate));
    case Symmetric => FloorShareOf(P, R, r, 0);
    case NeedMoreExternal =>
      MulPositive(A, r);
      NativeSwapBracket(R, A, r, a, sellFee, rate);
      FloorShareOf(P, R, r, NativeSwapAmount(R, A, r, a, sellFee, rate));
  }

  lemma NothingShared(P: nat, X: nat)
    requires X > 0
    ensures FloorShare(P, X, 0, 0, 0)
  {
  }
}
