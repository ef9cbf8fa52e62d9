/**
 The swap formula: constant product, shifted by the PMTP factor and cut by a percentage fee.
 */
module Swaps {
  import opened Decimal
  import opened Types

  function PmtpFactor(rate: nat): real {
    1.0 + DecToRat(rate)
  }

  function RawXYK(x: nat, X: nat, Y: nat): real
    requires X + x > 0
  {
    (x as real * Y as real) / (X + x) as real
  }

  /** The exact amount out before the fee: towards fury the factor divides, away from it multiplies. */
  function Adjusted(toFury: bool, X: nat, x: nat, Y: nat, rate: nat): real
    requires X + x > 0
  {
    if toFury then RawXYK(x, X, Y) / PmtpFactor(rate) else RawXYK(x, X, Y) * PmtpFactor(rate)
  }

  lemma AdjustedNonNegative(toFury: bool, X: nat, x: nat, Y: nat, rate: nat)
    requires X + x > 0
    ensures Adjusted(toFury, X, x, Y, rate) >= 0.0
  {
    var n, d := x as real * Y as real, (X + x) as real;
    assert n / d >= 0.0;
  }

  lemma FractionRange(fee: Fraction)
    ensures 0.0 <= DecToRat(fee) <= 1.0
  {
  }

  lemma FeeAtMostWhole(amount: real, fee: Fraction)
    requires amount >= 0.0
    ensures 0 <= Trunc(amount * DecToRat(fee)) <= Trunc(amount)
    ensures Trunc(amount * DecToRat(fee)) as real <= amount * DecToRat(fee) < Trunc(amount * DecToRat(fee)) as real + 1.0
  {
    FractionRange(fee);
    assert 0.0 <= amount * DecToRat(fee) <= amount;
  }

  /** CalcSwapResult: the amount paid out and the fee kept, both truncated. */
  function SwapResult(toFury: bool, X: nat, x: nat, Y: nat, rate: nat, fee: Fraction): (r: (nat, nat))
    ensures X > 0 && x > 0 && Y > 0 ==>
              && r.0 + r.1 == Trunc(Adjusted(toFury, X, x, Y, rate))
              && r.1 as real <= Adjusted(toFury, X, x, Y, rate) * DecToRat(fee) < r.1 as real + 1.0
    ensures X == 0 || x == 0 || Y == 0 ==> r == (0, 0)
  {
    if X == 0 || x == 0 || Y == 0 then (0, 0)
    else
      var adjusted := Adjusted(toFury, X, x, Y, rate);
      AdjustedNonNegative(toFury, X, x, Y, rate);
      FeeAtMostWhole(adjusted, fee);
      var percentFee := Trunc(adjusted * DecToRat(fee));
      (Trunc(adjusted) - percentFee, percentFee)
  }

  /** The exact amount out after the fee, the quantity the two truncations of SwapResult approximate. */
  function ExactOut(toFury: bool, X: nat, x: nat, Y: nat, rate: nat, fee: Fraction): real
    requires X + x > 0
  {
    Adjusted(toFury, X, x, Y, rate) * (1.0 - DecToRat(fee))
  }

  lemma TruncatedFeeNear(amount: real, f: real)
    requires amount >= 0.0 && 0.0 <= f <= 1.0
    ensures amount * (1.0 - f) - 1.0
            < Trunc(amount) as real - Trunc(amount * f) as real
            < amount * (1.0 - f) + 1.0
  {
    var cut := amount * f;
    assert amount * (1.0 - f) == amount - cut;
    assert cut >= 0.0;
  }

  /** Truncating the gross amount and the fee separately costs or gains less than one unit. */
  lemma SwapResultNearExact(toFury: bool, X: nat, x: nat, Y: nat, rate: nat, fee: Fraction, exact: real)
    requires X > 0 && exact == ExactOut(toFury, X, x, Y, rate, fee)
    ensures exact - 1.0 < SwapResult(toFury, X, x, Y, rate, fee).0 as real < exact + 1.0
  {
    if x == 0 || Y == 0 {
      NothingSwapped(toFury, X, x, Y, rate);
    } else {
      AdjustedNonNegative(toFury, X, x, Y, rate);
      FractionRange(fee);
      TruncatedFeeNear(Adjusted(toFury, X, x, Y, rate), DecToRat(fee));
    }
  }

  lemma NothingSwapped(toFury: bool, X: nat, x: nat, Y: nat, rate: nat)
    requires X > 0 && (x == 0 || Y == 0)
    ensures Adjusted(toFury, X, x, Y, rate) == 0.0
  {
    assert x as real * Y as real == 0.0;
  }

  /** SwapOne: the pool after the swap together with what it pays out. */
  function SwapOne(pool: Pool, toFury: bool, sent: nat, rate: nat, fee: Fraction): Result<(nat, Pool)> {
    if toFury then
      var out := SwapResult(true, pool.ExternalDepth(), sent, pool.NativeDepth(), rate, fee).0;
      if out >= pool.native then Err(ErrNotEnoughAssetTokens)
      else Ok((out, pool.(external := pool.external + sent, native := pool.native - out)))
    else
      var out := SwapResult(false, pool.NativeDepth(), sent, pool.ExternalDepth(), rate, fee).0;
      if out >= pool.external then Err(ErrNotEnoughAssetTokens)
      else Ok((out, pool.(native := pool.native + sent, external := pool.external - out)))
  }

  /** Adjusted, cleared of its denominators. */
  lemma AdjustedCleared(toFury: bool, X: nat, x: nat, Y: nat, rate: nat)
    requires X + x > 0
    ensures var a, T, p := Adjusted(toFury, X, x, Y, rate), (X + x) as real, PmtpFactor(rate);
            if toFury then a * p * T == x as real * Y as real else a * T == x as real * Y as real * p
  {
    var T, p, n := (X + x) as real, PmtpFactor(rate), x as real * Y as real;
    var raw := n / T;
    assert raw * T == n;
    if toFury {
      assert raw / p * p == raw;
    } else {
      assert raw * p * T == raw * T * p;
    }
  }

  lemma MulMonotone(a: real, b: real, k: real)
    requires a <= b && k > 0.0
    ensures a * k <= b * k
  {
  }

  lemma CancelFactor(a: real, b: real, k: real)
    requires a * k <= b * k && k > 0.0
    ensures a <= b
  {
    assert (b - a) * k >= 0.0;
  }

  lemma BackFromFury(x: real, Y: real, y: real, T: real, p: real, a: real, b: real)
    requires Y > 0.0 && T > 0.0 && p > 0.0 && y <= a
    requires a * p * T == x * Y && b * Y == y * T * p
    ensures b <= x
  {
    MulMonotone(y, a, p);
    MulMonotone(y * p, a * p, T);
    assert y * T * p == y * p * T;
    CancelFactor(b, x, Y);
  }

  lemma BackToFury(x: real, Y: real, y: real, T: real, p: real, a: real, b: real)
    requires Y > 0.0 && T > 0.0 && p > 0.0 && y <= a
    requires a * T == x * Y * p && b * p * Y == y * T
    ensures b <= x
  {
    MulMonotone(y, a, T);
    assert x * Y * p == x * p * Y;
    CancelFactor(b * p, x * p, Y);
    CancelFactor(b, x, p);
  }

  /** The swap formula run backwards: the y paid out buys back at most the x sent in. */
  lemma BackAtMost(toFury: bool, X: nat, x: nat, Y: nat, y: nat, rate: nat, a: real, b: real)
    requires X > 0 && x > 0 && y <= Y && Y > 0
    requires a == Adjusted(toFury, X, x, Y, rate) && y as real <= a
    requires b == Adjusted(!toFury, Y - y, y, X + x, rate)
    ensures b <= x as real
  {
    AdjustedCleared(toFury, X, x, Y, rate);
    AdjustedCleared(!toFury, Y - y, y, X + x, rate);
    assert (Y - y) + y == Y;
    if toFury {
      BackFromFury(x as real, Y as real, y as real, (X + x) as real, PmtpFactor(rate), a, b);
    } else {
      BackToFury(x as real, Y as real, y as real, (X + x) as real, PmtpFactor(rate), a, b);
    }
  }

  /**
   Swapping into a pool and straight back never returns more than was sent, whichever way round,
   at any constant running rate, whatever the two fees and the pool's liabilities.
   */
  lemma RoundTripNeverGains(pool: Pool, toFury: bool, sent: nat, rate: nat, fee: Fraction, feeBack: Fraction)
    requires SwapOne(pool, toFury, sent, rate, fee).Ok?
    ensures var (out, mid) := SwapOne(pool, toFury, sent, rate, fee).value;
            var back := SwapOne(mid, !toFury, out, rate, feeBack);
            back.Ok? ==> back.value.0 <= sent
  {
    var (out, mid) := SwapOne(pool, toFury, sent, rate, fee).value;
    var X := if toFury then pool.ExternalDepth() else pool.NativeDepth();
    var Y := if toFury then pool.NativeDepth() else pool.ExternalDepth();
    if X > 0 && sent > 0 && Y > 0 {
      AdjustedNonNegative(toFury, X, sent, Y, rate);
      assert out as real <= Adjusted(toFury, X, sent, Y, rate);
      BackAtMost(toFury, X, sent, Y, out, rate,
                 Adjusted(toFury, X, sent, Y, rate), Adjusted(!toFury, Y - out, out, X + sent, rate));
      AdjustedNonNegative(!toFury, Y - out, out, X + sent, rate);
    }
  }
}
