/**
 Spot prices in preferred denominations, and the conversions between decimals and rationals.
 */
module SpotPrices {
  import opened Decimal
  import opened Swaps
  import opened Types

  /** Two to the power 315: a decimal must keep its integer within 315 bits. */
  const DEC_RANGE: int := 0x8000000000000000000000000000000000000000000000000000000000000000000000000000000

  /** RatToDec: truncate to 18 decimals, refusing what does not fit. */
  function RatToDec(r: real): Result<int> {
    var d := Trunc(r * ONE as real);
    if -DEC_RANGE < d < DEC_RANGE then Ok(d) else Err(ErrInvalidAmount)
  }

  function Pow10(n: nat): (p: nat)
    ensures p > 0
  {
    if n == 0 then 1 else 10 * Pow10(n - 1)
  }

  /** CalcDenomChangeMultiplier: ten to the power decimalsX - decimalsY. */
  function DenomMultiplier(decimalsX: nat, decimalsY: nat): real {
    if decimalsX > decimalsY then Pow10(decimalsX - decimalsY) as real
    else 1.0 / Pow10(decimalsY - decimalsX) as real
  }

  /** The exact price of X in Y before it is cut to 18 decimals. */
  function ExactSpotPrice(X: nat, Y: nat, decimalsX: nat, decimalsY: nat, rate: nat, xIsNative: bool): real
    requires X > 0
  {
    var price := Y as real / X as real;
    (if xIsNative then price * PmtpFactor(rate) else price / PmtpFactor(rate)) * DenomMultiplier(decimalsX, decimalsY)
  }

  /** CalcSpotPriceX. */
  function SpotPrice(X: nat, Y: nat, decimalsX: nat, decimalsY: nat, rate: nat, xIsNative: bool): Result<int> {
    if X == 0 then Err(ErrInvalidAmount)
    else RatToDec(ExactSpotPrice(X, Y, decimalsX, decimalsY, rate, xIsNative))
  }

  /** A decimal survives the trip through a rational exactly when it is in range. */
  lemma DecRoundTrip(d: int)
    ensures RatToDec(DecToRat(d)) == if -DEC_RANGE < d < DEC_RANGE then Ok(d) else Err(ErrInvalidAmount)
  {
    assert DecToRat(d) * ONE as real == d as real;
  }

  lemma Reciprocal(a: real, b: real)
    requires a > 0.0 && b > 0.0
    ensures (a / b) * (b / a) == 1.0
  {
  }

  lemma MultipliersCancel(decimalsX: nat, decimalsY: nat)
    ensures DenomMultiplier(decimalsX, decimalsY) > 0.0
    ensures DenomMultiplier(decimalsX, decimalsY) * DenomMultiplier(decimalsY, decimalsX) == 1.0
  {
  }

  lemma ProductOfPrices(u: real, v: real, p: real, m: real, n: real)
    requires p > 0.0 && u * v == 1.0 && m * n == 1.0
    ensures (u * p * m) * (v / p * n) == 1.0
  {
    assert p * (v / p) == v;
    assert (u * p * m) * (v / p * n) == u * (p * (v / p)) * (m * n);
  }

  /** The native price in external units and the external price in native units are reciprocal. */
  lemma PricesReciprocal(X: nat, Y: nat, decimalsX: nat, decimalsY: nat, rate: nat)
    requires X > 0 && Y > 0
    ensures ExactSpotPrice(X, Y, decimalsX, decimalsY, rate, true)
            * ExactSpotPrice(Y, X, decimalsY, decimalsX, rate, false) == 1.0
    ensures ExactSpotPrice(X, Y, decimalsX, decimalsY, rate, true) >= 0.0
    ensures ExactSpotPrice(Y, X, decimalsY, decimalsX, rate, false) >= 0.0
  {
    hide DenomMultiplier;
    MultipliersCancel(decimalsX, decimalsY);
    MultipliersCancel(decimalsY, decimalsX);
    Reciprocal(Y as real, X as real);
    ProductOfPrices(Y as real / X as real, X as real / Y as real, PmtpFactor(rate),
                    DenomMultiplier(decimalsX, decimalsY), DenomMultiplier(decimalsY, decimalsX));
  }

  lemma TruncatedProduct(u: real, v: real, p: nat, q: nat)
    requires u >= 0.0 && v >= 0.0 && u * v == 1.0
    requires p as real <= u * ONE as real && q as real <= v * ONE as real
    ensures p * q <= ONE * ONE
  {
    var e := ONE as real;
    assert p as real * q as real <= (u * e) * (v * e);
    assert (u * e) * (v * e) == (u * v) * e * e;
    RealMul(p, q);
  }

  /** Whenever both spot prices are defined, each is its exact price cut to 18 decimals and their product is at most one. */
  lemma SpotPriceProduct(X: nat, Y: nat, decimalsX: nat, decimalsY: nat, rate: nat)
    requires SpotPrice(X, Y, decimalsX, decimalsY, rate, true).Ok?
    requires SpotPrice(Y, X, decimalsY, decimalsX, rate, false).Ok?
    ensures var native := SpotPrice(X, Y, decimalsX, decimalsY, rate, true).value;
            var external := SpotPrice(Y, X, decimalsY, decimalsX, rate, false).value;
            native >= 0 && external >= 0 && native * external <= ONE * ONE && Mul(native, external) <= ONE
            && native as real <= ExactSpotPrice(X, Y, decimalsX, decimalsY, rate, true) * ONE as real < native as real + 1.0
            && external as real <= ExactSpotPrice(Y, X, decimalsY, decimalsX, rate, false) * ONE as real < external as real + 1.0
  {
    hide ExactSpotPrice, Mul;
    PricesReciprocal(X, Y, decimalsX, decimalsY, rate);
    TruncatedProduct(ExactSpotPrice(X, Y, decimalsX, decimalsY, rate, true),
                     ExactSpotPrice(Y, X, decimalsY, decimalsX, rate, false),
                     SpotPrice(X, Y, decimalsX, decimalsY, rate, true).value,
                     SpotPrice(Y, X, decimalsY, decimalsX, rate, false).value);
    MulAtMostOne(SpotPrice(X, Y, decimalsX, decimalsY, rate, true).value, SpotPrice(Y, X, decimalsY, decimalsX, rate, false).value);
  }

  lemma MulAtMostOne(p: nat, q: nat)
    requires p * q <= ONE * ONE
    ensures Mul(p, q) <= ONE
  {
    RoundAtMost(p * q, ONE);
  }
}
