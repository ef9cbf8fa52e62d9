/**
 Liquidity protection: a bucket, valued in one asset, that native sales drain, native purchases fill and
 every block tops up.
 */
module Protection {
  import opened Decimal
  import opened Types

  datatype Bucket = Bucket(active: bool, max: nat, asset: Symbol, epochLength: nat, current: nat)

  /** CalcFuryValue. */
  function FuryValue(amount: nat, price: nat): nat {
    Round(Mul(price, amount * ONE))
  }

  /** CalculateDiscountedSentAmount: the amount less its fee. */
  function Discounted(amount: nat, fee: Fraction): Result<nat> {
    Sub(amount, Round(Mul(amount * ONE, fee)))
  }

  /** MustUpdateLiquidityProtectionThreshold. */
  function Updated(b: Bucket, sell: bool, amount: nat, price: nat): Result<Bucket> {
    if !b.active then Ok(b)
    else
      var value := FuryValue(amount, price);
      if sell then
        if b.current < value then Err(PanicThreshold) else Ok(b.(current := b.current - value))
      else
        var room :- Sub(b.max, b.current);
        Ok(b.(current := if room < value then b.max else b.current + value))
  }

  /** The replenishment of BeginBlocker. */
  function Refilled(b: Bucket): Result<Bucket> {
    if !b.active then Ok(b)
    else if b.epochLength == 0 then Err(PanicArithmetic)
    else
      var room :- Sub(b.max, b.current);
      var amount := b.max / b.epochLength;
      Ok(b.(current := if room < amount then b.max else b.current + amount))
  }

  predicate Blocked(b: Bucket, amount: nat, price: nat) {
    b.current < FuryValue(amount, price)
  }

  lemma FuryValueMonotone(a: nat, b: nat, price: nat)
    requires a <= b
    ensures FuryValue(a, price) <= FuryValue(b, price)
  {
    MulLe(a * ONE, b * ONE, price);
    RoundMonotone(price * (a * ONE), price * (b * ONE));
    RoundMonotone(Mul(price, a * ONE), Mul(price, b * ONE));
  }

  /**
   A trade moves the level by exactly its value: a sale takes it off or panics when there is less, a purchase adds
   it up to the maximum.
   */
  lemma UpdatedExactly(b: Bucket, sell: bool, amount: nat, price: nat)
    requires b.active
    ensures var r, value := Updated(b, sell, amount, price), FuryValue(amount, price);
            && (r.Ok? <==> if sell then value <= b.current else b.current <= b.max)
            && (r.Ok? ==> && r.value.(current := 0) == b.(current := 0)
                          && (if sell then r.value.current + value == b.current
                              else r.value.current == Capped(b.current + value, b.max)))
            && (r.Err? ==> r.error == if sell then PanicThreshold else PanicArithmetic)
  {
    hide FuryValue;
  }

  lemma DiscountedAtMost(amount: nat, fee: Fraction)
    ensures Discounted(amount, fee).Ok? && Discounted(amount, fee).value <= amount
  {
    MulLe(fee, ONE, amount * ONE);
    RoundAtMost(amount * ONE * fee, amount * ONE);
    RoundAtMost(Mul(amount * ONE, fee), amount);
  }

  /** A sale the check lets through never reaches the panic: the fee discount and the valuation are monotone. */
  lemma CheckedSaleUpdates(b: Bucket, amount: nat, fee: Fraction, price: nat)
    requires b.active && !Blocked(b, amount, price)
    ensures var net := Discounted(amount, fee);
            net.Ok? && Updated(b, true, net.value, price).Ok?
  {
    hide FuryValue, Discounted;
    DiscountedAtMost(amount, fee);
    FuryValueMonotone(Discounted(amount, fee).value, amount, price);
  }

  /** The valuation is the price times the amount, rounded to the nearest whole. */
  lemma FuryValueNearest(amount: nat, price: nat)
    ensures Near(2 * FuryValue(amount, price) * ONE, 2 * (price * amount), ONE)
  {
    hide Round;
    assert price * (amount * ONE) == price * amount * ONE;
    RoundExact(price * amount);
  }

  /** The discount is the fee on the amount, rounded to the nearest whole. */
  lemma DiscountNearest(amount: nat, fee: Fraction)
    requires Discounted(amount, fee).Ok?
    ensures Near(2 * (amount - Discounted(amount, fee).value) * ONE, 2 * (amount * fee), ONE)
  {
    hide Round;
    assert amount * ONE * fee == amount * fee * ONE;
    RoundExact(amount * fee);
  }

  /** The bucket after n blocks in which nothing is traded. */
  function RefilledTimes(b: Bucket, n: nat): Result<Bucket>
    decreases n
  {
    if n == 0 then Ok(b)
    else
      var c :- Refilled(b);
      RefilledTimes(c, n - 1)
  }

  /** What one block adds to the bucket. */
  function Ration(b: Bucket): nat {
    if b.active && b.epochLength > 0 then b.max / b.epochLength else 0
  }

  function Capped(level: nat, max: nat): nat {
    if level <= max then level else max
  }

  lemma RefilledOnce(b: Bucket)
    requires b.active && b.epochLength > 0 && b.current <= b.max
    ensures Refilled(b) == Ok(b.(current := Capped(b.current + Ration(b), b.max)))
    ensures Ration(b.(current := Capped(b.current + Ration(b), b.max))) == Ration(b)
  {
  }

  /** Left alone, the level climbs by one ration a block until it is full, and stays full. */
  lemma {:induction false} RefillRecovers(b: Bucket, n: nat)
    requires b.active && b.epochLength > 0 && b.current <= b.max
    ensures RefilledTimes(b, n) == Ok(b.(current := Capped(b.current + n * Ration(b), b.max)))
    decreases n
  {
    hide Refilled, Ration;
    if n > 0 {
      RefilledOnce(b);
      var c := Refilled(b).value;
      RefillRecovers(c, n - 1);
      CappedTwice(b.current, Ration(b), n, b.max);
    }
  }

  lemma CappedTwice(level: nat, ration: nat, n: nat, max: nat)
    requires n > 0
    ensures (n - 1) * ration >= 0
    ensures Capped(Capped(level + ration, max) + (n - 1) * ration, max) == Capped(level + n * ration, max)
  {
    assert n * ration == (n - 1) * ration + ration;
  }
}
