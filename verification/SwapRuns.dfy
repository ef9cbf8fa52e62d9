/**
 Sequences of swaps through one pool. A swap towards fury never lowers the product of the depths; one away from it
 can, when the running rate outweighs the fee. So at rate zero no sequence of swaps gains, and at others one can.
 */
module SwapRuns {
  import opened Decimal
  import opened Swaps
  import opened Types

  function Product(pool: Pool): int {
    pool.NativeDepth() * pool.ExternalDepth()
  }

  lemma ClearedAtMost(out: nat, X: nat, x: nat, Y: nat)
    requires X + x > 0 && out as real <= RawXYK(x, X, Y)
    ensures out * (X + x) <= x * Y
  {
    var d, n := (X + x) as real, x as real * Y as real;
    assert n / d * d == n;
    assert out as real * d <= n;
    RealMul(out, X + x);
    RealMul(x, Y);
  }

  lemma ProductKept(X: nat, x: nat, Y: nat, out: nat)
    requires out * (X + x) <= x * Y
    ensures (X + x) * (Y - out) >= X * Y
  {
    assert (X + x) * (Y - out) == X * Y + x * Y - out * (X + x);
  }

  /** What a leg pays is at most its truncated gross amount. */
  lemma PaidAtMostGross(toFury: bool, X: nat, x: nat, Y: nat, rate: nat, fee: Fraction)
    ensures var out := SwapResult(toFury, X, x, Y, rate, fee).0;
            X > 0 && x > 0 && Y > 0 ==> out as real <= Adjusted(toFury, X, x, Y, rate)
  {
    if X > 0 && x > 0 && Y > 0 { AdjustedNonNegative(toFury, X, x, Y, rate); }
  }

  lemma ShiftedDown(raw: real, factor: real)
    requires raw >= 0.0 && factor >= 1.0
    ensures raw / factor <= raw
  {
    var q := raw / factor;
    assert q * factor == raw && q >= 0.0;
    assert q * (factor - 1.0) >= 0.0;
  }

  /** Towards fury, or at rate zero, a leg pays at most the unshifted constant-product amount. */
  lemma PaidAtMostRaw(toFury: bool, X: nat, x: nat, Y: nat, rate: nat, fee: Fraction)
    requires toFury || rate == 0
    ensures var out := SwapResult(toFury, X, x, Y, rate, fee).0; out * (X + x) <= x * Y
  {
    hide SwapResult, RawXYK;
    if X > 0 && x > 0 && Y > 0 {
      PaidAtMostGross(toFury, X, x, Y, rate, fee);
      RawNonNegative(x, X, Y);
      if toFury { ShiftedDown(RawXYK(x, X, Y), PmtpFactor(rate)); }
      ClearedAtMost(SwapResult(toFury, X, x, Y, rate, fee).0, X, x, Y);
    } else {
      NothingPaid(toFury, X, x, Y, rate, fee);
      assert x * Y >= 0;
    }
  }

  lemma RawNonNegative(x: nat, X: nat, Y: nat)
    requires X + x > 0
    ensures RawXYK(x, X, Y) >= 0.0
  {
    var n, d := x as real * Y as real, (X + x) as real;
    assert n / d >= 0.0;
  }

  lemma NothingPaid(toFury: bool, X: nat, x: nat, Y: nat, rate: nat, fee: Fraction)
    requires X == 0 || x == 0 || Y == 0
    ensures SwapResult(toFury, X, x, Y, rate, fee).0 == 0
  {
  }

  /** A swap towards fury, or any swap at rate zero, never lowers the product of the depths. */
  lemma SwapKeepsProduct(pool: Pool, toFury: bool, sent: nat, rate: nat, fee: Fraction)
    requires (toFury || rate == 0) && SwapOne(pool, toFury, sent, rate, fee).Ok?
    ensures Product(SwapOne(pool, toFury, sent, rate, fee).value.1) >= Product(pool)
  {
    hide SwapResult;
    var X := if toFury then pool.ExternalDepth() else pool.NativeDepth();
    var Y := if toFury then pool.NativeDepth() else pool.ExternalDepth();
    var out := SwapResult(toFury, X, sent, Y, rate, fee).0;
    PaidAtMostRaw(toFury, X, sent, Y, rate, fee);
    ProductKept(X, sent, Y, out);
  }

  // ---------- Away from fury ----------

  lemma ClearedNear(out: nat, raw: real, X: nat, x: nat, Y: nat)
    requires X + x > 0 && raw == RawXYK(x, X, Y) && out as real < raw + 1.0
    ensures out * (X + x) <= x * Y + (X + x)
  {
    hide RawXYK;
    if out > 0 {
      ClearedAtMost(out - 1, X, x, Y);
      assert (out - 1) * (X + x) == out * (X + x) - (X + x);
    } else {
      assert x * Y >= 0;
    }
  }

  lemma ExactAtMostRaw(X: nat, x: nat, Y: nat, rate: nat, fee: Fraction)
    requires X + x > 0 && PmtpFactor(rate) * (1.0 - DecToRat(fee)) <= 1.0
    ensures ExactOut(false, X, x, Y, rate, fee) <= RawXYK(x, X, Y)
  {
    hide RawXYK, DecToRat;
    RawNonNegative(x, X, Y);
    NetAtMost(RawXYK(x, X, Y), PmtpFactor(rate), 1.0 - DecToRat(fee));
  }

  lemma NetAtMost(raw: real, factor: real, keep: real)
    requires raw >= 0.0 && factor * keep <= 1.0
    ensures raw * factor * keep <= raw
  {
    assert raw * factor * keep == raw * (factor * keep);
    assert raw * (1.0 - factor * keep) >= 0.0;
  }

  /**
   Away from fury, while the fee takes at least what the running rate adds, a swap lowers the product of the
   depths by at most the depth it is paid into, which is what the separate truncation of the fee can cost.
   */
  lemma SwapAwayNearlyKeeps(pool: Pool, sent: nat, rate: nat, fee: Fraction)
    requires PmtpFactor(rate) * (1.0 - DecToRat(fee)) <= 1.0 && SwapOne(pool, false, sent, rate, fee).Ok?
    ensures var after := SwapOne(pool, false, sent, rate, fee).value.1;
            Product(after) >= Product(pool) - after.NativeDepth()
  {
    hide SwapResult, DecToRat, RawXYK, ExactOut, PmtpFactor;
    var X, Y := pool.NativeDepth(), pool.ExternalDepth();
    var out := SwapResult(false, X, sent, Y, rate, fee).0;
    if X > 0 && sent > 0 && Y > 0 {
      var exact := ExactOut(false, X, sent, Y, rate, fee);
      SwapResultNearExact(false, X, sent, Y, rate, fee, exact);
      ExactAtMostRaw(X, sent, Y, rate, fee);
      ClearedNear(out, RawXYK(sent, X, Y), X, sent, Y);
      ProductAfter(X, sent, Y, out);
    } else {
      NothingPaid(false, X, sent, Y, rate, fee);
      ProductKept(X, sent, Y, 0);
    }
  }

  lemma ProductAfter(X: nat, x: nat, Y: nat, out: nat)
    ensures (X + x) * (Y - out) == X * Y + x * Y - out * (X + x)
  {
  }

  // ---------- Sequences ----------

  datatype Leg = Leg(toFury: bool, sent: nat, fee: Fraction)

  /** A leg that fails leaves the pool as it was. */
  function AfterLeg(pool: Pool, leg: Leg, rate: nat): Pool {
    match SwapOne(pool, leg.toFury, leg.sent, rate, leg.fee)
    case Ok((_, after)) => after
    case Err(_) => pool
  }

  function AfterLegs(pool: Pool, legs: seq<Leg>, rate: nat): Pool
    decreases |legs|
  {
    if legs == [] then pool else AfterLegs(AfterLeg(pool, legs[0], rate), legs[1..], rate)
  }

  lemma {:induction false} ProductOverLegs(pool: Pool, legs: seq<Leg>)
    ensures Product(AfterLegs(pool, legs, 0)) >= Product(pool)
    decreases |legs|
  {
    hide SwapOne;
    if legs != [] {
      if SwapOne(pool, legs[0].toFury, legs[0].sent, 0, legs[0].fee).Ok? {
        SwapKeepsProduct(pool, legs[0].toFury, legs[0].sent, 0, legs[0].fee);
      }
      ProductOverLegs(AfterLeg(pool, legs[0], 0), legs[1..]);
    }
  }

  lemma NoLess(a: nat, b: nat, c: nat, d: nat)
    requires a * b >= c * d && c > 0 && d > 0 && a <= c
    ensures b >= d
  {
    assert c * d == c * (d - 1) + c;
    if b < d {
      MulLe(b, d - 1, a);
      MulLe(a, c, d - 1);
    }
  }

  /**
   At rate zero no sequence of swaps gains, however it is split and whatever the fees: traders who leave a pool
   no more of one asset than they found leave it no less of the other.
   */
  lemma NoGainAtRateZero(pool: Pool, legs: seq<Leg>)
    requires pool.NativeDepth() > 0 && pool.ExternalDepth() > 0
    ensures NoGain(pool, AfterLegs(pool, legs, 0))
  {
    hide AfterLegs;
    ProductOverLegs(pool, legs);
    var after := AfterLegs(pool, legs, 0);
    if after.ExternalDepth() <= pool.ExternalDepth() {
      NoLess(after.ExternalDepth(), after.NativeDepth(), pool.ExternalDepth(), pool.NativeDepth());
    }
    if after.NativeDepth() <= pool.NativeDepth() {
      NoLess(after.NativeDepth(), after.ExternalDepth(), pool.NativeDepth(), pool.ExternalDepth());
    }
  }

  /** The native depths that the swaps away from fury are paid into, added up. */
  function PaidInto(pool: Pool, legs: seq<Leg>, rate: nat): nat
    decreases |legs|
  {
    if legs == [] then 0
    else
      var after := AfterLeg(pool, legs[0], rate);
      (if legs[0].toFury then 0 else after.NativeDepth()) + PaidInto(after, legs[1..], rate)
  }

  /** Every fee away from fury takes at least what the running rate adds. */
  predicate FeesOutweigh(legs: seq<Leg>, rate: nat) {
    forall i | 0 <= i < |legs| :: !legs[i].toFury ==> PmtpFactor(rate) * (1.0 - DecToRat(legs[i].fee)) <= 1.0
  }

  /** Then over every sequence the product falls by no more than the truncations can cost. */
  lemma {:induction false} ProductNearlyKept(pool: Pool, legs: seq<Leg>, rate: nat)
    requires FeesOutweigh(legs, rate)
    ensures Product(AfterLegs(pool, legs, rate)) >= Product(pool) - PaidInto(pool, legs, rate)
    decreases |legs|
  {
    hide SwapOne, PmtpFactor, DecToRat;
    if legs != [] {
      var leg := legs[0];
      assert !leg.toFury ==> PmtpFactor(rate) * (1.0 - DecToRat(leg.fee)) <= 1.0;
      if SwapOne(pool, leg.toFury, leg.sent, rate, leg.fee).Ok? {
        if leg.toFury {
          SwapKeepsProduct(pool, true, leg.sent, rate, leg.fee);
        } else {
          SwapAwayNearlyKeeps(pool, leg.sent, rate, leg.fee);
        }
      }
      ProductNearlyKept(AfterLeg(pool, leg, rate), legs[1..], rate);
    }
  }

  // ---------- Every positive rate ----------

  /** Traders who leave no more of one asset than they found leave no less of the other. */
  predicate NoGain(before: Pool, after: Pool) {
    && (after.ExternalDepth() <= before.ExternalDepth() ==> after.NativeDepth() >= before.NativeDepth())
    && (after.NativeDepth() <= before.NativeDepth() ==> after.ExternalDepth() >= before.ExternalDepth())
  }

  /** At this rate no sequence of swaps gains from any pool. */
  ghost predicate NeverGains(rate: nat) {
    forall pool: Pool, legs: seq<Leg> | pool.NativeDepth() > 0 && pool.ExternalDepth() > 0 ::
      NoGain(pool, AfterLegs(pool, legs, rate))
  }

  lemma RawIs(x: nat, X: nat, Y: nat, v: nat)
    requires X + x > 0 && v * (X + x) == x * Y
    ensures RawXYK(x, X, Y) == v as real
  {
    RealMul(v, X + x);
    RealMul(x, Y);
    var d := (X + x) as real;
    assert v as real * d / d == v as real;
  }

  lemma FactorIs(rate: nat)
    ensures PmtpFactor(rate) * ONE as real == (ONE + rate) as real
  {
  }

  /** A product with the shifting factor, in whole numbers. */
  lemma ShiftedTo(v: nat, k: nat, f: real, m: nat)
    requires f * ONE as real == m as real && m > 0
    ensures v * ONE == k * m ==> v as real / f == k as real
    ensures v * m == k * ONE ==> v as real * f == k as real
  {
    RealMul(v, ONE);
    RealMul(k, m);
    RealMul(v, m);
    RealMul(k, ONE);
    var e := ONE as real;
    assert f > 0.0;
    if v * ONE == k * m {
      assert v as real * e == k as real * f * e;
      assert v as real == k as real * f;
    }
    if v * m == k * ONE {
      assert v as real * f * e == k as real * e;
    }
  }

  lemma AdjustedIs(toFury: bool, X: nat, x: nat, Y: nat, rate: nat, v: nat, k: nat)
    requires X > 0 && v * (X + x) == x * Y
    requires if toFury then v * ONE == k * (ONE + rate) else v * (ONE + rate) == k * ONE
    ensures Adjusted(toFury, X, x, Y, rate) == k as real
  {
    hide RawXYK, PmtpFactor;
    RawIs(x, X, Y, v);
    FactorIs(rate);
    ShiftedTo(v, k, PmtpFactor(rate), ONE + rate);
  }

  lemma NoFee(toFury: bool, X: nat, x: nat, Y: nat, rate: nat, k: nat)
    requires X > 0 && x > 0 && Y > 0 && Adjusted(toFury, X, x, Y, rate) == k as real
    ensures SwapResult(toFury, X, x, Y, rate, 0).0 == k
  {
    hide Adjusted;
    assert DecToRat(0) == 0.0;
    assert Trunc(k as real) == k && Trunc(k as real * 0.0) == 0;
  }

  /** Without a fee, a leg whose exact amount is whole pays exactly that. */
  lemma WholeLeg(toFury: bool, X: nat, x: nat, Y: nat, rate: nat, v: nat, k: nat)
    requires X > 0 && x > 0 && Y > 0 && v * (X + x) == x * Y
    requires if toFury then v * ONE == k * (ONE + rate) else v * (ONE + rate) == k * ONE
    ensures SwapResult(toFury, X, x, Y, rate, 0).0 == k
  {
    hide SwapResult, Adjusted;
    AdjustedIs(toFury, X, x, Y, rate, v, k);
    NoFee(toFury, X, x, Y, rate, k);
  }

  function Balanced(native: nat, external: nat): Pool {
    Pool(native, external, 0, 0, 0, 0, 0)
  }

  /** The three legs at rate r, in multiples of m = 1 + r: two halves sold, the proceeds swapped back. */
  function SplitTrip(m: nat): seq<Leg>
    requires m >= ONE
  {
    [Leg(true, 6 * (m * m), 0), Leg(true, 6 * (m * m), 0), Leg(false, 7 * (ONE * m) - ONE * ONE, 0)]
  }

  lemma Scale(m: nat)
    requires m > ONE
    ensures m * m > ONE * m > ONE * ONE
  {
    MulLe(ONE + 1, m, m);
    MulLe(ONE + 1, m, ONE);
  }

  /** The terms of the three legs, with s = m^2 and t = ONE m. */
  lemma TripTerms(m: nat, s: nat, t: nat)
    requires s == m * m && t == ONE * m
    ensures 4 * s * (18 * s) == 6 * s * (12 * s) && 4 * s * ONE == 4 * t * m
    ensures (3 * s - t) * (24 * s) == 6 * s * (12 * s - 4 * t) && (3 * s - t) * ONE == (3 * t - ONE * ONE) * m
    ensures 2 * (7 * t - ONE * ONE) * (12 * s) == (7 * t - ONE * ONE) * (24 * s)
    ensures 2 * (7 * t - ONE * ONE) * m == (14 * s - 2 * t) * ONE
  {
    assert t * m == ONE * s;
    assert (3 * t - ONE * ONE) * m == 3 * (t * m) - ONE * t;
    assert 2 * (7 * t - ONE * ONE) * m == 14 * (t * m) - 2 * (ONE * t);
  }

  lemma FirstHalf(m: nat, s: nat, t: nat, rate: nat)
    requires m == ONE + rate > ONE && s == m * m && t == ONE * m
    ensures s > t > ONE * ONE
    ensures AfterLeg(Balanced(12 * s, 12 * s), Leg(true, 6 * s, 0), rate) == Balanced(12 * s - 4 * t, 18 * s)
  {
    hide SwapResult;
    Scale(m);
    TripTerms(m, s, t);
    WholeLeg(true, 12 * s, 6 * s, 12 * s, rate, 4 * s, 4 * t);
  }

  lemma SecondHalf(m: nat, s: nat, t: nat, rate: nat)
    requires m == ONE + rate > ONE && s == m * m && t == ONE * m && s > t > ONE * ONE
    ensures AfterLeg(Balanced(12 * s - 4 * t, 18 * s), Leg(true, 6 * s, 0), rate)
         == Balanced(12 * s - 7 * t + ONE * ONE, 24 * s)
  {
    hide SwapResult;
    TripTerms(m, s, t);
    WholeLeg(true, 18 * s, 6 * s, 12 * s - 4 * t, rate, 3 * s - t, 3 * t - ONE * ONE);
  }

  lemma WayBack(m: nat, s: nat, t: nat, rate: nat)
    requires m == ONE + rate > ONE && s == m * m && t == ONE * m && s > t > ONE * ONE
    ensures AfterLeg(Balanced(12 * s - 7 * t + ONE * ONE, 24 * s), Leg(false, 7 * t - ONE * ONE, 0), rate)
         == Balanced(12 * s, 10 * s + 2 * t)
  {
    hide SwapResult;
    TripTerms(m, s, t);
    WholeLeg(false, 12 * s - 7 * t + ONE * ONE, 7 * t - ONE * ONE, 24 * s, rate, 2 * (7 * t - ONE * ONE), 14 * s - 2 * t);
  }

  /**
   At every positive rate, selling external asset in two halves and swapping the proceeds back leaves the pool
   the native asset it had and 2 r (1 + r) less external.
   */
  lemma SplitTripGains(rate: nat)
    requires rate > 0
    ensures var m := ONE + rate;
            var pool := Balanced(12 * (m * m), 12 * (m * m));
            var after := AfterLegs(pool, SplitTrip(m), rate);
            after.NativeDepth() == pool.NativeDepth() && after.ExternalDepth() == pool.ExternalDepth() - 2 * (rate * m)
  {
    hide SwapOne, AfterLeg;
    var m := ONE + rate;
    var s, t := m * m, ONE * m;
    FirstHalf(m, s, t, rate);
    SecondHalf(m, s, t, rate);
    WayBack(m, s, t, rate);
    var a, b, c := Leg(true, 6 * s, 0), Leg(true, 6 * s, 0), Leg(false, 7 * t - ONE * ONE, 0);
    assert SplitTrip(m) == [a, b, c];
    AfterThree(Balanced(12 * s, 12 * s), a, b, c, rate);
    assert rate * m == s - t;
  }

  lemma AfterThree(pool: Pool, a: Leg, b: Leg, c: Leg, rate: nat)
    ensures AfterLegs(pool, [a, b, c], rate) == AfterLeg(AfterLeg(AfterLeg(pool, a, rate), b, rate), c, rate)
  {
    hide AfterLeg;
    assert [a, b, c][1..] == [b, c] && [b, c][1..] == [c] && [c][1..] == [];
    var p2 := AfterLeg(AfterLeg(pool, a, rate), b, rate);
    assert AfterLegs(p2, [c], rate) == AfterLegs(AfterLeg(p2, c, rate), [], rate);
  }

  /** Sequences of swaps cannot gain at a running rate if and only if that rate is zero. */
  lemma NeverGainsExactly(rate: nat)
    ensures NeverGains(rate) <==> rate == 0
  {
    hide AfterLegs;
    if rate == 0 {
      forall pool: Pool, legs: seq<Leg> | pool.NativeDepth() > 0 && pool.ExternalDepth() > 0
        ensures NoGain(pool, AfterLegs(pool, legs, rate))
      {
        NoGainAtRateZero(pool, legs);
      }
    } else {
      var m := ONE + rate;
      var pool := Balanced(12 * (m * m), 12 * (m * m));
      Scale(m);
      SplitTripGains(rate);
      assert rate * m > 0;
      assert !NoGain(pool, AfterLegs(pool, SplitTrip(m), rate));
    }
  }

  // ---------- One such sequence, in small numbers ----------

  const TRILLION: nat := 1_000_000_000_000

  lemma FirstSale()
    ensures SwapOne(Balanced(TRILLION, TRILLION), true, TRILLION / 2, ONE, 0)
         == Ok((166_666_666_666, Balanced(833_333_333_334, TRILLION * 3 / 2)))
  {
    assert Trunc(Adjusted(true, TRILLION, TRILLION / 2, TRILLION, ONE)) == 166_666_666_666;
  }

  lemma SecondSale()
    ensures SwapOne(Balanced(833_333_333_334, TRILLION * 3 / 2), true, TRILLION / 2, ONE, 0)
         == Ok((104_166_666_666, Balanced(729_166_666_668, 2 * TRILLION)))
  {
    assert Trunc(Adjusted(true, TRILLION * 3 / 2, TRILLION / 2, 833_333_333_334, ONE)) == 104_166_666_666;
  }

  lemma BoughtBack()
    ensures SwapOne(Balanced(729_166_666_668, 2 * TRILLION), false, 270_833_333_332, ONE, 0)
         == Ok((1_083_333_333_328, Balanced(TRILLION, 916_666_666_672)))
  {
    assert Trunc(Adjusted(false, 729_166_666_668, 270_833_333_332, 2 * TRILLION, ONE)) == 1_083_333_333_328;
  }

  /**
   At running rate one and no fee, selling external asset in two halves and buying it back in one leaves the pool
   with the native asset it had and less external: the round trip that cannot gain in one leg each way gains when
   a leg is split.
   */
  lemma SplitRoundTripGains()
    ensures var legs := [Leg(true, TRILLION / 2, 0), Leg(true, TRILLION / 2, 0), Leg(false, 270_833_333_332, 0)];
            var after := AfterLegs(Balanced(TRILLION, TRILLION), legs, ONE);
            after.NativeDepth() == TRILLION && after.ExternalDepth() == 916_666_666_672 < TRILLION
  {
    hide SwapOne;
    var a, b, c := Leg(true, TRILLION / 2, 0), Leg(true, TRILLION / 2, 0), Leg(false, 270_833_333_332, 0);
    assert [a, b, c][1..] == [b, c] && [b, c][1..] == [c] && [c][1..] == [];
    FirstSale();
    SecondSale();
    BoughtBack();
    var p1, p2, p3 := Balanced(833_333_333_334, TRILLION * 3 / 2), Balanced(729_166_666_668, 2 * TRILLION), Balanced(TRILLION, 916_666_666_672);
    assert AfterLegs(p3, [], ONE) == p3;
    assert AfterLegs(p2, [c], ONE) == p3;
    assert AfterLegs(p1, [b, c], ONE) == p3;
  }
}
