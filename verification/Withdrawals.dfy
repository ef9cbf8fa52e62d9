/**
 Withdrawals: what a share of the pool units pays out of one side of the pool, through nested
 18-decimal roundings.
 */
module Withdrawals {
  import opened Decimal
  import opened LiquidityAdds
  import opened Swaps
  import opened Types

  /** The decimal amount that a claim (a decimal number of units) out of P units takes from depth D. */
  function Share(D: nat, P: nat, claim: nat): Result<nat> {
    if claim == 0 then Err(PanicArithmetic)
    else
      var ratio := Quo(P * ONE, claim);
      if ratio == 0 then Err(PanicArithmetic) else Ok(Quo(D * ONE, ratio))
  }

  datatype Payout = Payout(native: nat, external: nat, unitsLeft: nat)

  /** CalculateWithdrawalFromUnits: amounts rounded to nearest. */
  function FromUnits(P: nat, nativeDepth: nat, externalDepth: nat, lpUnits: nat, units: nat): Result<Payout> {
    var native :- Share(nativeDepth, P, units * ONE);
    var external :- Share(externalDepth, P, units * ONE);
    var left :- Sub(lpUnits, units);
    Ok(Payout(Round(native), Round(external), left))
  }

  /** The units that w basis points of lpUnits claim, as a decimal. */
  function Claimed(lpUnits: nat, w: nat): nat
    requires 0 < w <= MAX_WBASIS
  {
    DenominatorAtLeastOne(w);
    Quo(lpUnits * ONE, Quo(MAX_WBASIS * ONE, w * ONE))
  }

  lemma DenominatorAtLeastOne(w: nat)
    requires 0 < w <= MAX_WBASIS
    ensures Quo(MAX_WBASIS * ONE, w * ONE) >= ONE
  {
    QuoAtLeast(MAX_WBASIS * ONE, w * ONE, ONE);
  }

  /** CalculateWithdrawal at asymmetry zero: amounts truncated. */
  function FromBasisPoints(P: nat, nativeDepth: nat, externalDepth: nat, lpUnits: nat, w: nat): Result<Payout>
    requires 0 < w <= MAX_WBASIS
  {
    var claim := Claimed(lpUnits, w);
    var native :- Share(nativeDepth, P, claim);
    var external :- Share(externalDepth, P, claim);
    var left :- Sub(lpUnits * ONE, claim);
    Ok(Payout(native / ONE, external / ONE, left / ONE))
  }

  lemma ClaimedAtMost(lpUnits: nat, w: nat)
    requires 0 < w <= MAX_WBASIS
    ensures Claimed(lpUnits, w) <= lpUnits * ONE
  {
    var d := Quo(MAX_WBASIS * ONE, w * ONE);
    DenominatorAtLeastOne(w);
    MulLe(ONE, d, lpUnits * ONE);
    QuoAtMost(lpUnits * ONE, d, lpUnits * ONE);
  }

  /** A claim within the pool's units takes no more than the depth. */
  lemma ShareWithinDepth(D: nat, P: nat, claim: nat)
    requires 0 < claim <= P * ONE
    ensures var s := Share(D, P, claim); s.Ok? && s.value <= D * ONE
  {
    QuoAtLeast(P * ONE, claim, ONE);
    var ratio := Quo(P * ONE, claim);
    MulLe(ONE, ratio, D * ONE);
    QuoAtMost(D * ONE, ratio, D * ONE);
  }

  // ---------- How far the roundings move a payout ----------

  lemma ScaleNear(c: nat, q: int, m: int, e: nat, k: nat)
    requires 2 * m - e <= c * q <= 2 * m + e
    ensures 2 * (m * k) - e * k <= c * (q * k) <= 2 * (m * k) + e * k
  {
    MulLe(2 * m - e, c * q, k);
    MulLe(c * q, 2 * m + e, k);
    assert (c * q) * k == c * (q * k);
    assert (2 * m - e) * k == 2 * (m * k) - e * k;
    assert (2 * m + e) * k == 2 * (m * k) + e * k;
  }

  /** The units ratio, as a decimal, is off by at most three fifths of its last place. */
  lemma RatioError(P: nat, units: nat)
    requires units > 0
    ensures var q := Quo(P * ONE, units * ONE);
            -3 * units <= 5 * (q * units - P * ONE) <= 3 * units
  {
    var m, q := P * ONE * ONE * ONE / (units * ONE), Quo(P * ONE, units * ONE);
    DivBounds(P * ONE * ONE * ONE, units * ONE);
    ScaleNear(2 * ONE, q, m, ONE, units);
    Regroup(m, units);
    RatioLinear(P, units, m * units, q * units);
  }

  lemma Regroup(m: int, k: int)
    ensures m * (k * ONE) == (m * k) * ONE
  {
  }

  lemma RatioLinear(P: nat, units: nat, mu: int, qu: int)
    requires mu * ONE <= P * ONE * ONE * ONE < mu * ONE + units * ONE
    requires 2 * mu - ONE * units <= (2 * ONE) * qu <= 2 * mu + ONE * units
    ensures -3 * units <= 5 * (qu - P * ONE) <= 3 * units
  {
  }

  /** The payout, rounded twice more, is off by at most three fifths of a unit of the exact D / q. */
  lemma PayoutError(D: nat, q: nat)
    requires q > 0
    ensures var w := Round(Quo(D * ONE, q));
            -3 * q <= 5 * (w * q - D * ONE) <= 3 * q
  {
    var m, pay := D * ONE * ONE * ONE / q, Quo(D * ONE, q);
    var w := Round(pay);
    DivBounds(D * ONE * ONE * ONE, q);
    TwoRoundings(m, pay, w);
    ScaleNear(2 * ONE * ONE, w, m, ONE + ONE * ONE, q);
    PayoutLinear(D, q, m * q, w * q);
  }

  lemma TwoRoundings(m: nat, pay: nat, w: nat)
    requires pay == Round(m) && w == Round(pay)
    ensures 2 * m - (ONE + ONE * ONE) <= (2 * ONE * ONE) * w <= 2 * m + (ONE + ONE * ONE)
  {
  }

  lemma PayoutLinear(D: nat, q: nat, mq: int, wq: int)
    requires mq <= D * ONE * ONE * ONE < mq + q
    requires 2 * mq - (ONE + ONE * ONE) * q <= (2 * ONE * ONE) * wq <= 2 * mq + (ONE + ONE * ONE) * q
    ensures -3 * q <= 5 * (wq - D * ONE) <= 3 * q
  {
  }

  lemma ErrorIdentity(D: nat, P: nat, units: nat, q: nat, w: nat)
    ensures w * (P * ONE) - D * units * ONE == units * (w * q - D * ONE) - w * (q * units - P * ONE)
  {
  }

  lemma ScaleError(e: int, b: nat, k: nat)
    requires -3 * b <= 5 * e <= 3 * b
    ensures -3 * (b * k) <= 5 * (k * e) <= 3 * (b * k)
  {
    MulLe(5 * e, 3 * b, k);
    MulLe(-3 * b, 5 * e, k);
  }

  /** The two errors together. */
  lemma CombinedError(D: nat, P: nat, units: nat, q: nat, w: nat)
    requires 0 < units <= P && w <= D
    requires -3 * units <= 5 * (q * units - P * ONE) <= 3 * units
    requires -3 * q <= 5 * (w * q - D * ONE) <= 3 * q
    ensures -(D * units + P * ONE) <= w * (P * ONE) - D * units * ONE <= D * units + P * ONE
  {
    ErrorIdentity(D, P, units, q, w);
    ScaleError(w * q - D * ONE, q, units);
    ScaleError(q * units - P * ONE, units, w);
    MulLe(w, D, units);
    CombinedLinear(D * units, P, units, q * units, w * units,
                   units * (w * q - D * ONE), w * (q * units - P * ONE));
  }

  lemma CombinedLinear(Du: nat, P: nat, units: nat, qu: nat, wu: nat, x: int, y: int)
    requires units <= P && wu <= Du && 5 * (qu - P * ONE) <= 3 * units
    requires -3 * qu <= 5 * x <= 3 * qu && -3 * wu <= 5 * y <= 3 * wu
    ensures -(Du + P * ONE) <= x - y <= Du + P * ONE
  {
  }

  /**
   Withdrawing units of the P pays at most the depth, and within a relative 10^-18 plus one whole unit of
   the exact share: |w - D * units / P| <= (D * units / P) * 10^-18 + 1, written without the divisions.
   */
  lemma PayoutNearShare(D: nat, P: nat, units: nat)
    requires 0 < units <= P
    ensures var s := Share(D, P, units * ONE);
            s.Ok? &&
            var w := Round(s.value);
            w <= D && -(D * units + P * ONE) <= w * (P * ONE) - D * units * ONE <= D * units + P * ONE
  {
    hide Round, Quo;
    ShareWithinDepth(D, P, units * ONE);
    var q := Quo(P * ONE, units * ONE);
    var w := Round(Quo(D * ONE, q));
    RoundAtMost(Quo(D * ONE, q), D);
    RatioError(P, units);
    PayoutError(D, q);
    CombinedError(D, P, units, q, w);
  }

  /**
   A symmetric add withdrawn at once: the add of r to depth R earned u of the P + u units, and taking them
   out again returns at most r * (1 + 10^-18) + 1.
   */
  lemma AddThenWithdraw(P: nat, R: nat, r: nat)
    requires R > 0 && SymmetricUnits(R, r, P) > 0
    ensures var u := SymmetricUnits(R, r, P);
            var s := Share(R + r, P + u, u * ONE);
            s.Ok? && Round(s.value) * ONE <= r * (ONE + 1) + ONE
  {
    hide Round, Quo, SymmetricUnits;
    var u := SymmetricUnits(R, r, P);
    PayoutNearShare(R + r, P + u, u);
    var w := Round(Share(R + r, P + u, u * ONE).value);
    DilutedShare(P, R, r, u);
    CancelUnits(w * ONE, r * (ONE + 1) + ONE, P + u);
  }

  lemma DilutedShare(P: nat, R: nat, r: nat, u: nat)
    requires R > 0 && u == SymmetricUnits(R, r, P)
    ensures (R + r) * u <= r * (P + u)
  {
    DivBounds(P * r, R);
  }

  lemma CancelUnits(a: int, b: int, k: nat)
    requires k > 0 && a * k <= b * k
    ensures a <= b
  {
    if a > b { MulLe(b + 1, a, k); }
  }

  /** The same on both sides of the pool: a symmetric add, then RemoveLiquidityUnits of exactly the units earned. */
  lemma SymmetricAddThenRemove(P: nat, R: nat, A: nat, r: nat, a: nat, lpUnits: nat)
    requires SymmetryState(R, A, r, a) == Symmetric
    requires 0 < SymmetricUnits(R, r, P) <= lpUnits
    ensures var u := SymmetricUnits(R, r, P);
            var out := FromUnits(P + u, R + r, A + a, lpUnits, u);
            out.Ok? && out.value.unitsLeft == lpUnits - u
            && out.value.native * ONE <= r * (ONE + 1) + ONE
            && out.value.external * ONE <= a * (ONE + 1) + ONE
  {
    hide Round, Quo, SymmetricUnits, Share;
    FloorShareMonotone(P, r, R, a, A);
    FloorShareMonotone(P, a, A, r, R);
    AddThenWithdraw(P, R, r);
    AddThenWithdraw(P, A, a);
  }

  // ---------- Any add, withdrawn at once ----------

  /** A withdrawal of u of the P units from depth D, before the division: at most its share, a relative 10^-18 and one more. */
  lemma PayoutAtMost(D: nat, P: nat, u: nat, w: nat, c: nat)
    requires 0 < u <= P && Share(D, P, u * ONE).Ok? && w == Round(Share(D, P, u * ONE).value)
    requires D * u <= P * c
    ensures w * ONE <= c * (ONE + 1) + ONE
  {
    hide Round, Share;
    PayoutNearShare(D, P, u);
    assert w * (P * ONE) <= D * u * (ONE + 1) + P * ONE;
    MulLe(D * u, P * c, ONE + 1);
    assert (c * (ONE + 1) + ONE) * P == P * c * (ONE + 1) + P * ONE;
    assert w * (P * ONE) == w * ONE * P;
    CancelUnits(w * ONE, c * (ONE + 1) + ONE, P);
  }

  /** Of the side that was swapped from, an add's units are worth at most what the swap left of it. */
  lemma HeavyShare(P: nat, X: nat, x: nat, s: nat, u: nat)
    requires FloorShare(P, X, x, s, u)
    ensures (X + x) * u <= (P + u) * (x - s)
  {
    assert u * (X + s) + u * (x - s) == (X + x) * u;
    assert P * (x - s) + u * (x - s) == (P + u) * (x - s);
  }

  /** Of the other side, at most what it added, what two more units swapped would have bought, and the worth of those two. */
  lemma LightShare(P: nat, X: nat, x: nat, Y: nat, y: nat, s: nat, u: nat, w: nat, out: real)
    requires X > 0 && FloorShare(P, X, x, s, u) && 0 < u
    requires Imbalance(X as real, x as real, Y as real, y as real, s as real + 2.0, out) > 0.0
    requires Share(Y + y, P + u, u * ONE).Ok? && w == Round(Share(Y + y, P + u, u * ONE).value)
    ensures WorthAtMost(w, X + x, Y + y, y as real + out)
  {
    hide Round, Share, FloorShare;
    PayoutNearShare(Y + y, P + u, u);
    HeavyShare(P, X, x, s, u);
    assert s <= x by { Swapped(P, X, x, s, u); }
    LightCancel(w, P + u, X + x, Y + y, u, x - s);
    LightReal(w, X, x, Y, y, s, out);
  }

  lemma Swapped(P: nat, X: nat, x: nat, s: nat, u: nat)
    requires FloorShare(P, X, x, s, u)
    ensures s <= x
  {
  }

  lemma LightCancel(w: nat, Q: nat, T: nat, D: nat, u: nat, rest: nat)
    requires Q > 0 && T * u <= Q * rest && w * (Q * ONE) - D * u * ONE <= D * u + Q * ONE
    ensures w * ONE * T <= D * rest * (ONE + 1) + ONE * T
  {
    MulLe(w * (Q * ONE), D * u * (ONE + 1) + Q * ONE, T);
    MulLe(T * u, Q * rest, D * (ONE + 1));
    assert D * u * (ONE + 1) * T == T * u * (D * (ONE + 1));
    assert Q * rest * (D * (ONE + 1)) == D * rest * (ONE + 1) * Q;
    assert (D * u * (ONE + 1) + Q * ONE) * T == D * u * (ONE + 1) * T + Q * ONE * T;
    assert w * (Q * ONE) * T == w * ONE * T * Q;
    assert (D * rest * (ONE + 1) + ONE * T) * Q == D * rest * (ONE + 1) * Q + Q * ONE * T;
    CancelUnits(w * ONE * T, D * rest * (ONE + 1) + ONE * T, Q);
  }

  /** w, out of depth D against depth T, is at most `fair` and two of the other side's units, a relative 10^-18 and one more. */
  predicate WorthAtMost(w: nat, T: nat, D: nat, fair: real) {
    w as real * ONE as real * T as real
    <= (fair * T as real + 2.0 * D as real) * (ONE as real + 1.0) + ONE as real * T as real
  }

  lemma LightReal(w: nat, X: nat, x: nat, Y: nat, y: nat, s: nat, out: real)
    requires s <= x && w * ONE * (X + x) <= (Y + y) * (x - s) * (ONE + 1) + ONE * (X + x)
    requires Imbalance(X as real, x as real, Y as real, y as real, s as real + 2.0, out) > 0.0
    ensures WorthAtMost(w, X + x, Y + y, y as real + out)
  {
    var T, D, left := (X + x) as real, (Y + y) as real, (x - s) as real;
    RealMul(w * ONE, X + x);
    RealMul(w, ONE);
    RealMul((Y + y) * (x - s), ONE + 1);
    RealMul(Y + y, x - s);
    RealMul(ONE, X + x);
    assert D * left < T * (y as real + out) + 2.0 * D;
    MulMonotone(D * left, (y as real + out) * T + 2.0 * D, ONE as real + 1.0);
  }

  /**
   Any add to a pool with both depths positive, withdrawn at once by units: of the heavy side it returns at most what
   the swap left, and of the other at most what was added and what s + 2 units buy, and the worth of two units; each
   with a relative 10^-18 and one unit for the roundings.
   */
  lemma AddThenRemove(P: nat, R: nat, A: nat, r: nat, a: nat, sellFee: Fraction, buyFee: Fraction, rate: nat, q: AddQuote, lpUnits: nat)
    requires R > 0 && A > 0 && PoolUnits(P, R, A, r, a, sellFee, buyFee, rate) == Ok(q)
    requires 0 < q.lpUnits <= lpUnits
    ensures var out := FromUnits(P + q.lpUnits, R + r, A + a, lpUnits, q.lpUnits);
            && out.Ok? && out.value.unitsLeft == lpUnits - q.lpUnits
            && (R * a >= r * A ==> q.swapAmount <= a && out.value.external * ONE <= (a - q.swapAmount) * (ONE + 1) + ONE)
            && (R * a <= r * A ==> q.swapAmount <= r && out.value.native * ONE <= (r - q.swapAmount) * (ONE + 1) + ONE)
            && (R * a > r * A ==> WorthAtMost(out.value.native, A + a, R + r, r as real + ExactOut(true, A, q.swapAmount + 2, R, rate, buyFee)))
            && (R * a < r * A ==> WorthAtMost(out.value.external, R + r, A + a, a as real + ExactOut(false, R, q.swapAmount + 2, A, rate, sellFee)))
  {
    hide Round, Share, PoolUnits, FloorShare, ExactOut, Imbalance, WorthAtMost;
    var u, s := q.lpUnits, q.swapAmount;
    PoolUnitsPriced(P, R, A, r, a, sellFee, buyFee, rate);
    PayoutNearShare(R + r, P + u, u);
    PayoutNearShare(A + a, P + u, u);
    var out := FromUnits(P + u, R + r, A + a, lpUnits, u).value;
    if R * a > r * A {
      Swapped(P, A, a, s, u);
      HeavyShare(P, A, a, s, u);
      PayoutAtMost(A + a, P + u, u, out.external, a - s);
      LightShare(P, A, a, R, r, s, u, out.native, ExactOut(true, A, s + 2, R, rate, buyFee));
    } else if R * a < r * A {
      Swapped(P, R, r, s, u);
      HeavyShare(P, R, r, s, u);
      PayoutAtMost(R + r, P + u, u, out.native, r - s);
      LightShare(P, R, r, A, a, s, u, out.external, ExactOut(false, R, s + 2, A, rate, sellFee));
    } else {
      HeavyShare(P, R, r, 0, u);
      PayoutAtMost(R + r, P + u, u, out.native, r);
      EvenShare(P, R, A, r, a, u);
      PayoutAtMost(A + a, P + u, u, out.external, a);
    }
  }

  lemma EvenShare(P: nat, R: nat, A: nat, r: nat, a: nat, u: nat)
    requires R > 0 && R * a == r * A && (R + r) * u <= (P + u) * r
    ensures (A + a) * u <= (P + u) * a
  {
    assert R * u <= P * r;
    MulLe(R * u, P * r, A);
    assert R * u * A == A * u * R && P * r * A == P * (R * a);
    assert P * (R * a) == P * a * R;
    CancelUnits(A * u, P * a, R);
  }

  // ---------- Withdrawing by basis points ----------

  /** Through two quotients: if d * k is near M and x * d is near N, then x * M is near N * k. */
  lemma NearTwice(x: nat, d: nat, k: nat, M: nat, N: nat)
    requires Near(d * k, M, k) && Near(x * d, N, d)
    ensures Near(x * M, N * k, d * k + x * k)
  {
    NearScaled(d * k, M, k, x);
    NearScaled(x * d, N, d, k);
    assert x * d * k == d * k * x && M * x == x * M && k * x == x * k;
  }

  /** The claim is its basis points of the units: claim * 10000 against units * w, both as decimals. */
  lemma ClaimedNear(lpUnits: nat, w: nat)
    requires 0 < w <= MAX_WBASIS
    ensures var claim := Claimed(lpUnits, w);
            Near(claim * (MAX_WBASIS * ONE), lpUnits * ONE * ONE * w, MAX_WBASIS * ONE + w + claim * w)
  {
    hide Quo;
    DenominatorAtLeastOne(w);
    var d := Quo(MAX_WBASIS * ONE, w * ONE);
    QuoNear(MAX_WBASIS * ONE, w * ONE);
    assert d * (w * ONE) == d * w * ONE;
    var claim := Quo(lpUnits * ONE, d);
    QuoNear(lpUnits * ONE, d);
    NearTwice(claim, d, w, MAX_WBASIS * ONE, lpUnits * ONE * ONE);
  }

  /** The share of a claim is the depth's part of it: share * P against D * claim. */
  lemma ShareNear(D: nat, P: nat, claim: nat)
    requires 0 < claim <= P * ONE
    ensures var s := Share(D, P, claim);
            s.Ok? && Near(s.value * (P * ONE * ONE), D * ONE * ONE * claim, P * ONE * ONE + claim + s.value * claim)
  {
    hide Quo;
    ShareWithinDepth(D, P, claim);
    var ratio := Quo(P * ONE, claim);
    QuoNear(P * ONE, claim);
    QuoNear(D * ONE, ratio);
    NearTwice(Quo(D * ONE, ratio), ratio, claim, P * ONE * ONE, D * ONE * ONE);
  }

  /** A sole provider taking everything by basis points takes both depths, to the last unit. */
  lemma SoleProviderTakesAll(P: nat, nativeDepth: nat, externalDepth: nat)
    requires P > 0
    ensures FromBasisPoints(P, nativeDepth, externalDepth, P, MAX_WBASIS) == Ok(Payout(nativeDepth, externalDepth, 0))
  {
    hide Quo;
    QuoSelf(MAX_WBASIS * ONE);
    QuoByOne(P * ONE);
    QuoSelf(P * ONE);
    QuoByOne(nativeDepth * ONE);
    QuoByOne(externalDepth * ONE);
  }

  lemma QuoSelf(a: nat)
    requires a > 0
    ensures Quo(a, a) == ONE
  {
    QuoAtLeast(a, a, ONE);
    QuoAtMost(a, a, ONE);
  }

  lemma QuoByOne(a: nat)
    ensures Quo(a, ONE) == a
  {
    QuoAtLeast(a, ONE, a);
    QuoAtMost(a, ONE, a);
  }

  /** By basis points, a payout is the truncated share of the claim and the units left the truncated rest. */
  lemma BasisPointsPayout(P: nat, nativeDepth: nat, externalDepth: nat, lpUnits: nat, w: nat)
    requires 0 < w <= MAX_WBASIS && lpUnits <= P && Claimed(lpUnits, w) > 0
    ensures var claim := Claimed(lpUnits, w);
            var out := FromBasisPoints(P, nativeDepth, externalDepth, lpUnits, w);
            && out.Ok? && out.value.native <= nativeDepth && out.value.external <= externalDepth
            && out.value.unitsLeft * ONE <= lpUnits * ONE - claim < out.value.unitsLeft * ONE + ONE
            && out.value.native * ONE <= Share(nativeDepth, P, claim).value < out.value.native * ONE + ONE
            && out.value.external * ONE <= Share(externalDepth, P, claim).value < out.value.external * ONE + ONE
  {
    hide Share, Claimed;
    ClaimedAtMost(lpUnits, w);
    MulLe(lpUnits, P, ONE);
    ShareWithinDepth(nativeDepth, P, Claimed(lpUnits, w));
    ShareWithinDepth(externalDepth, P, Claimed(lpUnits, w));
  }

  lemma NearTransitive(a: int, b: int, c: int, e: int, f: int)
    requires Near(a, b, e) && Near(b, c, f)
    ensures Near(a, c, e + f)
  {
  }

  /** A truncated decimal is within one of the decimal. */
  lemma TruncatedNear(share: nat, paid: nat)
    requires paid * ONE <= share < paid * ONE + ONE
    ensures Near(paid * ONE, share, ONE)
  {
  }

  /** The two quotients of the share and the two of the claim, one after the other, and the truncation. */
  lemma PayoutChain(D: nat, P: nat, units: nat, w: nat, claim: nat, share: nat, paid: nat, e1: nat, e2: nat)
    requires Near(share * (P * ONE * ONE), D * ONE * ONE * claim, e1)
    requires Near(claim * (MAX_WBASIS * ONE), units * ONE * ONE * w, e2)
    requires Near(paid * ONE, share, ONE)
    ensures Near(paid * P * MAX_WBASIS * ONE * ONE * ONE * ONE, D * units * w * ONE * ONE * ONE * ONE,
                 P * MAX_WBASIS * ONE * ONE * ONE * ONE + e1 * (MAX_WBASIS * ONE) + e2 * (D * ONE * ONE))
  {
    var k, M := P * ONE * ONE * (MAX_WBASIS * ONE), MAX_WBASIS * ONE;
    NearScaled(paid * ONE, share, ONE, k);
    NearScaled(share * (P * ONE * ONE), D * ONE * ONE * claim, e1, M);
    NearScaled(claim * M, units * ONE * ONE * w, e2, D * ONE * ONE);
    ChainTerms(D, P, units, w, claim, share, paid);
    NearTransitive(paid * ONE * k, share * k, D * ONE * ONE * claim * M, ONE * k, e1 * M);
    NearTransitive(paid * ONE * k, D * ONE * ONE * claim * M, units * ONE * ONE * w * (D * ONE * ONE), ONE * k + e1 * M, e2 * (D * ONE * ONE));
  }

  lemma ChainTerms(D: nat, P: nat, units: nat, w: nat, claim: nat, share: nat, paid: nat)
    ensures var k, M := P * ONE * ONE * (MAX_WBASIS * ONE), MAX_WBASIS * ONE;
            && paid * ONE * k == paid * P * MAX_WBASIS * ONE * ONE * ONE * ONE
            && ONE * k == P * MAX_WBASIS * ONE * ONE * ONE * ONE
            && share * (P * ONE * ONE) * M == share * k
            && claim * M * (D * ONE * ONE) == D * ONE * ONE * claim * M
            && units * ONE * ONE * w * (D * ONE * ONE) == D * units * w * ONE * ONE * ONE * ONE
  {
    var c := MAX_WBASIS * ONE * ONE * ONE;
    assert share * (P * ONE * ONE) * (MAX_WBASIS * ONE) == share * P * c;
    assert share * (P * ONE * ONE * (MAX_WBASIS * ONE)) == share * P * c;
    var d := D * claim;
    assert claim * (MAX_WBASIS * ONE) * (D * ONE * ONE) == d * c;
    assert D * ONE * ONE * claim * (MAX_WBASIS * ONE) == d * c;
    var u := units * w;
    assert units * ONE * ONE * w == u * ONE * ONE;
    assert u * ONE * ONE * (D * ONE * ONE) == u * D * (ONE * ONE * ONE * ONE);
    assert D * units * w == u * D;
  }

  /** How far a payout by basis points may be from its exact share, in units of 10^-18 of 1 / (10000 P). */
  function BasisPointsError(D: nat, P: nat, units: nat, w: nat): nat {
    P * MAX_WBASIS * ONE + (2 * P + D * units) * MAX_WBASIS + (MAX_WBASIS + 1 + units * w) * D
  }

  lemma ShareErrorAtMost(D: nat, P: nat, units: nat, claim: nat, share: nat)
    requires claim <= units * ONE && units <= P && share <= D * ONE
    ensures (P * ONE * ONE + claim + share * claim) * (MAX_WBASIS * ONE) <= (2 * P + D * units) * MAX_WBASIS * ONE * ONE * ONE
  {
    MulLe(share, D * ONE, claim);
    MulLe(claim, units * ONE, D * ONE);
    assert claim * (D * ONE) == D * ONE * claim;
    assert units * ONE * (D * ONE) == D * units * ONE * ONE;
    var e := P * ONE * ONE + claim + share * claim;
    assert e <= (2 * P + D * units) * ONE * ONE;
    MulLe(e, (2 * P + D * units) * ONE * ONE, MAX_WBASIS * ONE);
  }

  lemma ClaimErrorAtMost(D: nat, units: nat, w: nat, claim: nat)
    requires 0 < w <= MAX_WBASIS && claim <= units * ONE
    ensures (MAX_WBASIS * ONE + w + claim * w) * (D * ONE * ONE) <= (MAX_WBASIS + 1 + units * w) * D * ONE * ONE * ONE
  {
    MulLe(claim, units * ONE, w);
    assert units * ONE * w == units * w * ONE;
    var e, b := MAX_WBASIS * ONE + w + claim * w, MAX_WBASIS + 1 + units * w;
    assert e <= b * ONE;
    MulLe(e, b * ONE, D * ONE * ONE);
    assert b * ONE * (D * ONE * ONE) == b * D * ONE * ONE * ONE;
  }

  lemma SideNear(D: nat, P: nat, units: nat, w: nat, claim: nat, share: nat, paid: nat)
    requires 0 < w <= MAX_WBASIS && units <= P && claim == Claimed(units, w) && 0 < claim
    requires Share(D, P, claim) == Ok(share) && paid * ONE <= share < paid * ONE + ONE
    ensures Near(paid * P * MAX_WBASIS * ONE, D * units * w * ONE, BasisPointsError(D, P, units, w))
  {
    hide Share, Claimed;
    ClaimedAtMost(units, w);
    MulLe(units, P, ONE);
    ShareWithinDepth(D, P, claim);
    ShareNear(D, P, claim);
    ClaimedNear(units, w);
    TruncatedNear(share, paid);
    PayoutChain(D, P, units, w, claim, share, paid, P * ONE * ONE + claim + share * claim, MAX_WBASIS * ONE + w + claim * w);
    ShareErrorAtMost(D, P, units, claim, share);
    ClaimErrorAtMost(D, units, w, claim);
  }

  /**
   Withdrawing w basis points of a provider's units pays each side its exact share, depth * units * w / (10000 P),
   to within one whole unit and a few 10^-18 of the depth.
   */
  lemma BasisPointsNearShare(P: nat, nativeDepth: nat, externalDepth: nat, units: nat, w: nat)
    requires 0 < w <= MAX_WBASIS && units <= P && Claimed(units, w) > 0
    ensures var out := FromBasisPoints(P, nativeDepth, externalDepth, units, w);
            && out.Ok?
            && Near(out.value.native * P * MAX_WBASIS * ONE, nativeDepth * units * w * ONE, BasisPointsError(nativeDepth, P, units, w))
            && Near(out.value.external * P * MAX_WBASIS * ONE, externalDepth * units * w * ONE, BasisPointsError(externalDepth, P, units, w))
  {
    hide Share, Claimed, BasisPointsError;
    BasisPointsPayout(P, nativeDepth, externalDepth, units, w);
    ClaimedAtMost(units, w);
    MulLe(units, P, ONE);
    var claim := Claimed(units, w);
    ShareWithinDepth(nativeDepth, P, claim);
    ShareWithinDepth(externalDepth, P, claim);
    var out := FromBasisPoints(P, nativeDepth, externalDepth, units, w).value;
    SideNear(nativeDepth, P, units, w, claim, Share(nativeDepth, P, claim).value, out.native);
    SideNear(externalDepth, P, units, w, claim, Share(externalDepth, P, claim).value, out.external);
  }
}
