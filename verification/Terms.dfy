/**
 The terms of every message, in the message's own numbers and the pools it found: what a swap pays, what an add
 earns, what a withdrawal returns, and the whole of what else changes.
 */
module Terms {
  import opened Accounts
  import opened Decimal
  import opened Ledger
  import opened LiquidityAdds
  import opened RateLimit
  import opened Swaps
  import opened Types
  import opened UnitsCheck
  import opened Unlocks
  import opened Withdrawals

  // ---------- Swaps ----------

  /** What the sender of this asset is charged: its own fee rate, or the default one. */
  function ChargedFee(env: Env, asset: Symbol): Fraction {
    if asset in env.fees then env.fees[asset] else env.defaultFee
  }

  /** A pool pays out the exact amount at this rate and fee, to within one unit; nothing if it lacks the asset sent. */
  predicate Pays(pool: Pool, toFury: bool, sent: nat, rate: nat, fee: Fraction, out: int) {
    var N, E := pool.native + pool.nativeLiabilities, pool.external + pool.externalLiabilities;
    var X, Y := if toFury then E else N, if toFury then N else E;
    if X == 0 then out == 0
    else
      var exact := ExactOut(toFury, X, sent, Y, rate, fee);
      exact - 1.0 < out as real < exact + 1.0
  }

  /** The pool then has what was sent and lacks what was paid, and still has some of each. */
  predicate Exchanged(before: Pool, after: Pool, toFury: bool, sent: nat, out: int) {
    && 0 <= out < (if toFury then before.native else before.external)
    && after == if toFury then before.(external := before.external + sent, native := before.native - out)
                else before.(native := before.native + sent, external := before.external - out)
  }

  lemma SwapOnePays(pool: Pool, toFury: bool, sent: nat, rate: nat, fee: Fraction)
    requires SwapOne(pool, toFury, sent, rate, fee).Ok?
    ensures var (out, after) := SwapOne(pool, toFury, sent, rate, fee).value;
            Pays(pool, toFury, sent, rate, fee, out) && Exchanged(pool, after, toFury, sent, out)
  {
    hide SwapResult, ExactOut;
    var X := if toFury then pool.ExternalDepth() else pool.NativeDepth();
    var Y := if toFury then pool.NativeDepth() else pool.ExternalDepth();
    if X > 0 {
      SwapResultNearExact(toFury, X, sent, Y, rate, fee, ExactOut(toFury, X, sent, Y, rate, fee));
    } else {
      assert SwapResult(toFury, X, sent, Y, rate, fee) == (0, 0);
    }
  }

  /**
   A swap of `amount`: one hop through the external asset's pool, or two hops through native, each at the running
   rate and the fee of the asset sent.
   */
  predicate SwapTerms(s: State, t: State, env: Env, who: Address, sent: Symbol, received: Symbol, amount: nat) {
    var fee, out := ChargedFee(env, sent), Gained(s, t, who, received);
    && t.lps == s.lps && t.pools.Keys == s.pools.Keys
    && (forall p | p in s.pools && p != sent && p != received :: t.pools[p] == s.pools[p])
    && (if sent == NATIVE then
          && received in s.pools && Pays(s.pools[received], false, amount, env.rate, fee, out)
          && Exchanged(s.pools[received], t.pools[received], false, amount, out)
        else if received == NATIVE then
          && sent in s.pools && Pays(s.pools[sent], true, amount, env.rate, fee, out)
          && Exchanged(s.pools[sent], t.pools[sent], true, amount, out)
        else
          && sent in s.pools && received in s.pools
          && var hop := s.pools[sent].native - t.pools[sent].native;
          && Pays(s.pools[sent], true, amount, env.rate, fee, hop)
          && Exchanged(s.pools[sent], t.pools[sent], true, amount, hop)
          && Pays(s.pools[received], false, hop, env.rate, fee, out)
          && Exchanged(s.pools[received], t.pools[received], false, hop, out))
  }

  lemma FirstHopPays(s: State, env: Env, sent: Symbol, received: Symbol, amount: nat)
    requires sent != NATIVE && received != NATIVE && sent in s.pools && FirstHop(s, env, sent, received, amount).Ok?
    ensures var (t, hop) := FirstHop(s, env, sent, received, amount).value;
            && Pays(s.pools[sent], true, amount, env.rate, ChargedFee(env, sent), hop)
            && sent in t.pools && Exchanged(s.pools[sent], t.pools[sent], true, amount, hop)
            && t == s.(pools := s.pools[sent := t.pools[sent]])
  {
    hide SwapOne, Pays, Exchanged;
    SwapOnePays(s.pools[sent], true, amount, env.rate, env.Fee(sent));
  }

  lemma LastHopTerms(s: State, env: Env, who: Address, sent: Symbol, received: Symbol, amount: nat, least: nat)
    requires sent != received && LastHop(s, env, who, sent, received, amount, least).Ok?
    ensures var (t, out) := LastHop(s, env, who, sent, received, amount, least).value;
            var through := if received == NATIVE then sent else received;
            && through in s.pools && through in t.pools && Pays(s.pools[through], received == NATIVE, amount, env.rate, ChargedFee(env, sent), out)
            && Exchanged(s.pools[through], t.pools[through], received == NATIVE, amount, out)
            && t.lps == s.lps && t.pools == s.pools[through := t.pools[through]]
            && Gained(s, t, who, received) == out
  {
    hide SwapOne, Pays, Exchanged;
    var through := if received == NATIVE then sent else received;
    SwapOnePays(s.pools[through], received == NATIVE, amount, env.rate, env.Fee(sent));
  }

  /** A swap, as the state its two hops leave behind. */
  lemma SwapHops(s: State, env: Env, who: Address, sent: Symbol, received: Symbol, amount: nat, least: nat)
    returns (s1: State, s2: State, hop: nat, s3: State)
    requires Swap(s, env, who, sent, received, amount, least).Ok?
    ensures sent != received && (sent == NATIVE || sent in s1.pools)
    ensures s1.pools == s.pools && s1.lps == s.lps && FirstHop(s1, env, sent, received, amount) == Ok((s2, hop)) && s2.users == s1.users
    ensures var r := LastHop(s2, env, who, sent, received, hop, least);
            r.Ok? && r.value.0 == s3 && Gained(s, s3, who, received) == Gained(s2, s3, who, received)
    ensures Swap(s, env, who, sent, received, amount, least).value == s3.(bucket := Swap(s, env, who, sent, received, amount, least).value.bucket)
  {
    hide FirstHop, LastHop, SwapUpdates, SwapPrice;
    s1 := Collect(s, who, sent, amount).value;
    FirstHopKeeps(s1, env, sent, received, amount);
    var first := FirstHop(s1, env, sent, received, amount).value;
    s2, hop := first.0, first.1;
    s3 := LastHop(s2, env, who, sent, received, hop, least).value.0;
    assert Balance(s2.users, CoinKey(who, received)) == Balance(s.users, CoinKey(who, received));
  }

  lemma SwapPays(s: State, env: Env, who: Address, sent: Symbol, received: Symbol, amount: nat, least: nat)
    requires Swap(s, env, who, sent, received, amount, least).Ok?
    ensures SwapTerms(s, Swap(s, env, who, sent, received, amount, least).value, env, who, sent, received, amount)
  {
    hide Swap, FirstHop, LastHop, Pays, ChargedFee, Gained;
    var s1, s2, hop, s3 := SwapHops(s, env, who, sent, received, amount, least);
    LastHopTerms(s2, env, who, sent, received, hop, least);
    SameGain(s, s3, Swap(s, env, who, sent, received, amount, least).value, who, received);
    if sent == NATIVE || received == NATIVE {
      OneHop(s1, env, sent, received, amount);
    } else {
      FirstHopPays(s1, env, sent, received, amount);
    }
  }

  lemma SameGain(s: State, t: State, u: State, who: Address, denom: Symbol)
    requires u.users == t.users
    ensures Gained(s, u, who, denom) == Gained(s, t, who, denom)
  {
  }

  lemma OneHop(s: State, env: Env, sent: Symbol, received: Symbol, amount: nat)
    requires sent == NATIVE || received == NATIVE
    requires sent == NATIVE || sent in s.pools
    ensures FirstHop(s, env, sent, received, amount) == Ok((s, amount))
  {
  }

  // ---------- Adds ----------

  /** The provider after an add: its units grow by u, and its unlock records stay. */
  predicate Grown(before: map<LpKey, Provider>, after: map<LpKey, Provider>, key: LpKey, u: nat) {
    var lp := if key in before then before[key] else Provider(0, []);
    after == before[key := Provider(lp.units + u, lp.unlocks)]
  }

  /** How many more units a provider has. */
  function Earned(s: State, t: State, key: LpKey): int {
    (if key in t.lps then t.lps[key].units else 0) - (if key in s.lps then s.lps[key].units else 0)
  }

  /**
   An add of r native and a external for u units: on the terms of Priced where both depths are positive, and
   otherwise for as many units as native, which become all the units of the pool.
   */
  ghost predicate AddTerms(s: State, t: State, env: Env, who: Address, symbol: Symbol, native: nat, external: nat) {
    && symbol in s.pools && symbol in t.pools && LpKey(symbol, who) in t.lps
    && var pool, key := s.pools[symbol], LpKey(symbol, who);
    var R, A := pool.native + pool.nativeLiabilities, pool.external + pool.externalLiabilities;
    var u := Earned(s, t, key);
    && u >= 0 && Grown(s.lps, t.lps, key, u)
    && (if R > 0 && A > 0 then
          && t.pools == s.pools[symbol := pool.(native := pool.native + native, external := pool.external + external, units := pool.units + u)]
          && exists swapped: nat ::
               Priced(pool.units, R, A, native, external, ChargedFee(env, NATIVE), ChargedFee(env, symbol), env.rate, swapped, u)
        else
          && native > 0 && external > 0 && u == native
          && t.pools == s.pools[symbol := pool.(native := pool.native + native, external := pool.external + external, units := native)])
  }

  /** What storing an add changes: the pool by the amounts and to the given units, the provider by its units. */
  lemma AddedStores(s: State, who: Address, symbol: Symbol, native: nat, external: nat, poolUnits: nat, u: nat)
    requires symbol in s.pools && Added(s, who, symbol, native, external, poolUnits, u).Ok?
    ensures var t, pool, key := Added(s, who, symbol, native, external, poolUnits, u).value, s.pools[symbol], LpKey(symbol, who);
            && Grown(s.lps, t.lps, key, u) && key in t.lps && symbol in t.pools && Earned(s, t, key) == u
            && t.pools == s.pools[symbol := pool.(native := pool.native + native, external := pool.external + external, units := poolUnits)]
  {
    hide CollectBoth;
    CollectBothKeeps(s, who, symbol, native, external);
  }

  lemma AddEarns(s: State, env: Env, who: Address, symbol: Symbol, native: nat, external: nat)
    requires AddLiquidity(s, env, who, symbol, native, external).Ok?
    ensures AddTerms(s, AddLiquidity(s, env, who, symbol, native, external).value, env, who, symbol, native, external)
  {
    hide PoolUnits, AddSwaps, Added, Priced, Grown;
    var pool := s.pools[symbol];
    var P, R, A, sellFee, buyFee := pool.units, pool.NativeDepth(), pool.ExternalDepth(), env.Fee(NATIVE), env.Fee(symbol);
    var q := PoolUnits(P, R, A, native, external, sellFee, buyFee, env.rate).value;
    AddedStores(s.(bucket := AddSwaps(s, env, symbol, pool, q).value), who, symbol, native, external, q.poolUnits, q.lpUnits);
    var t, key := AddLiquidity(s, env, who, symbol, native, external).value, LpKey(symbol, who);
    assert Earned(s, t, key) == q.lpUnits && Grown(s.lps, t.lps, key, q.lpUnits);
    assert R == pool.native + pool.nativeLiabilities && A == pool.external + pool.externalLiabilities;
    if R > 0 && A > 0 {
      PoolUnitsPriced(P, R, A, native, external, sellFee, buyFee, env.rate);
      assert Priced(P, R, A, native, external, ChargedFee(env, NATIVE), ChargedFee(env, symbol), env.rate, q.swapAmount, q.lpUnits);
      assert exists swapped: nat :: Priced(P, R, A, native, external, ChargedFee(env, NATIVE), ChargedFee(env, symbol), env.rate, swapped, q.lpUnits);
    } else {
      EmptyPoolUnits(P, R, A, native, external, sellFee, buyFee, env.rate);
    }
  }

  lemma EmptyPoolUnits(P: nat, R: nat, A: nat, r: nat, a: nat, sellFee: Fraction, buyFee: Fraction, rate: nat)
    requires R == 0 || A == 0
    ensures PoolUnits(P, R, A, r, a, sellFee, buyFee, rate) == if r > 0 && a > 0 then Ok(AddQuote(r, r, NoSwap, 0)) else Err(ErrInvalidAmount)
  {
  }

  // ---------- Withdrawals ----------

  /** w is depth D's share of `units` in P, to within a relative 10^-18 and one unit, and at most D. */
  predicate ShareOfUnits(D: nat, P: nat, units: nat, w: int) {
    0 <= w <= D && -(D * units + P * ONE) <= w * (P * ONE) - D * units * ONE <= D * units + P * ONE
  }

  /** The pool and the provider after a withdrawal that paid `native` and `external` and left the provider `left` units. */
  predicate Withdrawn(s: State, t: State, key: LpKey, native: int, external: int, left: nat)
    requires key in s.lps && key.symbol in s.pools
  {
    var pool, lp := s.pools[key.symbol], s.lps[key];
    && 0 <= native <= pool.native && 0 <= external <= pool.external && lp.units <= pool.units && left <= lp.units
    && t.pools == s.pools[key.symbol := pool.(native := pool.native - native, external := pool.external - external,
                                              units := pool.units - (lp.units - left))]
    && (if left == 0 then t.lps == s.lps - {key}
        else key in t.lps && t.lps == s.lps[key := t.lps[key]] && t.lps[key].units == left)
  }

  lemma RemovePaidWithdraws(s: State, env: Env, key: LpKey, out: Payout)
    requires key.symbol != NATIVE && key in s.lps && key.symbol in s.pools && RemovePaid(s, env, key, out).Ok?
    ensures var t := RemovePaid(s, env, key, out).value;
            && Gained(s, t, key.address, NATIVE) == out.native && Gained(s, t, key.address, key.symbol) == out.external
            && Withdrawn(s, t, key, out.native, out.external, out.unitsLeft)
  {
    hide SpendUnlocked, LivePruned, PayBoth, Gained;
    RemovalPaysItsPayout(s, env, key, out);
    var pool, lp := s.pools[key.symbol], s.lps[key];
    var s1 := PutPool(s, key.symbol, pool.(units := pool.units - lp.units + out.unitsLeft,
                                           native := pool.native - out.native, external := pool.external - out.external));
    PayBothKeeps(s1, env.blocked, key.address, key.symbol, out.native, out.external);
  }

  /** A withdrawal by units: each side pays its share of them in the pool's units, and the provider has that many fewer. */
  predicate UnitsTerms(s: State, t: State, who: Address, symbol: Symbol, units: nat) {
    var key := LpKey(symbol, who);
    && key in s.lps && symbol in s.pools && 0 < units <= s.lps[key].units <= s.pools[symbol].units
    && var pool, native, external := s.pools[symbol], Gained(s, t, who, NATIVE), Gained(s, t, who, symbol);
    && ShareOfUnits(pool.native + pool.nativeLiabilities, pool.units, units, native)
    && ShareOfUnits(pool.external + pool.externalLiabilities, pool.units, units, external)
    && Withdrawn(s, t, key, native, external, s.lps[key].units - units)
  }

  lemma RemovalByUnitsPays(s: State, env: Env, who: Address, symbol: Symbol, units: nat)
    requires NATIVE !in s.pools && RemoveLiquidityUnits(s, env, who, symbol, units).Ok?
    ensures UnitsTerms(s, RemoveLiquidityUnits(s, env, who, symbol, units).value, who, symbol, units)
  {
    hide RemovePaid, Share, Gained, Round;
    var key := LpKey(symbol, who);
    var pool, lp := s.pools[symbol], s.lps[key];
    var out := FromUnits(pool.units, pool.NativeDepth(), pool.ExternalDepth(), lp.units, units).value;
    RemovePaidWithdraws(s, env, key, out);
    PayoutNearShare(pool.NativeDepth(), pool.units, units);
    PayoutNearShare(pool.ExternalDepth(), pool.units, units);
  }

  /** w is depth D's share of `basis` ten-thousandths of `units` in P, within the bound of BasisPointsNearShare. */
  predicate ShareOfBasisPoints(D: nat, P: nat, units: nat, basis: nat, w: int) {
    Near(w * P * MAX_WBASIS * ONE, D * units * basis * ONE, BasisPointsError(D, P, units, basis))
  }

  /** The units left are the rest of the provider's, within the error of the claim and one for the truncation. */
  predicate UnitsLeft(units: nat, basis: nat, left: nat) {
    Near(left * (MAX_WBASIS * ONE), units * (MAX_WBASIS - basis) * ONE, MAX_WBASIS * (ONE + 2) + units * basis)
  }

  predicate BasisPointsTerms(s: State, t: State, who: Address, symbol: Symbol, wBasis: int) {
    var key := LpKey(symbol, who);
    && key in s.lps && symbol in s.pools && 0 < wBasis <= MAX_WBASIS && 0 < s.lps[key].units <= s.pools[symbol].units
    && var pool, lp, native, external := s.pools[symbol], s.lps[key], Gained(s, t, who, NATIVE), Gained(s, t, who, symbol);
    && ShareOfBasisPoints(pool.native + pool.nativeLiabilities, pool.units, lp.units, wBasis, native)
    && ShareOfBasisPoints(pool.external + pool.externalLiabilities, pool.units, lp.units, wBasis, external)
    && var left := if key in t.lps then t.lps[key].units else 0;
    && UnitsLeft(lp.units, wBasis, left) && Withdrawn(s, t, key, native, external, left)
  }

  lemma UnitsLeftNear(units: nat, basis: nat, claim: nat, left: nat)
    requires 0 < basis <= MAX_WBASIS && claim == Claimed(units, basis) && claim <= units * ONE
    requires left * ONE <= units * ONE - claim < left * ONE + ONE
    ensures UnitsLeft(units, basis, left)
  {
    hide Claimed;
    ClaimedNear(units, basis);
    MulLe(claim, units * ONE, basis);
    assert units * ONE * basis == units * basis * ONE;
    LeftLinear(units, basis, units * basis, claim, left);
  }

  lemma LeftLinear(units: nat, basis: nat, ub: nat, claim: nat, left: nat)
    requires ub == units * basis && basis <= MAX_WBASIS
    requires Near(claim * (MAX_WBASIS * ONE), units * ONE * ONE * basis, MAX_WBASIS * ONE + basis + claim * basis)
    requires claim * basis <= ub * ONE
    requires left * ONE <= units * ONE - claim < left * ONE + ONE
    ensures UnitsLeft(units, basis, left)
  {
    assert units * ONE * ONE * basis == ub * ONE * ONE;
    assert units * (MAX_WBASIS - basis) * ONE == units * MAX_WBASIS * ONE - ub * ONE;
  }

  /** A withdrawal by basis points: the same of the basis points' part of the provider's units. */
  lemma RemovalByBasisPointsPays(s: State, env: Env, who: Address, symbol: Symbol, wBasis: int, asymmetry: int)
    requires NATIVE !in s.pools && RemoveLiquidity(s, env, who, symbol, wBasis, asymmetry).Ok?
    ensures BasisPointsTerms(s, RemoveLiquidity(s, env, who, symbol, wBasis, asymmetry).value, who, symbol, wBasis)
  {
    hide RemovePaid, Gained, Claimed, Share, BasisPointsError;
    var key := LpKey(symbol, who);
    var pool, lp := s.pools[symbol], s.lps[key];
    var N, E, claim := pool.NativeDepth(), pool.ExternalDepth(), Claimed(lp.units, wBasis);
    var out := FromBasisPoints(pool.units, N, E, lp.units, wBasis).value;
    ClaimedSomething(pool.units, N, E, lp.units, wBasis);
    RemovePaidWithdraws(s, env, key, out);
    BasisPointsPayout(pool.units, N, E, lp.units, wBasis);
    ClaimedAtMost(lp.units, wBasis);
    BasisPointsNearShare(pool.units, N, E, lp.units, wBasis);
    UnitsLeftNear(lp.units, wBasis, claim, out.unitsLeft);
  }

  lemma ClaimedSomething(P: nat, N: nat, E: nat, units: nat, w: nat)
    requires 0 < w <= MAX_WBASIS && FromBasisPoints(P, N, E, units, w).Ok?
    ensures Claimed(units, w) > 0 && units > 0
  {
    hide Claimed;
    ClaimedAtMost(units, w);
  }
}
