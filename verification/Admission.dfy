/**
 When a message goes through: for each, a condition its sender can check beforehand that holds exactly when the
 message succeeds. Solvency enters only so that the module account never refuses what a pool owes.
 */
module Admission {
  import opened Decimal
  import opened Guarantees
  import opened Ledger
  import opened LiquidityAdds
  import opened Protection
  import opened RateLimit
  import opened Runs
  import opened Solvency
  import opened Swaps
  import opened Terms
  import opened Types
  import opened UnitsCheck
  import opened Unlocks
  import opened UnlockSafety
  import opened Withdrawals
  import Closing
  import Sums

  predicate Owns(s: State, who: Address, denom: Symbol, amount: nat) {
    amount <= Balance(s.users, CoinKey(who, denom))
  }

  lemma CollectsExactly(s: State, who: Address, symbol: Symbol, native: nat, external: nat)
    requires symbol != NATIVE
    ensures CollectBoth(s, who, symbol, native, external).Ok? <==> Owns(s, who, NATIVE, native) && Owns(s, who, symbol, external)
  {
    assert CoinKey(who, symbol) != CoinKey(who, NATIVE);
  }

  /** A solvent module account holds what any one pool records. */
  lemma PoolCovered(s: State, coin: Symbol)
    requires Solvent(s) && coin in s.pools
    ensures coin != NATIVE && s.pools[coin].native <= Balance(s.reserve, NATIVE) && s.pools[coin].external <= Balance(s.reserve, coin)
  {
    hide Sums.Sum;
    assert Surplus(s, coin) >= 0 && Surplus(s, NATIVE) >= 0;
    Closing.HoldingsAtLeast(s.pools, coin);
  }

  // ---------- Creating a pool ----------

  lemma FirstUnitsOf(native: nat, external: nat, sellFee: Fraction, buyFee: Fraction, rate: nat)
    requires native > 0 && external > 0
    ensures PoolUnits(0, 0, 0, native, external, sellFee, buyFee, rate) == Ok(AddQuote(native, native, NoSwap, 0))
  {
    hide ExternalSwapAmount, NativeSwapAmount, SymmetricUnits;
  }

  /** A pool is opened with the two amounts, as many units as native, and its creator as only provider. */
  predicate OpenTerms(s: State, t: State, who: Address, symbol: Symbol, native: nat, external: nat) {
    && t.pools == s.pools[symbol := Pool(native, external, native, 0, 0, 0, 0)]
    && t.lps == s.lps[LpKey(symbol, who) := Provider(native, [])]
    && t.bucket == s.bucket
  }

  /** A pool is created exactly with enough native, some external, by a signer who has both, where there was none. */
  lemma CreatesExactly(s: State, env: Env, who: Address, symbol: Symbol, native: nat, external: nat)
    ensures var r := CreatePool(s, env, who, symbol, native, external);
            && (r.Ok? <==>
                  && symbol != NATIVE && native >= POOL_THRESHOLD && external > 0 && symbol in env.tradable && symbol !in s.pools
                  && Owns(s, who, NATIVE, native) && Owns(s, who, symbol, external))
            && (r.Ok? ==> OpenTerms(s, r.value, who, symbol, native, external))
  {
    hide PoolUnits, CollectBoth, Owns;
    if symbol != NATIVE && native >= POOL_THRESHOLD && external > 0 {
      FirstUnitsOf(native, external, env.Fee(NATIVE), env.Fee(symbol), env.rate);
      CollectsExactly(s, who, symbol, native, external);
      if CollectBoth(s, who, symbol, native, external).Ok? {
        CollectBothKeeps(s, who, symbol, native, external);
        CollectKeepsBucket(s, who, symbol, native, external);
      }
    }
  }

  lemma CollectKeepsBucket(s: State, who: Address, symbol: Symbol, native: nat, external: nat)
    requires CollectBoth(s, who, symbol, native, external).Ok?
    ensures CollectBoth(s, who, symbol, native, external).value.bucket == s.bucket
  {
  }

  // ---------- Adding ----------

  /** What an add must pass for the part of it that is swapped first. */
  predicate MaySwapPart(s: State, env: Env, symbol: Symbol, pool: Pool, native: nat, external: nat) {
    var R, A := pool.native + pool.nativeLiabilities, pool.external + pool.externalLiabilities;
    if R == 0 || A == 0 then native > 0 && external > 0
    else if R * external > native * A then
      symbol !in env.noSell && NATIVE !in env.noBuy && (s.bucket.active ==> NativePrice(s, env.rate).Ok?)
    else if R * external < native * A then
      && NATIVE !in env.noSell && symbol !in env.noBuy && (s.bucket.active ==> NativePrice(s, env.rate).Ok?)
      && var q := Quote(s, env, symbol, native, external); q.Ok? && !OverLimit(s, env, q.value.swapAmount)
    else true
  }

  lemma AddSwapsExactly(s: State, env: Env, symbol: Symbol, pool: Pool, q: AddQuote)
    requires s.bucket.current <= s.bucket.max
    ensures AddSwaps(s, env, symbol, pool, q).Ok? <==>
              match q.status
              case NoSwap => true
              case BuyNative => symbol !in env.noSell && NATIVE !in env.noBuy && (s.bucket.active ==> NativePrice(s, env.rate).Ok?)
              case SellNative =>
                && NATIVE !in env.noSell && symbol !in env.noBuy && (s.bucket.active ==> NativePrice(s, env.rate).Ok?)
                && !OverLimit(s, env, q.swapAmount)
  {
    hide SwapResult, Discounted, FuryValue, Updated, NativePrice;
    var price := NativePrice(s, env.rate);
    if s.bucket.active && price.Ok? {
      if q.status == SellNative && !Blocked(s.bucket, q.swapAmount, price.value) {
        CheckedSaleUpdates(s.bucket, q.swapAmount, env.Fee(NATIVE), price.value);
      }
      if q.status == BuyNative {
        UpdatedExactly(s.bucket, false,
                       SwapResult(true, pool.ExternalDepth(), q.swapAmount, pool.NativeDepth(), env.rate, env.Fee(symbol)).0, price.value);
      }
    }
  }

  /** An add goes through exactly when its signer has both amounts and the pool can price them, the swapped part allowed. */
  lemma AddsExactly(s: State, env: Env, who: Address, symbol: Symbol, native: nat, external: nat)
    requires s.bucket.current <= s.bucket.max
    ensures AddLiquidity(s, env, who, symbol, native, external).Ok? <==>
              && symbol != NATIVE && (native > 0 || external > 0) && symbol in env.tradable && symbol in s.pools
              && Owns(s, who, NATIVE, native) && Owns(s, who, symbol, external)
              && MaySwapPart(s, env, symbol, s.pools[symbol], native, external)
  {
    hide PoolUnits, AddSwaps, CollectBoth, Owns, NativePrice, OverLimit, Priced;
    if symbol != NATIVE && symbol in s.pools {
      var pool := s.pools[symbol];
      var P, R, A, sellFee, buyFee := pool.units, pool.NativeDepth(), pool.ExternalDepth(), env.Fee(NATIVE), env.Fee(symbol);
      if R > 0 && A > 0 {
        PoolUnitsPriced(P, R, A, native, external, sellFee, buyFee, env.rate);
      } else {
        EmptyPoolUnits(P, R, A, native, external, sellFee, buyFee, env.rate);
      }
      var q := PoolUnits(P, R, A, native, external, sellFee, buyFee, env.rate);
      if q.Ok? {
        AddSwapsExactly(s, env, symbol, pool, q.value);
        var b := AddSwaps(s, env, symbol, pool, q.value);
        if b.Ok? {
          CollectsExactly(s.(bucket := b.value), who, symbol, native, external);
          assert Owns(s.(bucket := b.value), who, NATIVE, native) == Owns(s, who, NATIVE, native) by { SameOwned(s, b.value, who, NATIVE, native); }
          assert Owns(s.(bucket := b.value), who, symbol, external) == Owns(s, who, symbol, external) by { SameOwned(s, b.value, who, symbol, external); }
        }
      }
    }
  }

  lemma SameOwned(s: State, b: Bucket, who: Address, denom: Symbol, amount: nat)
    ensures Owns(s.(bucket := b), who, denom, amount) == Owns(s, who, denom, amount)
  {
  }

  // ---------- Swapping ----------

  /** What a hop through a pool pays, near the exact amount by Swaps.SwapResultNearExact. */
  function HopOut(pool: Pool, toFury: bool, sent: nat, rate: nat, fee: Fraction): nat {
    var N, E := pool.native + pool.nativeLiabilities, pool.external + pool.externalLiabilities;
    if toFury then SwapResult(true, E, sent, N, rate, fee).0 else SwapResult(false, N, sent, E, rate, fee).0
  }

  /** A pool has more than a hop through it would pay. */
  predicate HopFits(pool: Pool, toFury: bool, sent: nat, rate: nat, fee: Fraction) {
    HopOut(pool, toFury, sent, rate, fee) < if toFury then pool.native else pool.external
  }

  lemma SwapOneExactly(pool: Pool, toFury: bool, sent: nat, rate: nat, fee: Fraction)
    ensures var r := SwapOne(pool, toFury, sent, rate, fee);
            (r.Ok? <==> HopFits(pool, toFury, sent, rate, fee)) && (r.Ok? ==> r.value.0 == HopOut(pool, toFury, sent, rate, fee))
  {
    hide SwapResult;
  }

  /** The hops of a swap fit in their pools and pay at least the minimum. */
  predicate Routed(s: State, env: Env, sent: Symbol, received: Symbol, amount: nat, least: nat) {
    var fee := ChargedFee(env, sent);
    if sent == NATIVE then
      received in s.pools && HopFits(s.pools[received], false, amount, env.rate, fee)
      && least <= HopOut(s.pools[received], false, amount, env.rate, fee)
    else if received == NATIVE then
      sent in s.pools && HopFits(s.pools[sent], true, amount, env.rate, fee)
      && least <= HopOut(s.pools[sent], true, amount, env.rate, fee)
    else
      && sent in s.pools && received in s.pools && HopFits(s.pools[sent], true, amount, env.rate, fee)
      && var hop := HopOut(s.pools[sent], true, amount, env.rate, fee);
      && HopFits(s.pools[received], false, hop, env.rate, fee) && least <= HopOut(s.pools[received], false, hop, env.rate, fee)
  }

  /** The last hop of a swap that a module account covering its pools can pay. */
  lemma LastHopExactly(s: State, env: Env, who: Address, sent: Symbol, received: Symbol, amount: nat, least: nat)
    requires sent != received
    requires received in s.pools ==> s.pools[received].external <= Balance(s.reserve, received)
    requires received == NATIVE && sent in s.pools ==> s.pools[sent].native <= Balance(s.reserve, NATIVE)
    ensures var through := if received == NATIVE then sent else received;
            LastHop(s, env, who, sent, received, amount, least).Ok? <==>
              && through in s.pools && HopFits(s.pools[through], received == NATIVE, amount, env.rate, ChargedFee(env, sent))
              && least <= HopOut(s.pools[through], received == NATIVE, amount, env.rate, ChargedFee(env, sent)) && who !in env.blocked
  {
    hide SwapOne, HopOut;
    var through := if received == NATIVE then sent else received;
    assert env.Fee(sent) == ChargedFee(env, sent);
    if through in s.pools {
      SwapOneExactly(s.pools[through], received == NATIVE, amount, env.rate, env.Fee(sent));
    }
  }

  lemma HopsExactly(s: State, env: Env, who: Address, sent: Symbol, received: Symbol, amount: nat, least: nat)
    requires Solvent(s) && sent != received && (sent == NATIVE || sent in s.pools) && Collect(s, who, sent, amount).Ok?
    ensures var s1 := Collect(s, who, sent, amount).value;
            var first := FirstHop(s1, env, sent, received, amount);
            (first.Ok? && LastHop(first.value.0, env, who, sent, received, first.value.1, least).Ok?)
            <==> who !in env.blocked && Routed(s, env, sent, received, amount, least)
  {
    hide LastHop, SwapOne, HopOut, Solvent;
    var s1 := Collect(s, who, sent, amount).value;
    if received in s.pools { PoolCovered(s, received); }
    if sent in s.pools { PoolCovered(s, sent); }
    if sent == NATIVE || received == NATIVE {
      LastHopExactly(s1, env, who, sent, received, amount, least);
    } else {
      SwapOneExactly(s.pools[sent], true, amount, env.rate, env.Fee(sent));
      assert env.Fee(sent) == ChargedFee(env, sent);
      var first := FirstHop(s1, env, sent, received, amount);
      if first.Ok? { LastHopExactly(first.value.0, env, who, sent, received, first.value.1, least); }
    }
  }

  /**
   A swap goes through exactly when both sides may be traded, the swapper has what it sends and is not refused by the
   bank, a native sale is within the limit, and its hops fit in their pools and pay at least the minimum.
   */
  lemma SwapsExactly(s: State, env: Env, who: Address, sent: Symbol, received: Symbol, amount: nat, least: nat)
    requires Solvent(s) && s.bucket.current <= s.bucket.max
    ensures Swap(s, env, who, sent, received, amount, least).Ok? <==>
              && sent != received && amount > 0 && MayTrade(env, sent, received) && Owns(s, who, sent, amount) && who !in env.blocked
              && (s.bucket.active ==> NativePrice(s, env.rate).Ok?) && !(sent == NATIVE && OverLimit(s, env, amount))
              && Routed(s, env, sent, received, amount, least)
  {
    hide FirstHop, LastHop, SwapUpdates, NativePrice, Solvent, Routed, FuryValue;
    if sent != received && Owns(s, who, sent, amount) && (sent == NATIVE || sent in s.pools) {
      HopsExactly(s, env, who, sent, received, amount, least);
      var s1 := Collect(s, who, sent, amount).value;
      var first := FirstHop(s1, env, sent, received, amount);
      if first.Ok? && LastHop(first.value.0, env, who, sent, received, first.value.1, least).Ok? {
        FirstHopKeeps(s1, env, sent, received, amount);
        LastHopPays(first.value.0, env, who, sent, received, first.value.1, least);
        var price := SwapPrice(s, env);
        if price.Ok? && !(s.bucket.active && sent == NATIVE && Blocked(s.bucket, amount, price.value)) {
          SwapUpdatesSucceed(s.bucket, env, sent, received, amount,
                             LastHop(first.value.0, env, who, sent, received, first.value.1, least).value.1, price.value);
        }
      }
    } else {
      Unrouted(s, env, sent, received, amount, least);
    }
  }

  lemma Unrouted(s: State, env: Env, sent: Symbol, received: Symbol, amount: nat, least: nat)
    ensures Routed(s, env, sent, received, amount, least) ==> sent == NATIVE || sent in s.pools
  {
    hide HopOut;
  }

  lemma SwapUpdatesSucceed(b: Bucket, env: Env, sent: Symbol, received: Symbol, amount: nat, out: nat, price: nat)
    requires b.current <= b.max && (b.active && sent == NATIVE ==> !Blocked(b, amount, price))
    ensures SwapUpdates(b, env, sent, received, amount, out, price).Ok?
  {
    hide Discounted, FuryValue, Updated;
    if b.active && sent == NATIVE {
      CheckedSaleUpdates(b, amount, env.Fee(sent), price);
    } else if b.active && received == NATIVE {
      UpdatedExactly(b, false, out, price);
    }
  }

  // ---------- Withdrawing ----------

  /** Enough was requested at least a lock period ago and not so long ago that it was cancelled. */
  predicate Unlocked(lp: Provider, env: Env, need: nat) {
    env.lockPeriod == 0
    || need <= OutstandingWithin(lp.unlocks, env.height - env.lockPeriod - env.cancelPeriod, env.height - env.lockPeriod)
  }

  /** The pool has both amounts and keeps something on each side, and the bank does not refuse the provider. */
  predicate Payable(pool: Pool, blocked: set<Address>, who: Address, native: nat, external: nat) {
    && native <= pool.native && external <= pool.external
    && native < pool.native + pool.nativeLiabilities && external < pool.external + pool.externalLiabilities
    && (who !in blocked || native == 0 == external)
  }

  lemma RemovePaidExactly(s: State, env: Env, key: LpKey, out: Payout)
    requires Solvent(s) && key in s.lps && key.symbol in s.pools
    ensures var pool, lp := s.pools[key.symbol], s.lps[key];
            RemovePaid(s, env, key, out).Ok? <==>
              && out.unitsLeft <= lp.units <= pool.units && Unlocked(lp, env, lp.units - out.unitsLeft)
              && Payable(pool, env.blocked, key.address, out.native, out.external)
  {
    hide SpendUnlocked, LivePruned, PayBoth, Solvent, Unlocked;
    var pool, lp := s.pools[key.symbol], s.lps[key];
    PoolCovered(s, key.symbol);
    if out.unitsLeft <= lp.units {
      assert SpendUnlocked(LivePruned(lp, env), lp.units - out.unitsLeft, env, false).Ok? <==> Unlocked(lp, env, lp.units - out.unitsLeft) by {
        UnlockedExactly(lp, env, lp.units - out.unitsLeft);
      }
      if lp.units <= pool.units && out.native <= pool.native && out.external <= pool.external {
        var s1 := PutPool(s, key.symbol, pool.(units := pool.units - lp.units + out.unitsLeft,
                                               native := pool.native - out.native, external := pool.external - out.external));
        PaysExactly(s1, env.blocked, key.address, key.symbol, out.native, out.external);
      }
    }
  }

  lemma UnlockedExactly(lp: Provider, env: Env, need: nat)
    ensures SpendUnlocked(LivePruned(lp, env), need, env, false).Ok? <==> Unlocked(lp, env, need)
  {
    RemovalAllowedExactly(lp, env, need);
  }

  lemma PaysExactly(s: State, blocked: set<Address>, who: Address, symbol: Symbol, native: nat, external: nat)
    requires symbol != NATIVE && native <= Balance(s.reserve, NATIVE) && external <= Balance(s.reserve, symbol)
    ensures PayBoth(s, blocked, who, symbol, native, external).Ok? <==> who !in blocked || native == 0 == external
  {
  }

  /** What one side pays for units of the P, near its exact share by Withdrawals.PayoutNearShare. */
  function UnitsShare(D: nat, P: nat, units: nat): nat {
    match Share(D, P, units * ONE)
    case Ok(share) => Round(share)
    case Err(_) => 0
  }

  /**
   A withdrawal by units goes through exactly when the provider has and has unlocked them, and the pool can pay
   both shares and keep something on each side.
   */
  lemma RemovesUnitsExactly(s: State, env: Env, who: Address, symbol: Symbol, units: nat)
    requires Solvent(s)
    ensures var key := LpKey(symbol, who);
            RemoveLiquidityUnits(s, env, who, symbol, units).Ok? <==>
              && units > 0 && symbol in env.tradable && symbol in s.pools && key in s.lps
              && var pool, lp := s.pools[symbol], s.lps[key];
              && units <= lp.units <= pool.units && Unlocked(lp, env, units)
              && Payable(pool, env.blocked, who, UnitsShare(pool.native + pool.nativeLiabilities, pool.units, units),
                         UnitsShare(pool.external + pool.externalLiabilities, pool.units, units))
  {
    hide RemovePaid, Share, Solvent, Unlocked, Payable, Round;
    var key := LpKey(symbol, who);
    if units > 0 && symbol in s.pools && key in s.lps && units <= s.lps[key].units {
      var pool, lp := s.pools[symbol], s.lps[key];
      var out := FromUnits(pool.units, pool.NativeDepth(), pool.ExternalDepth(), lp.units, units);
      if units <= pool.units {
        PayoutNearShare(pool.NativeDepth(), pool.units, units);
        PayoutNearShare(pool.ExternalDepth(), pool.units, units);
      }
      if out.Ok? { RemovePaidExactly(s, env, key, out.value); }
    }
  }

  lemma ClaimedPositive(units: nat, w: nat)
    requires 0 < w <= MAX_WBASIS
    ensures Claimed(units, w) > 0 <==> units > 0
  {
    hide Quo;
    ClaimedAtMost(units, w);
    if units > 0 {
      DenominatorAtLeastOne(w);
      var d := Quo(MAX_WBASIS * ONE, w * ONE);
      QuoAtMost(MAX_WBASIS * ONE, w * ONE, MAX_WBASIS * ONE);
      QuoAtLeast(units * ONE, d, 1);
    }
  }

  /** What a side pays for basis points of a provider's units, and the units it is left, by Withdrawals.BasisPointsPayout. */
  function BasisPointsOut(pool: Pool, units: nat, basis: nat): Payout
    requires 0 < basis <= MAX_WBASIS
  {
    match FromBasisPoints(pool.units, pool.native + pool.nativeLiabilities, pool.external + pool.externalLiabilities, units, basis)
    case Ok(out) => out
    case Err(_) => Payout(0, 0, 0)
  }

  /** A withdrawal by basis points goes through exactly under the same conditions, without asymmetry. */
  lemma RemovesBasisPointsExactly(s: State, env: Env, who: Address, symbol: Symbol, wBasis: int, asymmetry: int)
    requires Solvent(s)
    ensures var key := LpKey(symbol, who);
            RemoveLiquidity(s, env, who, symbol, wBasis, asymmetry).Ok? <==>
              && 0 < wBasis <= MAX_WBASIS && asymmetry == 0 && symbol in env.tradable && symbol in s.pools && key in s.lps
              && var pool, lp := s.pools[symbol], s.lps[key];
              && 0 < lp.units <= pool.units
              && var out := BasisPointsOut(pool, lp.units, wBasis);
              && out.unitsLeft <= lp.units && Unlocked(lp, env, lp.units - out.unitsLeft)
              && Payable(pool, env.blocked, who, out.native, out.external)
  {
    hide RemovePaid, Claimed, Share, Solvent, Unlocked, Payable;
    var key := LpKey(symbol, who);
    if 0 < wBasis <= MAX_WBASIS && symbol in s.pools && key in s.lps {
      var pool, lp := s.pools[symbol], s.lps[key];
      WithinUnits(lp.units, wBasis);
      ClaimedPositive(lp.units, wBasis);
      var out := FromBasisPoints(pool.units, pool.NativeDepth(), pool.ExternalDepth(), lp.units, wBasis);
      if 0 < lp.units <= pool.units {
        BasisPointsPayout(pool.units, pool.NativeDepth(), pool.ExternalDepth(), lp.units, wBasis);
      }
      if out.Ok? {
        ClaimedSomething(pool.units, pool.NativeDepth(), pool.ExternalDepth(), lp.units, wBasis);
        RemovePaidExactly(s, env, key, out.value);
      }
    }
  }

  lemma WithinUnits(units: nat, w: nat)
    requires 0 < w <= MAX_WBASIS
    ensures units / (MAX_WBASIS / w) <= units
  {
    DivAtLeast(MAX_WBASIS, w, 1);
    MulLe(1, MAX_WBASIS / w, units);
    DivAtMost(units, MAX_WBASIS / w, units);
  }
}
