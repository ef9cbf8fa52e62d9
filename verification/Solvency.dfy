/**
 The balance invariant: the module account holds what the pools record, for the native asset over all pools
 together and for each external asset in its own pool.
 */
module Solvency {
  import opened Ledger
  import opened Sums
  import opened Swaps
  import opened Types
  import opened Unlocks
  import Withdrawals
  import LiquidityAdds

  ghost function Holdings(pools: map<Symbol, Pool>): map<Symbol, int> {
    map k | k in pools :: pools[k].native + pools[k].nativeCustody
  }

  /** What the pools record of a denomination: balances plus custody. */
  ghost function Recorded(pools: map<Symbol, Pool>, denom: Symbol): int {
    if denom == NATIVE then Sum(Holdings(pools))
    else if denom in pools then pools[denom].external + pools[denom].externalCustody
    else 0
  }

  /** What the module account holds beyond its records. */
  ghost function Surplus(s: State, denom: Symbol): int {
    Balance(s.reserve, denom) - Recorded(s.pools, denom)
  }

  /** The part of one pool's records kept in a denomination. */
  function Kept(pool: Pool, symbol: Symbol, denom: Symbol): int {
    if denom == NATIVE then pool.native + pool.nativeCustody
    else if denom == symbol then pool.external + pool.externalCustody
    else 0
  }

  ghost predicate WellFormed(s: State) {
    NATIVE !in s.pools
  }

  lemma PutPoolRecorded(pools: map<Symbol, Pool>, symbol: Symbol, pool: Pool, denom: Symbol)
    requires symbol != NATIVE
    ensures Recorded(pools[symbol := pool], denom)
            == Recorded(pools, denom) + Kept(pool, symbol, denom)
               - (if symbol in pools then Kept(pools[symbol], symbol, denom) else 0)
  {
    if denom == NATIVE {
      assert Holdings(pools[symbol := pool]) == Holdings(pools)[symbol := pool.native + pool.nativeCustody];
      SumUpdate(Holdings(pools), symbol, pool.native + pool.nativeCustody);
    }
  }

  lemma DropPoolRecorded(pools: map<Symbol, Pool>, symbol: Symbol, denom: Symbol)
    requires symbol != NATIVE && symbol in pools
    ensures Recorded(pools - {symbol}, denom) == Recorded(pools, denom) - Kept(pools[symbol], symbol, denom)
  {
    if denom == NATIVE {
      assert Holdings(pools - {symbol}) == Holdings(pools) - {symbol};
      SumRemove(Holdings(pools), symbol);
    }
  }

  // ---------- Executors ----------

  lemma CollectSurplus(s: State, who: Address, coin: Symbol, amount: nat, denom: Symbol)
    requires Collect(s, who, coin, amount).Ok?
    ensures var t := Collect(s, who, coin, amount).value;
            t.pools == s.pools && t.lps == s.lps && t.bucket == s.bucket
            && Surplus(t, denom) == Surplus(s, denom) + (if denom == coin then amount else 0)
  {
  }

  lemma PaySurplus(s: State, blocked: set<Address>, who: Address, coin: Symbol, amount: nat, denom: Symbol)
    requires Pay(s, blocked, who, coin, amount).Ok?
    ensures var t := Pay(s, blocked, who, coin, amount).value;
            t.pools == s.pools && t.lps == s.lps && t.bucket == s.bucket
            && Surplus(t, denom) == Surplus(s, denom) - (if denom == coin then amount else 0)
  {
  }

  lemma CollectBothSurplus(s: State, who: Address, symbol: Symbol, native: nat, external: nat, denom: Symbol)
    requires symbol != NATIVE && CollectBoth(s, who, symbol, native, external).Ok?
    ensures var t := CollectBoth(s, who, symbol, native, external).value;
            t.pools == s.pools && t.lps == s.lps && t.bucket == s.bucket
            && Surplus(t, denom) == Surplus(s, denom)
               + (if denom == NATIVE then native else if denom == symbol then external else 0)
  {
    hide Collect, Surplus;
    CollectSurplus(s, who, symbol, external, denom);
    CollectSurplus(Collect(s, who, symbol, external).value, who, NATIVE, native, denom);
  }

  lemma PayBothSurplus(s: State, blocked: set<Address>, who: Address, symbol: Symbol, native: nat, external: nat, denom: Symbol)
    requires symbol != NATIVE && PayBoth(s, blocked, who, symbol, native, external).Ok?
    ensures var t := PayBoth(s, blocked, who, symbol, native, external).value;
            t.pools == s.pools && t.lps == s.lps && t.bucket == s.bucket
            && Surplus(t, denom) == Surplus(s, denom)
               - (if denom == NATIVE then native else if denom == symbol then external else 0)
  {
    hide Pay, Surplus;
    if native != 0 || external != 0 {
      PaySurplus(s, blocked, who, symbol, external, denom);
      PaySurplus(Pay(s, blocked, who, symbol, external).value, blocked, who, NATIVE, native, denom);
    }
  }

  lemma OpenedSurplus(s: State, who: Address, symbol: Symbol, native: nat, external: nat, poolUnits: nat, lpUnits: nat, denom: Symbol)
    requires symbol != NATIVE && symbol !in s.pools
    requires Opened(s, who, symbol, native, external, poolUnits, lpUnits).Ok?
    ensures Surplus(Opened(s, who, symbol, native, external, poolUnits, lpUnits).value, denom) == Surplus(s, denom)
  {
    hide CollectBoth, Recorded;
    CollectBothSurplus(s, who, symbol, native, external, denom);
    PutPoolRecorded(s.pools, symbol, Pool(native, external, poolUnits, 0, 0, 0, 0), denom);
  }

  lemma AddedSurplus(s: State, who: Address, symbol: Symbol, native: nat, external: nat, poolUnits: nat, lpUnits: nat, denom: Symbol)
    requires symbol != NATIVE && symbol in s.pools
    requires Added(s, who, symbol, native, external, poolUnits, lpUnits).Ok?
    ensures Surplus(Added(s, who, symbol, native, external, poolUnits, lpUnits).value, denom) == Surplus(s, denom)
  {
    hide CollectBoth, Recorded;
    CollectBothSurplus(s, who, symbol, native, external, denom);
    var pool := s.pools[symbol];
    PutPoolRecorded(s.pools, symbol,
                    pool.(units := poolUnits, native := pool.native + native, external := pool.external + external), denom);
  }

  lemma RemovedSurplus(s: State, blocked: set<Address>, key: LpKey, out: Withdrawals.Payout, unlocks: seq<Unlock>, denom: Symbol)
    requires key.symbol != NATIVE && key in s.lps && key.symbol in s.pools
    requires Removed(s, blocked, key, out, unlocks).Ok?
    ensures Surplus(Removed(s, blocked, key, out, unlocks).value, denom) == Surplus(s, denom)
  {
    hide PayBoth, Recorded;
    var pool, lp := s.pools[key.symbol], s.lps[key];
    var pool' := pool.(units := pool.units - lp.units + out.unitsLeft,
                       native := pool.native - out.native, external := pool.external - out.external);
    PutPoolRecorded(s.pools, key.symbol, pool', denom);
    PayBothSurplus(PutPool(s, key.symbol, pool'), blocked, key.address, key.symbol, out.native, out.external, denom);
  }

  // ---------- Messages ----------

  lemma CreatePoolSurplus(s: State, env: Env, who: Address, symbol: Symbol, native: nat, external: nat, denom: Symbol)
    requires WellFormed(s) && CreatePool(s, env, who, symbol, native, external).Ok?
    ensures var t := CreatePool(s, env, who, symbol, native, external).value;
            WellFormed(t) && Surplus(t, denom) == Surplus(s, denom)
  {
    hide LiquidityAdds.PoolUnits, Surplus;
    var q := LiquidityAdds.PoolUnits(0, 0, 0, native, external, env.Fee(NATIVE), env.Fee(symbol), env.rate).value;
    OpenedSurplus(s, who, symbol, native, external, q.poolUnits, q.lpUnits, denom);
  }

  lemma AddLiquiditySurplus(s: State, env: Env, who: Address, symbol: Symbol, native: nat, external: nat, denom: Symbol)
    requires WellFormed(s) && AddLiquidity(s, env, who, symbol, native, external).Ok?
    ensures var t := AddLiquidity(s, env, who, symbol, native, external).value;
            WellFormed(t) && Surplus(t, denom) == Surplus(s, denom)
  {
    hide LiquidityAdds.PoolUnits, AddSwaps, Recorded;
    var pool := s.pools[symbol];
    var q := LiquidityAdds.PoolUnits(pool.units, pool.NativeDepth(), pool.ExternalDepth(), native, external,
                                     env.Fee(NATIVE), env.Fee(symbol), env.rate).value;
    var s1 := s.(bucket := AddSwaps(s, env, symbol, pool, q).value);
    AddedSurplus(s1, who, symbol, native, external, q.poolUnits, q.lpUnits, denom);
  }

  lemma FirstHopSurplus(s: State, env: Env, sent: Symbol, received: Symbol, amount: nat, denom: Symbol)
    requires WellFormed(s) && (sent == NATIVE || sent in s.pools)
    requires FirstHop(s, env, sent, received, amount).Ok?
    ensures var (t, hop) := FirstHop(s, env, sent, received, amount).value;
            WellFormed(t) && t.bucket == s.bucket
            && (if sent == NATIVE || received == NATIVE then hop == amount && Surplus(t, denom) == Surplus(s, denom)
                else Surplus(t, denom) == Surplus(s, denom) + (if denom == NATIVE then hop else 0)
                                          - (if denom == sent then amount else 0))
  {
    hide SwapResult, Recorded;
    if sent != NATIVE && received != NATIVE {
      var (out, pool) := SwapOne(s.pools[sent], true, amount, env.rate, env.Fee(sent)).value;
      PutPoolRecorded(s.pools, sent, pool, denom);
    }
  }

  lemma LastHopSurplus(s: State, env: Env, who: Address, sent: Symbol, received: Symbol, amount: nat, least: nat, denom: Symbol)
    requires WellFormed(s) && sent != received
    requires LastHop(s, env, who, sent, received, amount, least).Ok?
    ensures var (t, out) := LastHop(s, env, who, sent, received, amount, least).value;
            WellFormed(t) && t.bucket == s.bucket
            && Surplus(t, denom) == Surplus(s, denom)
               - (if denom == (if received == NATIVE then sent else NATIVE) then amount else 0)
  {
    hide SwapResult, Recorded, Pay;
    var through := if received == NATIVE then sent else received;
    var (out, pool) := SwapOne(s.pools[through], received == NATIVE, amount, env.rate, env.Fee(sent)).value;
    PutPoolRecorded(s.pools, through, pool, denom);
    PaySurplus(PutPool(s, through, pool), env.blocked, who, received, out, denom);
  }

  /** One hop or two, a swap moves coins and records alike. */
  lemma SwapSurplus(s: State, env: Env, who: Address, sent: Symbol, received: Symbol, amount: nat, least: nat, denom: Symbol)
    requires WellFormed(s) && Swap(s, env, who, sent, received, amount, least).Ok?
    ensures var t := Swap(s, env, who, sent, received, amount, least).value;
            WellFormed(t) && Surplus(t, denom) == Surplus(s, denom)
  {
    hide Collect, FirstHop, LastHop, SwapUpdates, SwapPrice, Recorded;
    var s1 := Collect(s, who, sent, amount).value;
    CollectSurplus(s, who, sent, amount, denom);
    FirstHopSurplus(s1, env, sent, received, amount, denom);
    var (s2, hop) := FirstHop(s1, env, sent, received, amount).value;
    LastHopSurplus(s2, env, who, sent, received, hop, least, denom);
  }

  lemma RemovePaidSurplus(s: State, env: Env, key: LpKey, out: Withdrawals.Payout, denom: Symbol)
    requires WellFormed(s) && key in s.lps && key.symbol in s.pools && RemovePaid(s, env, key, out).Ok?
    ensures var t := RemovePaid(s, env, key, out).value;
            WellFormed(t) && Surplus(t, denom) == Surplus(s, denom)
  {
    hide SpendUnlocked, LivePruned, Surplus;
    var lp := s.lps[key];
    RemovedSurplus(s, env.blocked, key, out, SpendUnlocked(LivePruned(lp, env), lp.units - out.unitsLeft, env, false).value, denom);
  }

  /** What a provider is refunded leaves both the module account and the pool's remainder. */
  lemma RefundSurplus(s: State, blocked: set<Address>, symbol: Symbol, pool: Pool, who: Address, left: Remaining, denom: Symbol)
    requires symbol != NATIVE && Refund(s, blocked, symbol, pool, who, left).Ok?
    ensures var (t, rest) := Refund(s, blocked, symbol, pool, who, left).value;
            t.pools == s.pools && t.bucket == s.bucket
            && Surplus(t, denom) - Surplus(s, denom)
               == if denom == NATIVE then rest.native - left.native
                  else if denom == symbol then rest.external - left.external else 0
  {
    hide Withdrawals.FromBasisPoints, Pay, Recorded;
    var out := Withdrawals.FromBasisPoints(pool.units, pool.NativeDepth(), pool.ExternalDepth(), s.lps[LpKey(symbol, who)].units, MAX_WBASIS).value;
    PaySurplus(s, blocked, who, symbol, out.external, denom);
    PaySurplus(Pay(s, blocked, who, symbol, out.external).value, blocked, who, NATIVE, out.native, denom);
  }

  lemma {:induction false} RefundAllSurplus(s: State, blocked: set<Address>, symbol: Symbol, pool: Pool, order: seq<Address>, left: Remaining, denom: Symbol)
    requires symbol != NATIVE && RefundAll(s, blocked, symbol, pool, order, left).Ok?
    ensures var (t, rest) := RefundAll(s, blocked, symbol, pool, order, left).value;
            t.pools == s.pools && t.bucket == s.bucket
            && Surplus(t, denom) - Surplus(s, denom)
               == if denom == NATIVE then rest.native - left.native
                  else if denom == symbol then rest.external - left.external else 0
    decreases |order|
  {
    hide Refund, Surplus;
    if order != [] {
      RefundSurplus(s, blocked, symbol, pool, order[0], left, denom);
      var (s1, left1) := Refund(s, blocked, symbol, pool, order[0], left).value;
      RefundAllSurplus(s1, blocked, symbol, pool, order[1..], left1, denom);
    }
  }

  /** What is left of a pool once its providers are paid off. */
  function Leftover(s: State, env: Env, symbol: Symbol, order: seq<Address>): Remaining {
    if symbol !in s.pools then Remaining(0, 0, 0)
    else
      var pool := s.pools[symbol];
      match RefundAll(s, env.blocked, symbol, pool, order, Remaining(pool.units, pool.native, pool.external))
      case Ok((_, rest)) => rest
      case Err(_) => Remaining(0, 0, 0)
  }

  /** Closing a pool releases exactly what its providers were not paid, and its custody. */
  lemma DecommissionSurplus(s: State, env: Env, who: Address, symbol: Symbol, order: seq<Address>, denom: Symbol)
    requires WellFormed(s) && Decommission(s, env, who, symbol, order).Ok?
    ensures var t := Decommission(s, env, who, symbol, order).value;
            var rest := Leftover(s, env, symbol, order);
            && WellFormed(t) && symbol in s.pools
            && Surplus(t, denom) - Surplus(s, denom)
               == if denom == NATIVE then rest.native + s.pools[symbol].nativeCustody
                  else if denom == symbol then rest.external + s.pools[symbol].externalCustody else 0
  {
    hide RefundAll, Recorded;
    var pool := s.pools[symbol];
    RefundAllSurplus(s, env.blocked, symbol, pool, order, Remaining(pool.units, pool.native, pool.external), denom);
    var (s1, rest) := RefundAll(s, env.blocked, symbol, pool, order, Remaining(pool.units, pool.native, pool.external)).value;
    DropPoolRecorded(s.pools, symbol, denom);
  }
}
