/**
 The units invariant: a pool's units are the sum of its providers' units.
 */
module UnitsCheck {
  import opened Decimal
  import opened Distribution
  import opened Ledger
  import opened LiquidityAdds
  import opened Runs
  import opened Sums
  import opened Swaps
  import opened Types
  import opened Unlocks
  import Rewards
  import Withdrawals

  ghost function Held(lps: map<LpKey, Provider>, symbol: Symbol): map<LpKey, int> {
    map k | k in lps && k.symbol == symbol :: lps[k].units
  }

  ghost function UnitsOf(lps: map<LpKey, Provider>, symbol: Symbol): int {
    Sum(Held(lps, symbol))
  }

  /** UnitsCheck, together with the fact it rests on: providers only of pools that exist. */
  ghost predicate UnitsMatch(s: State) {
    && (forall k | k in s.lps :: k.symbol in s.pools)
    && (forall p | p in s.pools :: s.pools[p].units == UnitsOf(s.lps, p))
  }

  lemma PutHeld(lps: map<LpKey, Provider>, key: LpKey, lp: Provider, symbol: Symbol)
    ensures UnitsOf(lps[key := lp], symbol)
            == UnitsOf(lps, symbol)
               + (if key.symbol != symbol then 0 else lp.units - (if key in lps then lps[key].units else 0))
  {
    if key.symbol == symbol {
      assert Held(lps[key := lp], symbol) == Held(lps, symbol)[key := lp.units];
      SumUpdate(Held(lps, symbol), key, lp.units);
    } else {
      assert Held(lps[key := lp], symbol) == Held(lps, symbol);
    }
  }

  lemma DropHeld(lps: map<LpKey, Provider>, key: LpKey, symbol: Symbol)
    requires key in lps
    ensures UnitsOf(lps - {key}, symbol) == UnitsOf(lps, symbol) - (if key.symbol == symbol then lps[key].units else 0)
  {
    if key.symbol == symbol {
      assert Held(lps - {key}, symbol) == Held(lps, symbol) - {key};
      SumRemove(Held(lps, symbol), key);
    } else {
      assert Held(lps - {key}, symbol) == Held(lps, symbol);
    }
  }

  lemma NoneHeld(lps: map<LpKey, Provider>, symbol: Symbol)
    requires forall k | k in lps :: k.symbol != symbol
    ensures UnitsOf(lps, symbol) == 0
  {
    assert Held(lps, symbol) == map[];
  }

  // ---------- Executors ----------

  lemma CollectBothKeeps(s: State, who: Address, symbol: Symbol, native: nat, external: nat)
    requires CollectBoth(s, who, symbol, native, external).Ok?
    ensures var t := CollectBoth(s, who, symbol, native, external).value; t.pools == s.pools && t.lps == s.lps
  {
  }

  lemma PayBothKeeps(s: State, blocked: set<Address>, who: Address, symbol: Symbol, native: nat, external: nat)
    requires PayBoth(s, blocked, who, symbol, native, external).Ok?
    ensures var t := PayBoth(s, blocked, who, symbol, native, external).value; t.pools == s.pools && t.lps == s.lps
  {
  }

  lemma OpenedUnits(s: State, who: Address, symbol: Symbol, native: nat, external: nat, units: nat)
    requires UnitsMatch(s) && symbol !in s.pools && Opened(s, who, symbol, native, external, units, units).Ok?
    ensures UnitsMatch(Opened(s, who, symbol, native, external, units, units).value)
  {
    hide CollectBoth, UnitsOf;
    CollectBothKeeps(s, who, symbol, native, external);
    NoneHeld(s.lps, symbol);
    var t := Opened(s, who, symbol, native, external, units, units).value;
    forall p | p in t.pools ensures t.pools[p].units == UnitsOf(t.lps, p) {
      PutHeld(s.lps, LpKey(symbol, who), Provider(units, []), p);
    }
  }

  /** An add keeps the invariant exactly when the pool's units grow by the units it earned. */
  lemma AddedUnits(s: State, who: Address, symbol: Symbol, native: nat, external: nat, poolUnits: nat, lpUnits: nat)
    requires UnitsMatch(s) && symbol in s.pools && Added(s, who, symbol, native, external, poolUnits, lpUnits).Ok?
    ensures UnitsMatch(Added(s, who, symbol, native, external, poolUnits, lpUnits).value)
            <==> poolUnits == s.pools[symbol].units + lpUnits
  {
    hide CollectBoth, UnitsOf;
    CollectBothKeeps(s, who, symbol, native, external);
    var key := LpKey(symbol, who);
    var lp := if key in s.lps then s.lps[key] else Provider(0, []);
    var t := Added(s, who, symbol, native, external, poolUnits, lpUnits).value;
    forall p | p in t.pools
      ensures UnitsOf(t.lps, p) == UnitsOf(s.lps, p) + (if p == symbol then lpUnits else 0)
    {
      PutHeld(s.lps, key, lp.(units := lp.units + lpUnits), p);
    }
    assert t.pools[symbol].units == poolUnits;
  }

  lemma RemovedUnits(s: State, blocked: set<Address>, key: LpKey, out: Withdrawals.Payout, unlocks: seq<Unlock>)
    requires UnitsMatch(s) && key in s.lps && key.symbol in s.pools && Removed(s, blocked, key, out, unlocks).Ok?
    ensures UnitsMatch(Removed(s, blocked, key, out, unlocks).value)
  {
    hide PayBoth, UnitsOf;
    var pool, lp := s.pools[key.symbol], s.lps[key];
    var s1 := PutPool(s, key.symbol, pool.(units := pool.units - lp.units + out.unitsLeft,
                                           native := pool.native - out.native, external := pool.external - out.external));
    PayBothKeeps(s1, blocked, key.address, key.symbol, out.native, out.external);
    var t := Removed(s, blocked, key, out, unlocks).value;
    forall p | p in t.pools ensures t.pools[p].units == UnitsOf(t.lps, p) {
      DropHeld(s.lps, key, p);
      PutHeld(s.lps, key, Provider(out.unitsLeft, unlocks), p);
    }
  }

  // ---------- Messages ----------

  /** An add prices against both sides of the pool, or starts it from nothing. */
  predicate SoundAdd(pool: Pool) {
    (pool.NativeDepth() > 0 && pool.ExternalDepth() > 0) || pool.units == 0
  }

  lemma QuoteUnits(P: nat, R: nat, A: nat, r: nat, a: nat, sellFee: Fraction, buyFee: Fraction, rate: nat)
    requires PoolUnits(P, R, A, r, a, sellFee, buyFee, rate).Ok?
    ensures var q := PoolUnits(P, R, A, r, a, sellFee, buyFee, rate).value;
            q.poolUnits == P + q.lpUnits <==> (R > 0 && A > 0) || P == 0
    ensures R == 0 || A == 0 ==> PoolUnits(P, R, A, r, a, sellFee, buyFee, rate).value.poolUnits == r
                                 == PoolUnits(P, R, A, r, a, sellFee, buyFee, rate).value.lpUnits
  {
    if R > 0 && A > 0 {
      hide PoolUnits;
      UnitsBetweenShares(P, R, A, r, a, sellFee, buyFee, rate);
    }
  }

  /**
   The invariant survives an add exactly when both depths are positive or the pool has no units: an add to a
   pool with an empty side and units outstanding restarts the count and forgets the earlier providers.
   */
  lemma AddLiquidityUnits(s: State, env: Env, who: Address, symbol: Symbol, native: nat, external: nat)
    requires UnitsMatch(s) && AddLiquidity(s, env, who, symbol, native, external).Ok?
    ensures UnitsMatch(AddLiquidity(s, env, who, symbol, native, external).value) <==> SoundAdd(s.pools[symbol])
  {
    hide PoolUnits, AddSwaps, Added, UnitsOf;
    var pool := s.pools[symbol];
    QuoteUnits(pool.units, pool.NativeDepth(), pool.ExternalDepth(), native, external, env.Fee(NATIVE), env.Fee(symbol), env.rate);
    var q := PoolUnits(pool.units, pool.NativeDepth(), pool.ExternalDepth(), native, external,
                       env.Fee(NATIVE), env.Fee(symbol), env.rate).value;
    var s1 := s.(bucket := AddSwaps(s, env, symbol, pool, q).value);
    AddedUnits(s1, who, symbol, native, external, q.poolUnits, q.lpUnits);
  }

  lemma CreatePoolUnits(s: State, env: Env, who: Address, symbol: Symbol, native: nat, external: nat)
    requires UnitsMatch(s) && CreatePool(s, env, who, symbol, native, external).Ok?
    ensures UnitsMatch(CreatePool(s, env, who, symbol, native, external).value)
  {
    hide PoolUnits, Opened, UnitsOf;
    QuoteUnits(0, 0, 0, native, external, env.Fee(NATIVE), env.Fee(symbol), env.rate);
    OpenedUnits(s, who, symbol, native, external, native);
  }

  /** Nobody's units and no pool's units change. */
  ghost predicate SameUnits(s: State, t: State) {
    && t.pools.Keys == s.pools.Keys && t.lps.Keys == s.lps.Keys
    && (forall p | p in s.pools :: t.pools[p].units == s.pools[p].units)
    && (forall k | k in s.lps :: t.lps[k].units == s.lps[k].units)
  }

  lemma SameUnitsKeeps(s: State, t: State)
    requires UnitsMatch(s) && SameUnits(s, t)
    ensures UnitsMatch(t)
  {
    hide UnitsOf;
    forall p | p in t.pools ensures UnitsOf(t.lps, p) == UnitsOf(s.lps, p) {
      SameHeld(s.lps, t.lps, p);
    }
  }

  lemma SwapOneUnits(pool: Pool, toFury: bool, sent: nat, rate: nat, fee: Fraction)
    requires SwapOne(pool, toFury, sent, rate, fee).Ok?
    ensures SwapOne(pool, toFury, sent, rate, fee).value.1.units == pool.units
  {
    hide SwapResult;
  }

  lemma FirstHopSameUnits(s: State, env: Env, sent: Symbol, received: Symbol, amount: nat)
    requires (sent == NATIVE || sent in s.pools) && FirstHop(s, env, sent, received, amount).Ok?
    ensures SameUnits(s, FirstHop(s, env, sent, received, amount).value.0)
  {
    hide SwapOne;
    if sent != NATIVE && received != NATIVE {
      SwapOneUnits(s.pools[sent], true, amount, env.rate, env.Fee(sent));
    }
  }

  lemma LastHopSameUnits(s: State, env: Env, who: Address, sent: Symbol, received: Symbol, amount: nat, least: nat)
    requires LastHop(s, env, who, sent, received, amount, least).Ok?
    ensures SameUnits(s, LastHop(s, env, who, sent, received, amount, least).value.0)
  {
    hide SwapOne;
    var through := if received == NATIVE then sent else received;
    SwapOneUnits(s.pools[through], received == NATIVE, amount, env.rate, env.Fee(sent));
  }

  lemma SwapSameUnits(s: State, env: Env, who: Address, sent: Symbol, received: Symbol, amount: nat, least: nat)
    requires Swap(s, env, who, sent, received, amount, least).Ok?
    ensures SameUnits(s, Swap(s, env, who, sent, received, amount, least).value)
  {
    hide FirstHop, LastHop, SwapUpdates, SwapPrice;
    var s1 := Collect(s, who, sent, amount).value;
    FirstHopSameUnits(s1, env, sent, received, amount);
    var (s2, hop) := FirstHop(s1, env, sent, received, amount).value;
    LastHopSameUnits(s2, env, who, sent, received, hop, least);
  }

  function Refunded(symbol: Symbol, order: seq<Address>): set<LpKey> {
    set a | a in order :: LpKey(symbol, a)
  }

  lemma RefundDrops(s: State, blocked: set<Address>, symbol: Symbol, pool: Pool, who: Address, left: Remaining)
    requires Refund(s, blocked, symbol, pool, who, left).Ok?
    ensures var t := Refund(s, blocked, symbol, pool, who, left).value.0;
            t.pools == s.pools && t.lps == s.lps - {LpKey(symbol, who)} && t.bucket == s.bucket
  {
    hide Withdrawals.FromBasisPoints;
  }

  lemma {:induction false} RefundAllDrops(s: State, blocked: set<Address>, symbol: Symbol, pool: Pool, order: seq<Address>, left: Remaining)
    requires RefundAll(s, blocked, symbol, pool, order, left).Ok?
    ensures var t := RefundAll(s, blocked, symbol, pool, order, left).value.0;
            t.pools == s.pools && t.lps == s.lps - Refunded(symbol, order) && t.bucket == s.bucket
    decreases |order|
  {
    hide Refund;
    if order == [] {
      assert s.lps - Refunded(symbol, order) == s.lps;
    } else {
      RefundDrops(s, blocked, symbol, pool, order[0], left);
      var (s1, left1) := Refund(s, blocked, symbol, pool, order[0], left).value;
      RefundAllDrops(s1, blocked, symbol, pool, order[1..], left1);
      assert Refunded(symbol, order) == Refunded(symbol, order[1..]) + {LpKey(symbol, order[0])};
      assert s.lps - {LpKey(symbol, order[0])} - Refunded(symbol, order[1..]) == s.lps - Refunded(symbol, order);
    }
  }

  lemma DecommissionUnits(s: State, env: Env, who: Address, symbol: Symbol, order: seq<Address>)
    requires UnitsMatch(s) && Lists(s, symbol, order) && Decommission(s, env, who, symbol, order).Ok?
    ensures UnitsMatch(Decommission(s, env, who, symbol, order).value)
  {
    hide RefundAll, UnitsOf;
    var pool := s.pools[symbol];
    RefundAllDrops(s, env.blocked, symbol, pool, order, Remaining(pool.units, pool.native, pool.external));
    var t := Decommission(s, env, who, symbol, order).value;
    forall k | k in t.lps ensures k.symbol in t.pools {
      assert k.symbol == symbol ==> LpKey(symbol, k.address) in Refunded(symbol, order);
    }
    forall p | p in t.pools ensures UnitsOf(t.lps, p) == UnitsOf(s.lps, p) {
      SameHeld(s.lps, t.lps, p);
    }
  }

  lemma SameHeld(a: map<LpKey, Provider>, b: map<LpKey, Provider>, symbol: Symbol)
    requires forall k: LpKey | k.symbol == symbol :: (k in a <==> k in b) && (k in a ==> a[k].units == b[k].units)
    ensures UnitsOf(a, symbol) == UnitsOf(b, symbol)
  {
    assert Held(a, symbol) == Held(b, symbol);
  }

  lemma {:induction false} ToppedSameUnits(pools: map<Symbol, Pool>, gs: seq<Grant>)
    ensures Rewards.Topped(pools, gs).Keys == pools.Keys
    ensures forall p | p in pools :: Rewards.Topped(pools, gs)[p].units == pools[p].units
  {
    if gs != [] {
      if gs[0].symbol in pools {
        var pool := pools[gs[0].symbol];
        ToppedSameUnits(pools[gs[0].symbol := pool.(native := pool.native + gs[0].depth)], gs[1..]);
      } else {
        ToppedSameUnits(pools, gs[1..]);
      }
    }
  }

  lemma RewardsSameUnits(s: State, blocked: set<Address>, period: Rewards.RewardPeriod, amount: nat,
                         poolOrder: seq<Symbol>, lpOrder: seq<LpKey>, payOrder: seq<Address>)
    requires Rewards.DepthRewards(s, blocked, period, amount, poolOrder, lpOrder, payOrder).Ok?
    ensures SameUnits(s, Rewards.DepthRewards(s, blocked, period, amount, poolOrder, lpOrder, payOrder).value)
  {
    hide Entries, PayEach, Rewards.BlockGrants, Rewards.Topped, Rewards.Unheld, GrantTotals, Rewards.GrantSum;
    var gs := Rewards.BlockGrants(s, period, amount, poolOrder);
    ToppedSameUnits(s.pools, gs);
    ToppedSameUnits(s.pools, Rewards.Unheld(s, lpOrder, gs));
  }

  lemma DistributionSameUnits(s: State, blocked: set<Address>, rate: Fraction,
                              poolOrder: seq<Symbol>, lpOrder: seq<LpKey>, payOrder: seq<Address>)
    requires ProviderDistribution(s, blocked, rate, poolOrder, lpOrder, payOrder).Ok?
    ensures SameUnits(s, ProviderDistribution(s, blocked, rate, poolOrder, lpOrder, payOrder).value)
  {
    hide Entries, PayEach, NativeGrants, GrantTotals;
  }

  // ---------- Runs ----------

  lemma HandleUnits(s: State, env: Env, m: Msg)
    requires UnitsMatch(s) && Handle(s, env, m).Ok? && ValidEvent(s, Deliver(env, m))
    requires m.MsgAddLiquidity? ==> m.symbol in s.pools && SoundAdd(s.pools[m.symbol])
    ensures UnitsMatch(Handle(s, env, m).value)
  {
    hide CreatePool, AddLiquidity, Swap, Removed, Decommission, Withdrawals.FromUnits, Withdrawals.FromBasisPoints, UnitsOf,
         SpendUnlocked, LivePruned, SoundAdd;
    match m
    case MsgCreatePool(who, symbol, native, external) => CreatePoolUnits(s, env, who, symbol, native, external);
    case MsgAddLiquidity(who, symbol, native, external) => AddLiquidityUnits(s, env, who, symbol, native, external);
    case MsgSwap(who, sent, received, amount, least) =>
      SwapSameUnits(s, env, who, sent, received, amount, least);
      SameUnitsKeeps(s, Handle(s, env, m).value);
    case MsgRemoveLiquidity(who, symbol, wBasis, asymmetry) =>
      var pool, lp := s.pools[symbol], s.lps[LpKey(symbol, who)];
      RemovePaidUnits(s, env, LpKey(symbol, who),
                      Withdrawals.FromBasisPoints(pool.units, pool.NativeDepth(), pool.ExternalDepth(), lp.units, wBasis).value);
    case MsgRemoveLiquidityUnits(who, symbol, units) =>
      var pool, lp := s.pools[symbol], s.lps[LpKey(symbol, who)];
      RemovePaidUnits(s, env, LpKey(symbol, who),
                      Withdrawals.FromUnits(pool.units, pool.NativeDepth(), pool.ExternalDepth(), lp.units, units).value);
    case MsgUnlockLiquidity(who, symbol, units) => SameUnitsKeeps(s, Handle(s, env, m).value);
    case MsgCancelUnlock(who, symbol, units) => SameUnitsKeeps(s, Handle(s, env, m).value);
    case MsgDecommission(who, symbol, order) => DecommissionUnits(s, env, who, symbol, order);
  }

  lemma RemovePaidUnits(s: State, env: Env, key: LpKey, out: Withdrawals.Payout)
    requires UnitsMatch(s) && key in s.lps && key.symbol in s.pools && RemovePaid(s, env, key, out).Ok?
    ensures UnitsMatch(RemovePaid(s, env, key, out).value)
  {
    hide SpendUnlocked, LivePruned, UnitsOf, Removed;
    var lp := s.lps[key];
    RemovedUnits(s, env.blocked, key, out, SpendUnlocked(LivePruned(lp, env), lp.units - out.unitsLeft, env, false).value);
  }

  predicate SoundStep(s: State, e: Event) {
    e.Deliver? && e.msg.MsgAddLiquidity? && e.msg.symbol in s.pools ==> SoundAdd(s.pools[e.msg.symbol])
  }

  ghost predicate SoundOver(s: State, events: seq<Event>)
    decreases |events|
  {
    events == [] || (SoundStep(s, events[0]) && SoundOver(Step(s, events[0]), events[1..]))
  }

  lemma StepUnits(s: State, e: Event)
    requires UnitsMatch(s) && ValidEvent(s, e) && SoundStep(s, e)
    ensures UnitsMatch(Step(s, e))
  {
    hide Handle, ProviderDistribution, Rewards.DepthRewards, UnitsOf, SoundAdd;
    if Attempt(s, e).Ok? {
      match e
      case Deliver(env, msg) =>
        if msg.MsgAddLiquidity? { assert msg.symbol in s.pools by { AddNeedsPool(s, env, msg); } }
        HandleUnits(s, env, msg);
      case DistributeToProviders(blocked, rate, poolOrder, lpOrder, payOrder) =>
        DistributionSameUnits(s, blocked, rate, poolOrder, lpOrder, payOrder);
        SameUnitsKeeps(s, Step(s, e));
      case RewardDepth(blocked, period, amount, poolOrder, lpOrder, payOrder) =>
        RewardsSameUnits(s, blocked, period, amount, poolOrder, lpOrder, payOrder);
        SameUnitsKeeps(s, Step(s, e));
      case _ => SameUnitsKeeps(s, Step(s, e));
    }
  }

  lemma AddNeedsPool(s: State, env: Env, m: Msg)
    requires m.MsgAddLiquidity? && Handle(s, env, m).Ok?
    ensures m.symbol in s.pools
  {
    hide PoolUnits, AddSwaps, Added;
  }

  /** Over every run whose adds are sound, every pool's units equal the sum of its providers' units. */
  lemma {:induction false} UnitsOverRuns(s: State, events: seq<Event>)
    requires UnitsMatch(s) && ValidRun(s, events) && SoundOver(s, events)
    ensures UnitsMatch(Run(s, events))
    decreases |events|
  {
    hide UnitsMatch, Step, SoundStep, ValidEvent;
    if events != [] {
      StepUnits(s, events[0]);
      UnitsOverRuns(Step(s, events[0]), events[1..]);
    }
  }
}
