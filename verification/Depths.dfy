/** Which steps can empty a side of a pool, and what follows for the units invariant. */
module Depths {
  import opened Decimal
  import opened Distribution
  import opened DistributionSolvency
  import opened Ledger
  import opened LiquidityAdds
  import opened Runs
  import opened Swaps
  import opened Types
  import opened Unlocks
  import opened UnitsCheck
  import Rewards
  import Withdrawals

  predicate Deep(pool: Pool) {
    pool.NativeDepth() > 0 && pool.ExternalDepth() > 0
  }

  predicate AllDeep(pools: map<Symbol, Pool>) {
    forall p | p in pools :: Deep(pools[p])
  }

  lemma SwapOneDeep(pool: Pool, toFury: bool, sent: nat, rate: nat, fee: Fraction)
    requires Deep(pool) && SwapOne(pool, toFury, sent, rate, fee).Ok?
    ensures Deep(SwapOne(pool, toFury, sent, rate, fee).value.1)
  {
    hide SwapResult;
  }

  lemma FirstHopDeep(s: State, env: Env, sent: Symbol, received: Symbol, amount: nat)
    requires AllDeep(s.pools) && (sent == NATIVE || sent in s.pools) && FirstHop(s, env, sent, received, amount).Ok?
    ensures AllDeep(FirstHop(s, env, sent, received, amount).value.0.pools)
  {
    hide SwapOne;
    if sent != NATIVE && received != NATIVE {
      SwapOneDeep(s.pools[sent], true, amount, env.rate, env.Fee(sent));
    }
  }

  lemma LastHopDeep(s: State, env: Env, who: Address, sent: Symbol, received: Symbol, amount: nat, least: nat)
    requires AllDeep(s.pools) && LastHop(s, env, who, sent, received, amount, least).Ok?
    ensures AllDeep(LastHop(s, env, who, sent, received, amount, least).value.0.pools)
  {
    hide SwapOne;
    var through := if received == NATIVE then sent else received;
    SwapOneDeep(s.pools[through], received == NATIVE, amount, env.rate, env.Fee(sent));
  }

  lemma SwapDeep(s: State, env: Env, who: Address, sent: Symbol, received: Symbol, amount: nat, least: nat)
    requires AllDeep(s.pools) && Swap(s, env, who, sent, received, amount, least).Ok?
    ensures AllDeep(Swap(s, env, who, sent, received, amount, least).value.pools)
  {
    hide FirstHop, LastHop, SwapUpdates, SwapPrice, Deep;
    var s1 := Collect(s, who, sent, amount).value;
    FirstHopDeep(s1, env, sent, received, amount);
    var (s2, hop) := FirstHop(s1, env, sent, received, amount).value;
    LastHopDeep(s2, env, who, sent, received, hop, least);
  }

  lemma CreatePoolDeep(s: State, env: Env, who: Address, symbol: Symbol, native: nat, external: nat)
    requires AllDeep(s.pools) && CreatePool(s, env, who, symbol, native, external).Ok?
    ensures AllDeep(CreatePool(s, env, who, symbol, native, external).value.pools)
  {
    hide PoolUnits, CollectBoth;
    CollectBothKeeps(s, who, symbol, native, external);
  }

  lemma AddLiquidityDeep(s: State, env: Env, who: Address, symbol: Symbol, native: nat, external: nat)
    requires AllDeep(s.pools) && AddLiquidity(s, env, who, symbol, native, external).Ok?
    ensures AllDeep(AddLiquidity(s, env, who, symbol, native, external).value.pools)
  {
    hide PoolUnits, AddSwaps, CollectBoth;
    var pool := s.pools[symbol];
    var q := PoolUnits(pool.units, pool.NativeDepth(), pool.ExternalDepth(), native, external,
                       env.Fee(NATIVE), env.Fee(symbol), env.rate).value;
    CollectBothKeeps(s.(bucket := AddSwaps(s, env, symbol, pool, q).value), who, symbol, native, external);
  }

  /** The "too shallow" check: a withdrawal always leaves something on both sides. */
  lemma RemovedDeep(s: State, blocked: set<Address>, key: LpKey, out: Withdrawals.Payout, unlocks: seq<Unlock>)
    requires AllDeep(s.pools) && key in s.lps && key.symbol in s.pools && Removed(s, blocked, key, out, unlocks).Ok?
    ensures AllDeep(Removed(s, blocked, key, out, unlocks).value.pools)
  {
    hide PayBoth;
    var pool, lp := s.pools[key.symbol], s.lps[key];
    var s1 := PutPool(s, key.symbol, pool.(units := pool.units - lp.units + out.unitsLeft,
                                           native := pool.native - out.native, external := pool.external - out.external));
    PayBothKeeps(s1, blocked, key.address, key.symbol, out.native, out.external);
  }

  lemma RemovePaidDeep(s: State, env: Env, key: LpKey, out: Withdrawals.Payout)
    requires AllDeep(s.pools) && key in s.lps && key.symbol in s.pools && RemovePaid(s, env, key, out).Ok?
    ensures AllDeep(RemovePaid(s, env, key, out).value.pools)
  {
    hide SpendUnlocked, LivePruned, Removed, Deep;
    var lp := s.lps[key];
    RemovedDeep(s, env.blocked, key, out, SpendUnlocked(LivePruned(lp, env), lp.units - out.unitsLeft, env, false).value);
  }

  lemma DecommissionDeep(s: State, env: Env, who: Address, symbol: Symbol, order: seq<Address>)
    requires AllDeep(s.pools) && Decommission(s, env, who, symbol, order).Ok?
    ensures AllDeep(Decommission(s, env, who, symbol, order).value.pools)
  {
    hide RefundAll, Deep;
    var pool := s.pools[symbol];
    RefundAllDrops(s, env.blocked, symbol, pool, order, Remaining(pool.units, pool.native, pool.external));
  }

  lemma HandleDeep(s: State, env: Env, m: Msg)
    requires AllDeep(s.pools) && Handle(s, env, m).Ok?
    ensures AllDeep(Handle(s, env, m).value.pools)
  {
    hide CreatePool, AddLiquidity, Swap, RemovePaid, Decommission, Withdrawals.FromUnits, Withdrawals.FromBasisPoints,
         SpendUnlocked, LivePruned, Deep;
    match m
    case MsgCreatePool(who, symbol, native, external) => CreatePoolDeep(s, env, who, symbol, native, external);
    case MsgAddLiquidity(who, symbol, native, external) => AddLiquidityDeep(s, env, who, symbol, native, external);
    case MsgSwap(who, sent, received, amount, least) => SwapDeep(s, env, who, sent, received, amount, least);
    case MsgRemoveLiquidity(who, symbol, wBasis, asymmetry) =>
      var pool, lp := s.pools[symbol], s.lps[LpKey(symbol, who)];
      RemovePaidDeep(s, env, LpKey(symbol, who),
                     Withdrawals.FromBasisPoints(pool.units, pool.NativeDepth(), pool.ExternalDepth(), lp.units, wBasis).value);
    case MsgRemoveLiquidityUnits(who, symbol, units) =>
      var pool, lp := s.pools[symbol], s.lps[LpKey(symbol, who)];
      RemovePaidDeep(s, env, LpKey(symbol, who),
                     Withdrawals.FromUnits(pool.units, pool.NativeDepth(), pool.ExternalDepth(), lp.units, units).value);
    case MsgDecommission(who, symbol, order) => DecommissionDeep(s, env, who, symbol, order);
    case _ =>
  }

  lemma {:induction false} ToppedDeep(pools: map<Symbol, Pool>, gs: seq<Grant>)
    requires AllDeep(pools)
    ensures AllDeep(Rewards.Topped(pools, gs))
  {
    if gs != [] {
      if gs[0].symbol in pools {
        var pool := pools[gs[0].symbol];
        ToppedDeep(pools[gs[0].symbol := pool.(native := pool.native + gs[0].depth)], gs[1..]);
      } else {
        ToppedDeep(pools, gs[1..]);
      }
    }
  }

  lemma RewardsDeep(s: State, blocked: set<Address>, period: Rewards.RewardPeriod, amount: nat,
                    poolOrder: seq<Symbol>, lpOrder: seq<LpKey>, payOrder: seq<Address>)
    requires AllDeep(s.pools) && Rewards.DepthRewards(s, blocked, period, amount, poolOrder, lpOrder, payOrder).Ok?
    ensures AllDeep(Rewards.DepthRewards(s, blocked, period, amount, poolOrder, lpOrder, payOrder).value.pools)
  {
    hide Entries, PayEach, Rewards.BlockGrants, Rewards.Topped, Rewards.Unheld, GrantTotals, Rewards.GrantSum, Deep;
    var gs := Rewards.BlockGrants(s, period, amount, poolOrder);
    ToppedDeep(s.pools, gs);
    ToppedDeep(s.pools, Rewards.Unheld(s, lpOrder, gs));
  }

  /** Only a provider distribution can empty a side of a pool. */
  lemma StepDeep(s: State, e: Event)
    requires AllDeep(s.pools) && !e.DistributeToProviders?
    ensures AllDeep(Step(s, e).pools)
  {
    hide Handle, Rewards.DepthRewards, Deep;
    if Attempt(s, e).Ok? {
      match e
      case Deliver(env, msg) => HandleDeep(s, env, msg);
      case RewardDepth(blocked, period, amount, poolOrder, lpOrder, payOrder) =>
        RewardsDeep(s, blocked, period, amount, poolOrder, lpOrder, payOrder);
      case _ =>
    }
  }

  // ---------- Distributions that leave something ----------

  lemma {:induction false} BackOutLowers(pools: map<Symbol, int>, es: seq<Entry>)
    ensures var after := BackOut(pools, es); after.Keys == pools.Keys && forall p | p in pools :: after[p] <= pools[p]
  {
    if es != [] {
      if es[0].symbol in pools {
        BackOutLowers(pools[es[0].symbol := pools[es[0].symbol] - es[0].amount], es[1..]);
      } else {
        BackOutLowers(pools, es[1..]);
      }
    }
  }

  lemma {:induction false} PayEachLowers(p: Purse, blocked: set<Address>, es: seq<Entry>, order: seq<Address>)
    ensures var after := PayEach(p, blocked, es, order).pools;
            after.Keys == p.pools.Keys && forall q | q in p.pools :: after[q] <= p.pools[q]
    decreases |order|
  {
    hide BackOut, AmountAmong, EntriesOf;
    if order != [] {
      BackOutLowers(p.pools, EntriesOf(es, order[0]));
      PayEachLowers(PayOne(p, blocked, es, order[0]), blocked, es, order[1..]);
    }
  }

  /** The rounded rate times depth, the most a distribution can take, is less than the native depth. */
  predicate Mild(pool: Pool, rate: Fraction) {
    Round(Mul(rate, pool.native * ONE)) < pool.NativeDepth()
  }

  lemma ReducedDeep(pools: map<Symbol, Pool>, totals: map<Symbol, int>, p: Symbol, cap: nat)
    requires p in pools && Deep(pools[p]) && cap < pools[p].NativeDepth() && (p in totals ==> totals[p] <= cap)
    ensures Deep(Reduced(pools, totals)[p])
  {
  }

  lemma DistributionDeep(s: State, blocked: set<Address>, rate: Fraction, poolOrder: seq<Symbol>, lpOrder: seq<LpKey>, payOrder: seq<Address>)
    requires AllDeep(s.pools) && Distinct(poolOrder) && Members(poolOrder) == s.pools.Keys
    requires forall p | p in s.pools :: Mild(s.pools[p], rate)
    requires ProviderDistribution(s, blocked, rate, poolOrder, lpOrder, payOrder).Ok?
    ensures AllDeep(ProviderDistribution(s, blocked, rate, poolOrder, lpOrder, payOrder).value.pools)
  {
    hide Entries, PayEach, NativeGrants, PoolAmong, Deep, Reduced, Round, Mul, Holders, Addresses;
    var es := Entries(s, lpOrder, rate, NativeGrants(s, poolOrder)).value;
    var purse := Purse(Balance(s.reserve, NATIVE), s.users, GrantTotals(s, lpOrder, es));
    PayEachLowers(purse, blocked, es, payOrder);
    var totals := PayEach(purse, blocked, es, payOrder).pools;
    assert Reduced(s.pools, totals).Keys == s.pools.Keys by { ReducedKeys(s.pools, totals); }
    forall p | p in s.pools ensures Deep(Reduced(s.pools, totals)[p]) {
      TakenWithinRate(s, lpOrder, rate, poolOrder, p);
      assert Mild(s.pools[p], rate);
      ReducedDeep(s.pools, totals, p, Round(Mul(rate, s.pools[p].native * ONE)));
    }
  }

  /** What is asked of a pool is at most the rounded rate times its balance. */
  lemma TakenWithinRate(s: State, lpOrder: seq<LpKey>, rate: Fraction, poolOrder: seq<Symbol>, p: Symbol)
    requires Distinct(poolOrder) && p in s.pools && p in Members(poolOrder) && Entries(s, lpOrder, rate, NativeGrants(s, poolOrder)).Ok?
    ensures var es := Entries(s, lpOrder, rate, NativeGrants(s, poolOrder)).value;
            PoolAmong(es, p, Addresses(es)) <= Round(Mul(rate, s.pools[p].native * ONE))
  {
    hide Entries, PoolAmong, Round, Mul, Addresses, NativeGrants;
    var gs := NativeGrants(s, poolOrder);
    var es := Entries(s, lpOrder, rate, gs).value;
    NativeGrantsAt(s, poolOrder);
    EntriesWithinGrants(s, lpOrder, rate, gs, p, Addresses(es));
    if i :| 0 <= i < |gs| && gs[i].symbol == p {
    }
  }

  /** Every provider distribution of a run is mild on every pool. */
  predicate MildStep(s: State, e: Event) {
    e.DistributeToProviders? ==> forall p | p in s.pools :: Mild(s.pools[p], e.rate)
  }

  ghost predicate MildOver(s: State, events: seq<Event>)
    decreases |events|
  {
    events == [] || (MildStep(s, events[0]) && MildOver(Step(s, events[0]), events[1..]))
  }

  lemma MildStepDeep(s: State, e: Event)
    requires AllDeep(s.pools) && ValidEvent(s, e) && MildStep(s, e)
    ensures AllDeep(Step(s, e).pools)
  {
    hide ProviderDistribution, Deep, Mild, Entries, NativeGrants, Handle, Rewards.DepthRewards;
    if e.DistributeToProviders? {
      if Attempt(s, e).Ok? {
        DistributionDeep(s, e.blocked, e.rate, e.poolOrder, e.lpOrder, e.payOrder);
      }
    } else {
      StepDeep(s, e);
    }
  }

  /**
   While every provider distribution takes less than a pool's native depth, both depths stay positive and the
   units invariant holds over every run, with nothing asked of the adds.
   */
  lemma {:induction false} UnitsWhileDeep(s: State, events: seq<Event>)
    requires UnitsMatch(s) && AllDeep(s.pools) && ValidRun(s, events) && MildOver(s, events)
    ensures UnitsMatch(Run(s, events)) && AllDeep(Run(s, events).pools)
    decreases |events|
  {
    hide UnitsMatch, Step, ValidEvent, MildStep;
    if events != [] {
      var e := events[0];
      assert SoundStep(s, e);
      StepUnits(s, e);
      MildStepDeep(s, e);
      UnitsWhileDeep(Step(s, e), events[1..]);
    }
  }
}
