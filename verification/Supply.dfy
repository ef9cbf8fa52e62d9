/** Conservation: no message creates or destroys a coin; only depth rewards do, by what they mint and keep. */
module Supply {
  import opened Decimal
  import opened Distribution
  import opened Ledger
  import opened LiquidityAdds
  import opened Rewards
  import opened Runs
  import opened Sums
  import opened Swaps
  import opened Types
  import Unlocks
  import Withdrawals

  ghost function Coins(users: map<CoinKey, nat>, denom: Symbol): map<CoinKey, int> {
    map k | k in users && k.denom == denom :: users[k]
  }

  ghost function InHand(users: map<CoinKey, nat>, denom: Symbol): int {
    Sum(Coins(users, denom))
  }

  /** All of a denomination there is: in the module account and in everyone else's. */
  ghost function Supply(s: State, denom: Symbol): int {
    Balance(s.reserve, denom) + InHand(s.users, denom)
  }

  lemma PutCoins(users: map<CoinKey, nat>, k: CoinKey, amount: nat, denom: Symbol)
    ensures InHand(users[k := amount], denom)
         == InHand(users, denom) + if k.denom == denom then amount - Balance(users, k) else 0
  {
    hide Sum;
    if k.denom == denom {
      assert Coins(users[k := amount], denom) == Coins(users, denom)[k := amount];
      SumUpdate(Coins(users, denom), k, amount);
    } else {
      assert Coins(users[k := amount], denom) == Coins(users, denom);
    }
  }

  // ---------- The bank ----------

  lemma CollectSupply(s: State, who: Address, coin: Symbol, amount: nat, denom: Symbol)
    requires Collect(s, who, coin, amount).Ok?
    ensures Supply(Collect(s, who, coin, amount).value, denom) == Supply(s, denom)
  {
    hide InHand;
    var k := CoinKey(who, coin);
    PutCoins(s.users, k, Balance(s.users, k) - amount, denom);
  }

  lemma PaySupply(s: State, blocked: set<Address>, who: Address, coin: Symbol, amount: nat, denom: Symbol)
    requires Pay(s, blocked, who, coin, amount).Ok?
    ensures Supply(Pay(s, blocked, who, coin, amount).value, denom) == Supply(s, denom)
  {
    hide InHand;
    var k := CoinKey(who, coin);
    PutCoins(s.users, k, Balance(s.users, k) + amount, denom);
  }

  lemma CollectBothSupply(s: State, who: Address, symbol: Symbol, native: nat, external: nat, denom: Symbol)
    requires CollectBoth(s, who, symbol, native, external).Ok?
    ensures Supply(CollectBoth(s, who, symbol, native, external).value, denom) == Supply(s, denom)
  {
    hide Supply, Collect;
    CollectSupply(s, who, symbol, external, denom);
    CollectSupply(Collect(s, who, symbol, external).value, who, NATIVE, native, denom);
  }

  lemma PayBothSupply(s: State, blocked: set<Address>, who: Address, symbol: Symbol, native: nat, external: nat, denom: Symbol)
    requires PayBoth(s, blocked, who, symbol, native, external).Ok?
    ensures Supply(PayBoth(s, blocked, who, symbol, native, external).value, denom) == Supply(s, denom)
  {
    hide Supply, Pay;
    if native != 0 || external != 0 {
      PaySupply(s, blocked, who, symbol, external, denom);
      PaySupply(Pay(s, blocked, who, symbol, external).value, blocked, who, NATIVE, native, denom);
    }
  }

  /** The stores hold no coins. */
  lemma StoresHoldNone(s: State, t: State, denom: Symbol)
    requires t.reserve == s.reserve && t.users == s.users
    ensures Supply(t, denom) == Supply(s, denom)
  {
  }

  // ---------- Messages ----------

  lemma CreatePoolSupply(s: State, env: Env, who: Address, symbol: Symbol, native: nat, external: nat, denom: Symbol)
    requires CreatePool(s, env, who, symbol, native, external).Ok?
    ensures Supply(CreatePool(s, env, who, symbol, native, external).value, denom) == Supply(s, denom)
  {
    hide Supply, PoolUnits, CollectBoth;
    CollectBothSupply(s, who, symbol, native, external, denom);
    StoresHoldNone(CollectBoth(s, who, symbol, native, external).value, CreatePool(s, env, who, symbol, native, external).value, denom);
  }

  lemma AddLiquiditySupply(s: State, env: Env, who: Address, symbol: Symbol, native: nat, external: nat, denom: Symbol)
    requires AddLiquidity(s, env, who, symbol, native, external).Ok?
    ensures Supply(AddLiquidity(s, env, who, symbol, native, external).value, denom) == Supply(s, denom)
  {
    hide Supply, PoolUnits, AddSwaps, CollectBoth;
    var pool := s.pools[symbol];
    var q := PoolUnits(pool.units, pool.NativeDepth(), pool.ExternalDepth(), native, external,
                       env.Fee(NATIVE), env.Fee(symbol), env.rate).value;
    var s1 := s.(bucket := AddSwaps(s, env, symbol, pool, q).value);
    StoresHoldNone(s, s1, denom);
    CollectBothSupply(s1, who, symbol, native, external, denom);
    StoresHoldNone(CollectBoth(s1, who, symbol, native, external).value, AddLiquidity(s, env, who, symbol, native, external).value, denom);
  }

  lemma FirstHopSupply(s: State, env: Env, sent: Symbol, received: Symbol, amount: nat, denom: Symbol)
    requires (sent == NATIVE || sent in s.pools) && FirstHop(s, env, sent, received, amount).Ok?
    ensures Supply(FirstHop(s, env, sent, received, amount).value.0, denom) == Supply(s, denom)
  {
    hide SwapOne;
  }

  lemma LastHopSupply(s: State, env: Env, who: Address, sent: Symbol, received: Symbol, amount: nat, least: nat, denom: Symbol)
    requires LastHop(s, env, who, sent, received, amount, least).Ok?
    ensures Supply(LastHop(s, env, who, sent, received, amount, least).value.0, denom) == Supply(s, denom)
  {
    hide SwapOne, Supply, Pay;
    var through := if received == NATIVE then sent else received;
    var (out, pool) := SwapOne(s.pools[through], received == NATIVE, amount, env.rate, env.Fee(sent)).value;
    StoresHoldNone(s, PutPool(s, through, pool), denom);
    PaySupply(PutPool(s, through, pool), env.blocked, who, received, out, denom);
  }

  lemma SwapSupply(s: State, env: Env, who: Address, sent: Symbol, received: Symbol, amount: nat, least: nat, denom: Symbol)
    requires Swap(s, env, who, sent, received, amount, least).Ok?
    ensures Supply(Swap(s, env, who, sent, received, amount, least).value, denom) == Supply(s, denom)
  {
    hide FirstHop, LastHop, SwapUpdates, SwapPrice, Supply, Collect;
    CollectSupply(s, who, sent, amount, denom);
    var s1 := Collect(s, who, sent, amount).value;
    CollectKeepsPools(s, who, sent, amount);
    FirstHopSupply(s1, env, sent, received, amount, denom);
    var (s2, hop) := FirstHop(s1, env, sent, received, amount).value;
    LastHopSupply(s2, env, who, sent, received, hop, least, denom);
    StoresHoldNone(LastHop(s2, env, who, sent, received, hop, least).value.0,
                   Swap(s, env, who, sent, received, amount, least).value, denom);
  }

  lemma CollectKeepsPools(s: State, who: Address, coin: Symbol, amount: nat)
    requires Collect(s, who, coin, amount).Ok?
    ensures Collect(s, who, coin, amount).value.pools == s.pools
  {
  }

  lemma RemovedSupply(s: State, blocked: set<Address>, key: LpKey, out: Withdrawals.Payout, unlocks: seq<Unlocks.Unlock>, denom: Symbol)
    requires key in s.lps && key.symbol in s.pools && Removed(s, blocked, key, out, unlocks).Ok?
    ensures Supply(Removed(s, blocked, key, out, unlocks).value, denom) == Supply(s, denom)
  {
    hide PayBoth, Supply;
    var pool, lp := s.pools[key.symbol], s.lps[key];
    var s1 := PutPool(s, key.symbol, pool.(units := pool.units - lp.units + out.unitsLeft,
                                           native := pool.native - out.native, external := pool.external - out.external));
    StoresHoldNone(s, s1, denom);
    PayBothSupply(s1, blocked, key.address, key.symbol, out.native, out.external, denom);
    StoresHoldNone(PayBoth(s1, blocked, key.address, key.symbol, out.native, out.external).value,
                   Removed(s, blocked, key, out, unlocks).value, denom);
  }

  lemma RemovePaidSupply(s: State, env: Env, key: LpKey, out: Withdrawals.Payout, denom: Symbol)
    requires key in s.lps && key.symbol in s.pools && RemovePaid(s, env, key, out).Ok?
    ensures Supply(RemovePaid(s, env, key, out).value, denom) == Supply(s, denom)
  {
    hide SpendUnlocked, LivePruned, Removed, Supply;
    var lp := s.lps[key];
    RemovedSupply(s, env.blocked, key, out, SpendUnlocked(LivePruned(lp, env), lp.units - out.unitsLeft, env, false).value, denom);
  }

  lemma RefundSupply(s: State, blocked: set<Address>, symbol: Symbol, pool: Pool, who: Address, left: Remaining, denom: Symbol)
    requires Refund(s, blocked, symbol, pool, who, left).Ok?
    ensures Supply(Refund(s, blocked, symbol, pool, who, left).value.0, denom) == Supply(s, denom)
  {
    hide Withdrawals.FromBasisPoints, Pay, Supply;
    var out := Withdrawals.FromBasisPoints(pool.units, pool.NativeDepth(), pool.ExternalDepth(), s.lps[LpKey(symbol, who)].units, MAX_WBASIS).value;
    PaySupply(s, blocked, who, symbol, out.external, denom);
    var s1 := Pay(s, blocked, who, symbol, out.external).value;
    PaySupply(s1, blocked, who, NATIVE, out.native, denom);
    var s2 := Pay(s1, blocked, who, NATIVE, out.native).value;
    StoresHoldNone(s2, DropProvider(s2, LpKey(symbol, who)), denom);
  }

  lemma {:induction false} RefundAllSupply(s: State, blocked: set<Address>, symbol: Symbol, pool: Pool, order: seq<Address>, left: Remaining, denom: Symbol)
    requires RefundAll(s, blocked, symbol, pool, order, left).Ok?
    ensures Supply(RefundAll(s, blocked, symbol, pool, order, left).value.0, denom) == Supply(s, denom)
    decreases |order|
  {
    hide Refund, Supply;
    if order != [] {
      RefundSupply(s, blocked, symbol, pool, order[0], left, denom);
      var (s1, left1) := Refund(s, blocked, symbol, pool, order[0], left).value;
      RefundAllSupply(s1, blocked, symbol, pool, order[1..], left1, denom);
    }
  }

  lemma DecommissionSupply(s: State, env: Env, who: Address, symbol: Symbol, order: seq<Address>, denom: Symbol)
    requires Decommission(s, env, who, symbol, order).Ok?
    ensures Supply(Decommission(s, env, who, symbol, order).value, denom) == Supply(s, denom)
  {
    hide RefundAll, Supply;
    var pool := s.pools[symbol];
    var left := Remaining(pool.units, pool.native, pool.external);
    RefundAllSupply(s, env.blocked, symbol, pool, order, left, denom);
    StoresHoldNone(RefundAll(s, env.blocked, symbol, pool, order, left).value.0,
                   Decommission(s, env, who, symbol, order).value, denom);
  }

  /** No message makes or loses a coin. */
  lemma HandleSupply(s: State, env: Env, m: Msg, denom: Symbol)
    requires Handle(s, env, m).Ok?
    ensures Supply(Handle(s, env, m).value, denom) == Supply(s, denom)
  {
    hide CreatePool, AddLiquidity, Swap, RemovePaid, Decommission, Withdrawals.FromUnits, Withdrawals.FromBasisPoints, InHand,
         SpendUnlocked, LivePruned;
    match m
    case MsgCreatePool(who, symbol, native, external) => CreatePoolSupply(s, env, who, symbol, native, external, denom);
    case MsgAddLiquidity(who, symbol, native, external) => AddLiquiditySupply(s, env, who, symbol, native, external, denom);
    case MsgSwap(who, sent, received, amount, least) => SwapSupply(s, env, who, sent, received, amount, least, denom);
    case MsgRemoveLiquidity(who, symbol, wBasis, asymmetry) =>
      var pool, lp := s.pools[symbol], s.lps[LpKey(symbol, who)];
      RemovePaidSupply(s, env, LpKey(symbol, who),
                       Withdrawals.FromBasisPoints(pool.units, pool.NativeDepth(), pool.ExternalDepth(), lp.units, wBasis).value, denom);
    case MsgRemoveLiquidityUnits(who, symbol, units) =>
      var pool, lp := s.pools[symbol], s.lps[LpKey(symbol, who)];
      RemovePaidSupply(s, env, LpKey(symbol, who),
                       Withdrawals.FromUnits(pool.units, pool.NativeDepth(), pool.ExternalDepth(), lp.units, units).value, denom);
    case MsgDecommission(who, symbol, order) => DecommissionSupply(s, env, who, symbol, order, denom);
    case _ =>
  }

  // ---------- Distributions ----------

  lemma {:induction false} PayEachSupply(p: Purse, blocked: set<Address>, es: seq<Entry>, order: seq<Address>)
    ensures var q := PayEach(p, blocked, es, order);
            q.reserve + InHand(q.users, NATIVE) == p.reserve + InHand(p.users, NATIVE)
            && forall d | d != NATIVE :: InHand(q.users, d) == InHand(p.users, d)
    decreases |order|
  {
    hide InHand, AmountAmong, BackOut, EntriesOf;
    if order != [] {
      var k := CoinKey(order[0], NATIVE);
      forall d { PutCoins(p.users, k, Balance(p.users, k) + AmountAmong(es, {order[0]}), d); }
      PayEachSupply(PayOne(p, blocked, es, order[0]), blocked, es, order[1..]);
    }
  }

  lemma DistributionSupply(s: State, blocked: set<Address>, rate: Fraction,
                           poolOrder: seq<Symbol>, lpOrder: seq<LpKey>, payOrder: seq<Address>, denom: Symbol)
    requires ProviderDistribution(s, blocked, rate, poolOrder, lpOrder, payOrder).Ok?
    ensures Supply(ProviderDistribution(s, blocked, rate, poolOrder, lpOrder, payOrder).value, denom) == Supply(s, denom)
  {
    hide Entries, PayEach, NativeGrants, GrantTotals, Reduced, InHand;
    var es := Entries(s, lpOrder, rate, NativeGrants(s, poolOrder)).value;
    PayEachSupply(Purse(Balance(s.reserve, NATIVE), s.users, GrantTotals(s, lpOrder, es)), blocked, es, payOrder);
  }

  /** New coins a step leaves in circulation: the mint, less what is burned again. */
  function Issued(s: State, e: Event): int {
    if !e.RewardDepth? || Attempt(s, e).Err? then 0
    else
      var gs := BlockGrants(s, e.period, e.amount, e.poolOrder);
      if gs == [] then 0
      else if !e.period.distribute then GrantSum(gs)
      else
        var es := Entries(s, e.lpOrder, ONE, gs).value;
        var start := Purse(Balance(s.reserve, NATIVE) + GrantSum(gs), s.users, GrantTotals(s, e.lpOrder, es));
        start.reserve - PayEach(start, e.blocked, es, e.payOrder).reserve
  }

  lemma RewardsSupply(s: State, e: Event, denom: Symbol)
    requires e.RewardDepth?
    ensures Supply(Step(s, e), denom) == Supply(s, denom) + if denom == NATIVE then Issued(s, e) else 0
  {
    hide Entries, PayEach, BlockGrants, GrantTotals, GrantSum, Topped, Unheld, InHand;
    var gs := BlockGrants(s, e.period, e.amount, e.poolOrder);
    if Attempt(s, e).Ok? && gs != [] && e.period.distribute {
      var es := Entries(s, e.lpOrder, ONE, gs).value;
      PayEachSupply(Purse(Balance(s.reserve, NATIVE) + GrantSum(gs), s.users, GrantTotals(s, e.lpOrder, es)), e.blocked, es, e.payOrder);
    }
  }

  lemma {:induction false} PayEachTakes(p: Purse, blocked: set<Address>, es: seq<Entry>, order: seq<Address>)
    ensures PayEach(p, blocked, es, order).reserve <= p.reserve
    decreases |order|
  {
    hide AmountAmong, BackOut, EntriesOf;
    if order != [] { PayEachTakes(PayOne(p, blocked, es, order[0]), blocked, es, order[1..]); }
  }

  /** What a reward block issues is never more than its mint, nor negative, hence never more than its amount. */
  lemma IssuedWithin(s: State, e: Event)
    requires e.RewardDepth? ==> Distinct(e.poolOrder)
    ensures 0 <= Issued(s, e) <= if e.RewardDepth? then e.amount else 0
  {
    hide Entries, PayEach, BlockGrants, GrantTotals, GrantSum, Topped, Unheld;
    if e.RewardDepth? {
      var gs := BlockGrants(s, e.period, e.amount, e.poolOrder);
      BlockGrantsWithin(s, e.period, e.amount, e.poolOrder);
      if Attempt(s, e).Ok? && gs != [] && e.period.distribute {
        var es := Entries(s, e.lpOrder, ONE, gs).value;
        PayEachTakes(Purse(Balance(s.reserve, NATIVE) + GrantSum(gs), s.users, GrantTotals(s, e.lpOrder, es)), e.blocked, es, e.payOrder);
      }
    }
  }

  // ---------- Runs ----------

  lemma StepSupply(s: State, e: Event, denom: Symbol)
    ensures Supply(Step(s, e), denom) == Supply(s, denom) + if denom == NATIVE then Issued(s, e) else 0
  {
    hide Handle, ProviderDistribution, DepthRewards, InHand, Issued;
    if e.RewardDepth? {
      RewardsSupply(s, e, denom);
    } else {
      OnlyRewardsIssue(s, e);
      if Attempt(s, e).Ok? {
        match e
        case Deliver(env, msg) => HandleSupply(s, env, msg, denom);
        case DistributeToProviders(blocked, rate, poolOrder, lpOrder, payOrder) =>
          DistributionSupply(s, blocked, rate, poolOrder, lpOrder, payOrder, denom);
        case _ =>
      }
    }
  }

  lemma OnlyRewardsIssue(s: State, e: Event)
    requires !e.RewardDepth?
    ensures Issued(s, e) == 0
  {
  }

  function IssuedOver(s: State, events: seq<Event>): int
    decreases |events|
  {
    if events == [] then 0 else Issued(s, events[0]) + IssuedOver(Step(s, events[0]), events[1..])
  }

  /** Over every run, the supply of every denomination changes by what the rewards issue and by nothing else. */
  lemma {:induction false} SupplyOverRuns(s: State, events: seq<Event>, denom: Symbol)
    ensures Supply(Run(s, events), denom) == Supply(s, denom) + if denom == NATIVE then IssuedOver(s, events) else 0
    decreases |events|
  {
    hide Step, Supply, Issued;
    if events != [] {
      StepSupply(s, events[0], denom);
      SupplyOverRuns(Step(s, events[0]), events[1..], denom);
    }
  }
}
