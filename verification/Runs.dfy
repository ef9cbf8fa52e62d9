/**
 Runs: any interleaving of messages, block ends and administrative settings. A message that fails leaves the
 state as it was, so a run is a fold of total steps.
 */
module Runs {
  import opened Decimal
  import opened Distribution
  import opened DistributionSolvency
  import opened Ledger
  import opened Rewards
  import opened RewardsSolvency
  import opened Solvency
  import opened Types
  import P = Protection

  datatype Msg =
    | MsgCreatePool(who: Address, symbol: Symbol, native: nat, external: nat)
    | MsgAddLiquidity(who: Address, symbol: Symbol, native: nat, external: nat)
    | MsgSwap(who: Address, sent: Symbol, received: Symbol, amount: nat, least: nat)
    | MsgRemoveLiquidity(who: Address, symbol: Symbol, wBasis: int, asymmetry: int)
    | MsgRemoveLiquidityUnits(who: Address, symbol: Symbol, units: nat)
    | MsgUnlockLiquidity(who: Address, symbol: Symbol, units: nat)
    | MsgCancelUnlock(who: Address, symbol: Symbol, units: nat)
    | MsgDecommission(who: Address, symbol: Symbol, order: seq<Address>)

  datatype Event =
    | Deliver(env: Env, msg: Msg)
    | RefillBucket
    | DistributeToProviders(blocked: set<Address>, rate: Fraction,
                            poolOrder: seq<Symbol>, lpOrder: seq<LpKey>, payOrder: seq<Address>)
    | RewardDepth(blocked: set<Address>, period: RewardPeriod, amount: nat,
                  poolOrder: seq<Symbol>, lpOrder: seq<LpKey>, payOrder: seq<Address>)
    | SetBucket(bucket: P.Bucket)
    | SetThreshold(current: nat)

  function Handle(s: State, env: Env, m: Msg): Result<State> {
    match m
    case MsgCreatePool(who, symbol, native, external) => CreatePool(s, env, who, symbol, native, external)
    case MsgAddLiquidity(who, symbol, native, external) => AddLiquidity(s, env, who, symbol, native, external)
    case MsgSwap(who, sent, received, amount, least) => Swap(s, env, who, sent, received, amount, least)
    case MsgRemoveLiquidity(who, symbol, wBasis, asymmetry) => RemoveLiquidity(s, env, who, symbol, wBasis, asymmetry)
    case MsgRemoveLiquidityUnits(who, symbol, units) => RemoveLiquidityUnits(s, env, who, symbol, units)
    case MsgUnlockLiquidity(who, symbol, units) => UnlockLiquidity(s, env, who, symbol, units)
    case MsgCancelUnlock(who, symbol, units) => CancelUnlock(s, env, who, symbol, units)
    case MsgDecommission(who, symbol, order) => Decommission(s, env, who, symbol, order)
  }

  function Refill(s: State): Result<State> {
    var bucket :- P.Refilled(s.bucket);
    Ok(s.(bucket := bucket))
  }

  function Attempt(s: State, e: Event): Result<State> {
    match e
    case Deliver(env, msg) => Handle(s, env, msg)
    case RefillBucket => Refill(s)
    case DistributeToProviders(blocked, rate, poolOrder, lpOrder, payOrder) =>
      ProviderDistribution(s, blocked, rate, poolOrder, lpOrder, payOrder)
    case RewardDepth(blocked, period, amount, poolOrder, lpOrder, payOrder) =>
      DepthRewards(s, blocked, period, amount, poolOrder, lpOrder, payOrder)
    // UpdateLiquidityProtectionParams starts the bucket full.
    case SetBucket(bucket) => Ok(s.(bucket := bucket.(current := bucket.max)))
    case SetThreshold(current) => Ok(s.(bucket := s.bucket.(current := current)))
  }

  /** What fails changes nothing: a message is undone, and after a panic in a block there is no next state. */
  function Step(s: State, e: Event): State {
    match Attempt(s, e)
    case Ok(t) => t
    case Err(_) => s
  }

  function Run(s: State, events: seq<Event>): State
    decreases |events|
  {
    if events == [] then s else Run(Step(s, events[0]), events[1..])
  }

  /** The store's listings are complete and free of repetition. */
  predicate ListsStore(s: State, poolOrder: seq<Symbol>, lpOrder: seq<LpKey>) {
    Distinct(poolOrder) && Members(poolOrder) == s.pools.Keys && Distinct(lpOrder) && Members(lpOrder) == s.lps.Keys
  }

  /** Every iteration an event carries is one the store or a map walk can produce. */
  predicate ValidEvent(s: State, e: Event) {
    match e
    case Deliver(_, MsgDecommission(_, symbol, order)) => Lists(s, symbol, order)
    case DistributeToProviders(_, rate, poolOrder, lpOrder, payOrder) =>
      ListsStore(s, poolOrder, lpOrder)
      && var es := Entries(s, lpOrder, rate, NativeGrants(s, poolOrder));
         es.Ok? ==> WalksAll(es.value, payOrder)
    case RewardDepth(_, period, amount, poolOrder, lpOrder, payOrder) =>
      ListsStore(s, poolOrder, lpOrder) && RewardWalk(s, period, amount, poolOrder, lpOrder, payOrder)
    case _ => true
  }

  ghost predicate ValidRun(s: State, events: seq<Event>)
    decreases |events|
  {
    events == [] || (ValidEvent(s, events[0]) && ValidRun(Step(s, events[0]), events[1..]))
  }

  /** What a step credits to pools without providers and burns all the same. */
  function StrandedBy(s: State, e: Event): nat {
    if e.RewardDepth? && Attempt(s, e).Ok? then Stranded(s, e.period, e.amount, e.poolOrder, e.lpOrder) else 0
  }

  function StrandedOver(s: State, events: seq<Event>): nat
    decreases |events|
  {
    if events == [] then 0 else StrandedBy(s, events[0]) + StrandedOver(Step(s, events[0]), events[1..])
  }

  ghost predicate Solvent(s: State) {
    WellFormed(s) && forall d :: Surplus(s, d) >= 0
  }

  predicate Closes(e: Event) {
    e.Deliver? && e.msg.MsgDecommission?
  }

  lemma HandleSurplus(s: State, env: Env, m: Msg, denom: Symbol)
    requires WellFormed(s) && Handle(s, env, m).Ok?
    ensures var t := Handle(s, env, m).value;
            WellFormed(t) && Surplus(t, denom) >= Surplus(s, denom)
            && (!m.MsgDecommission? ==> Surplus(t, denom) == Surplus(s, denom))
  {
    hide CreatePool, AddLiquidity, Swap, RemovePaid, Decommission, Withdrawals.FromUnits, Withdrawals.FromBasisPoints, Recorded;
    match m
    case MsgCreatePool(who, symbol, native, external) => CreatePoolSurplus(s, env, who, symbol, native, external, denom);
    case MsgAddLiquidity(who, symbol, native, external) => AddLiquiditySurplus(s, env, who, symbol, native, external, denom);
    case MsgSwap(who, sent, received, amount, least) => SwapSurplus(s, env, who, sent, received, amount, least, denom);
    case MsgRemoveLiquidity(who, symbol, wBasis, asymmetry) =>
      var pool, lp := s.pools[symbol], s.lps[LpKey(symbol, who)];
      RemovePaidSurplus(s, env, LpKey(symbol, who),
                        Withdrawals.FromBasisPoints(pool.units, pool.NativeDepth(), pool.ExternalDepth(), lp.units, wBasis).value, denom);
    case MsgRemoveLiquidityUnits(who, symbol, units) =>
      var pool, lp := s.pools[symbol], s.lps[LpKey(symbol, who)];
      RemovePaidSurplus(s, env, LpKey(symbol, who),
                        Withdrawals.FromUnits(pool.units, pool.NativeDepth(), pool.ExternalDepth(), lp.units, units).value, denom);
    case MsgUnlockLiquidity(who, symbol, units) =>
    case MsgCancelUnlock(who, symbol, units) =>
    case MsgDecommission(who, symbol, order) => DecommissionSurplus(s, env, who, symbol, order, denom);
  }

  /** What is missing from a surplus: native only. */
  function Missing(denom: Symbol, stranded: nat): nat {
    if denom == NATIVE then stranded else 0
  }

  /** One step lowers a surplus by what it strands and no more, and only closing a pool raises one. */
  lemma StepSurplus(s: State, e: Event, denom: Symbol)
    requires Solvent(s) && ValidEvent(s, e)
    ensures WellFormed(Step(s, e)) && Surplus(Step(s, e), denom) >= Surplus(s, denom) - Missing(denom, StrandedBy(s, e))
    ensures !Closes(e) ==> Surplus(Step(s, e), denom) == Surplus(s, denom) - Missing(denom, StrandedBy(s, e))
  {
    hide Handle, ProviderDistribution, DepthRewards, Recorded, Stranded, Entries, NativeGrants, WalksAll, P.Refilled;
    if Attempt(s, e).Ok? {
      match e
      case Deliver(env, msg) => HandleSurplus(s, env, msg, denom);
      case DistributeToProviders(blocked, rate, poolOrder, lpOrder, payOrder) =>
        DistributionWalked(s, blocked, rate, poolOrder, lpOrder, payOrder);
        DistributionSurplus(s, blocked, rate, poolOrder, lpOrder, payOrder, denom);
      case RewardDepth(blocked, period, amount, poolOrder, lpOrder, payOrder) =>
        DepthRewardsSurplus(s, blocked, period, amount, poolOrder, lpOrder, payOrder, denom);
      case _ =>
    }
  }

  lemma DistributionWalked(s: State, blocked: set<Address>, rate: Fraction, poolOrder: seq<Symbol>, lpOrder: seq<LpKey>, payOrder: seq<Address>)
    requires ProviderDistribution(s, blocked, rate, poolOrder, lpOrder, payOrder).Ok?
    ensures Entries(s, lpOrder, rate, NativeGrants(s, poolOrder)).Ok?
  {
  }

  /**
   Over every run that strands no more than the native surplus it began with, the module account stays solvent
   in every denomination: its surplus falls by exactly what was stranded, and rises only when a pool is closed.
   */
  lemma {:induction false} SurplusOverRuns(s: State, events: seq<Event>)
    requires Solvent(s) && ValidRun(s, events) && StrandedOver(s, events) <= Surplus(s, NATIVE)
    ensures Solvent(Run(s, events))
    ensures forall d :: Surplus(Run(s, events), d) >= Surplus(s, d) - Missing(d, StrandedOver(s, events))
    ensures (forall i | 0 <= i < |events| :: !Closes(events[i])) ==>
              forall d :: Surplus(Run(s, events), d) == Surplus(s, d) - Missing(d, StrandedOver(s, events))
    decreases |events|
  {
    hide Surplus, Step, StrandedBy, ValidEvent;
    if events != [] {
      var e, t := events[0], Step(s, events[0]);
      forall d ensures WellFormed(t) && Surplus(t, d) >= Surplus(s, d) - Missing(d, StrandedBy(s, e))
                       && (!Closes(e) ==> Surplus(t, d) == Surplus(s, d) - Missing(d, StrandedBy(s, e))) {
        StepSurplus(s, e, d);
      }
      assert WellFormed(t) by { StepSurplus(s, e, NATIVE); }
      SurplusOverRuns(t, events[1..]);
    }
  }
}
