/** What depth rewards do to the module account's surplus: nothing, unless they reach a pool without providers. */
module RewardsSolvency {
  import opened Decimal
  import opened Distribution
  import opened DistributionSolvency
  import opened Ledger
  import opened Rewards
  import opened Solvency
  import opened Types

  predicate GrantsTo(pools: map<Symbol, Pool>, gs: seq<Grant>) {
    forall i | 0 <= i < |gs| :: gs[i].symbol in pools
  }

  lemma {:induction false} ToppedRecorded(pools: map<Symbol, Pool>, gs: seq<Grant>, denom: Symbol)
    requires NATIVE !in pools && GrantsTo(pools, gs)
    ensures Topped(pools, gs).Keys == pools.Keys
    ensures Recorded(Topped(pools, gs), denom) == Recorded(pools, denom) + (if denom == NATIVE then GrantSum(gs) else 0)
  {
    hide Recorded;
    if gs != [] {
      var g := gs[0];
      var pool := pools[g.symbol].(native := pools[g.symbol].native + g.depth);
      PutPoolRecorded(pools, g.symbol, pool, denom);
      assert pools[g.symbol := pool].Keys == pools.Keys;
      ToppedRecorded(pools[g.symbol := pool], gs[1..], denom);
    }
  }

  lemma {:induction false} UnheldWithin(s: State, lpOrder: seq<LpKey>, gs: seq<Grant>)
    requires GrantsTo(s.pools, gs)
    ensures GrantsTo(s.pools, Unheld(s, lpOrder, gs)) && GrantSum(Unheld(s, lpOrder, gs)) <= GrantSum(gs)
    ensures (forall i | 0 <= i < |gs| :: gs[i].depth > 0) ==>
              (GrantSum(Unheld(s, lpOrder, gs)) == 0 <==> forall i | 0 <= i < |gs| :: Holders(s, lpOrder, gs[i].symbol) != [])
  {
    hide Holders;
    if gs != [] {
      UnheldWithin(s, lpOrder, gs[1..]);
    }
  }

  /** Providers are never allotted more than was minted. */
  lemma {:induction false} AllottedWithinGrants(s: State, lpOrder: seq<LpKey>, gs: seq<Grant>, who: set<Address>)
    requires Entries(s, lpOrder, ONE, gs).Ok?
    ensures AmountAmong(Entries(s, lpOrder, ONE, gs).value, who) <= GrantSum(gs)
  {
    hide Holders, Round, Mul, Allot;
    if gs != [] {
      var g := gs[0];
      AllottedWithinGrants(s, lpOrder, gs[1..], who);
      AmongConcat(GrantEntries(s, lpOrder, ONE, g).value, Entries(s, lpOrder, ONE, gs[1..]).value, "", who);
      CapWithinDepth(ONE, g.depth);
      if g.symbol in s.pools && Holders(s, lpOrder, g.symbol) != [] {
        var furyPd := Mul(ONE, g.depth * ONE);
        AllotWithinCap(g.symbol, furyPd, Round(furyPd), s.pools[g.symbol].units, Holders(s, lpOrder, g.symbol), 0, "", who);
      }
    }
  }

  /** The rewards credited to pools without providers, in a distributing period. */
  function Stranded(s: State, period: RewardPeriod, amount: nat, poolOrder: seq<Symbol>, lpOrder: seq<LpKey>): nat {
    if period.distribute then GrantSum(Unheld(s, lpOrder, BlockGrants(s, period, amount, poolOrder))) else 0
  }

  /** Every provider allotted a reward is walked exactly once. */
  predicate RewardWalk(s: State, period: RewardPeriod, amount: nat, poolOrder: seq<Symbol>, lpOrder: seq<LpKey>, payOrder: seq<Address>) {
    var es := Entries(s, lpOrder, ONE, BlockGrants(s, period, amount, poolOrder));
    period.distribute && es.Ok? ==> WalksAll(es.value, payOrder)
  }

  /**
   Depth rewards keep the surplus of every denomination, except that what was credited to a pool without
   providers is burned as if it had not been, and so is missing from the native surplus.
   */
  lemma DepthRewardsSurplus(s: State, blocked: set<Address>, period: RewardPeriod, amount: nat,
                            poolOrder: seq<Symbol>, lpOrder: seq<LpKey>, payOrder: seq<Address>, denom: Symbol)
    requires WellFormed(s) && Distinct(poolOrder)
    requires DepthRewards(s, blocked, period, amount, poolOrder, lpOrder, payOrder).Ok?
    ensures var t := DepthRewards(s, blocked, period, amount, poolOrder, lpOrder, payOrder).value;
            WellFormed(t) && t.lps == s.lps && t.bucket == s.bucket
            && Surplus(t, denom) == Surplus(s, denom)
               - (if denom == NATIVE then Stranded(s, period, amount, poolOrder, lpOrder) else 0)
  {
    hide BlockGrants, Entries, PayEach, Recorded, Topped, Unheld, GrantSum;
    var gs := BlockGrants(s, period, amount, poolOrder);
    BlockGrantsWithin(s, period, amount, poolOrder);
    if gs == [] {
      NoGrants(s, lpOrder);
    } else if !period.distribute {
      ToppedRecorded(s.pools, gs, denom);
    } else {
      UnheldWithin(s, lpOrder, gs);
      ToppedRecorded(s.pools, Unheld(s, lpOrder, gs), denom);
    }
  }

  lemma NoGrants(s: State, lpOrder: seq<LpKey>)
    ensures GrantSum(Unheld(s, lpOrder, [])) == 0
  {
  }

  /** In a distributing block the payment loop always leaves at least the balance there was before the mint. */
  lemma RewardsNeverOverpay(s: State, blocked: set<Address>, period: RewardPeriod, amount: nat,
                            poolOrder: seq<Symbol>, lpOrder: seq<LpKey>, payOrder: seq<Address>)
    requires Distinct(poolOrder) && RewardWalk(s, period, amount, poolOrder, lpOrder, payOrder)
    requires period.distribute ==> Entries(s, lpOrder, ONE, BlockGrants(s, period, amount, poolOrder)).Ok?
    ensures DepthRewards(s, blocked, period, amount, poolOrder, lpOrder, payOrder).Ok?
  {
    hide BlockGrants, Entries, PayEach, Topped, Unheld, GrantSum, AmountAmong, Addresses, Credited;
    var gs := BlockGrants(s, period, amount, poolOrder);
    if gs != [] && period.distribute {
      var es := Entries(s, lpOrder, ONE, gs).value;
      AllottedWithinGrants(s, lpOrder, gs, Addresses(es));
      AllottedWithinGrants(s, lpOrder, gs, Addresses(es) - blocked);
      PayEachSettles(Purse(Balance(s.reserve, NATIVE) + GrantSum(gs), s.users, GrantTotals(s, lpOrder, es)), blocked, es, payOrder);
    }
  }

  /** A reward block goes through exactly when it pays no providers, or every rewarded pool with a provider has units. */
  lemma RewardsExactly(s: State, blocked: set<Address>, period: RewardPeriod, amount: nat,
                       poolOrder: seq<Symbol>, lpOrder: seq<LpKey>, payOrder: seq<Address>)
    requires Distinct(poolOrder) && RewardWalk(s, period, amount, poolOrder, lpOrder, payOrder)
    ensures var gs := BlockGrants(s, period, amount, poolOrder);
            DepthRewards(s, blocked, period, amount, poolOrder, lpOrder, payOrder).Ok?
            <==> period.distribute ==> forall i | 0 <= i < |gs| :: Divisible(s, lpOrder, gs[i].symbol)
    ensures var r := DepthRewards(s, blocked, period, amount, poolOrder, lpOrder, payOrder); r.Err? ==> r.error == PanicArithmetic
  {
    hide BlockGrants, Entries, PayEach, Topped, Unheld, GrantSum, GrantTotals, Divisible, WalksAll;
    var gs := BlockGrants(s, period, amount, poolOrder);
    EntriesExactly(s, lpOrder, ONE, gs);
    if period.distribute ==> Entries(s, lpOrder, ONE, gs).Ok? {
      RewardsNeverOverpay(s, blocked, period, amount, poolOrder, lpOrder, payOrder);
    }
  }

  /** The state after a reward block does not depend on the order in which the LP map is walked. */
  lemma RewardsSameInEveryOrder(s: State, blocked: set<Address>, period: RewardPeriod, amount: nat,
                                poolOrder: seq<Symbol>, lpOrder: seq<LpKey>, one: seq<Address>, other: seq<Address>)
    requires RewardWalk(s, period, amount, poolOrder, lpOrder, one) && RewardWalk(s, period, amount, poolOrder, lpOrder, other)
    ensures DepthRewards(s, blocked, period, amount, poolOrder, lpOrder, one)
         == DepthRewards(s, blocked, period, amount, poolOrder, lpOrder, other)
  {
    hide BlockGrants, Entries, PayEach, Topped, Unheld, GrantSum, AmountAmong, Addresses, Settled, GrantTotals;
    var gs := BlockGrants(s, period, amount, poolOrder);
    if gs != [] && period.distribute && Entries(s, lpOrder, ONE, gs).Ok? {
      var es := Entries(s, lpOrder, ONE, gs).value;
      AllottedWithinGrants(s, lpOrder, gs, Addresses(es));
      var purse := Purse(Balance(s.reserve, NATIVE) + GrantSum(gs), s.users, GrantTotals(s, lpOrder, es));
      PayEachSettles(purse, blocked, es, one);
      PayEachSettles(purse, blocked, es, other);
    }
  }

  /** The surplus is kept exactly when every rewarded pool has a provider. */
  lemma RewardsKeepSurplusExactly(s: State, blocked: set<Address>, period: RewardPeriod, amount: nat,
                                  poolOrder: seq<Symbol>, lpOrder: seq<LpKey>, payOrder: seq<Address>)
    requires WellFormed(s) && Distinct(poolOrder)
    requires DepthRewards(s, blocked, period, amount, poolOrder, lpOrder, payOrder).Ok?
    ensures var t := DepthRewards(s, blocked, period, amount, poolOrder, lpOrder, payOrder).value;
            var gs := BlockGrants(s, period, amount, poolOrder);
            Surplus(t, NATIVE) == Surplus(s, NATIVE)
            <==> period.distribute ==> forall i | 0 <= i < |gs| :: Holders(s, lpOrder, gs[i].symbol) != []
  {
    hide BlockGrants, Entries, DepthRewards, Surplus, Unheld, GrantSum, Holders;
    DepthRewardsSurplus(s, blocked, period, amount, poolOrder, lpOrder, payOrder, NATIVE);
    BlockGrantsWithin(s, period, amount, poolOrder);
    UnheldWithin(s, lpOrder, BlockGrants(s, period, amount, poolOrder));
  }

  // ---------- The state a reward block reaches ----------

  /** Topping up gives each pool its own grants. */
  lemma {:induction false} ToppedAt(pools: map<Symbol, Pool>, gs: seq<Grant>, p: Symbol)
    requires GrantsTo(pools, gs) && p in pools
    ensures p in Topped(pools, gs) && Topped(pools, gs)[p] == pools[p].(native := pools[p].native + GrantTo(gs, p))
    decreases |gs|
  {
    if gs != [] {
      var pool := pools[gs[0].symbol];
      ToppedAt(pools[gs[0].symbol := pool.(native := pool.native + gs[0].depth)], gs[1..], p);
    }
  }

  lemma {:induction false} UnheldAt(s: State, lpOrder: seq<LpKey>, gs: seq<Grant>, p: Symbol)
    ensures GrantTo(Unheld(s, lpOrder, gs), p) == if Holders(s, lpOrder, p) == [] then GrantTo(gs, p) else 0
  {
    hide Holders;
    if gs != [] {
      UnheldAt(s, lpOrder, gs[1..], p);
      var rest := Unheld(s, lpOrder, gs[1..]);
      if Holders(s, lpOrder, gs[0].symbol) == [] { assert ([gs[0]] + rest)[1..] == rest; }
    }
  }

  /** Each pool has its reward, the module account the mint, and no other account anything. */
  ghost predicate RewardedPools(s: State, t: State, gs: seq<Grant>) {
    && t.lps == s.lps && t.bucket == s.bucket && t.users == s.users && t.pools.Keys == s.pools.Keys
    && t.reserve == s.reserve[NATIVE := Balance(s.reserve, NATIVE) + GrantSum(gs)]
    && (forall p | p in s.pools :: t.pools[p] == s.pools[p].(native := s.pools[p].native + GrantTo(gs, p)))
  }

  /** Each accepted provider has its share of its pools' rewards, pools without providers have theirs, and the rest is burned. */
  ghost predicate RewardedProviders(s: State, t: State, gs: seq<Grant>, lpOrder: seq<LpKey>, blocked: set<Address>) {
    && t.lps == s.lps && t.bucket == s.bucket && t.pools.Keys == s.pools.Keys
    && t.reserve == s.reserve[NATIVE := Balance(s.reserve, NATIVE)]
    && (forall p | p in s.pools ::
          t.pools[p] == s.pools[p].(native := s.pools[p].native + if Holders(s, lpOrder, p) == [] then GrantTo(gs, p) else 0))
    && var es := Entries(s, lpOrder, ONE, gs);
       es.Ok? && t.users == Credited(s.users, es.value, Addresses(es.value) - blocked)
  }

  /** The state after a reward block, with no order in it. */
  lemma RewardsOutcome(s: State, blocked: set<Address>, period: RewardPeriod, amount: nat,
                       poolOrder: seq<Symbol>, lpOrder: seq<LpKey>, payOrder: seq<Address>)
    requires Distinct(poolOrder) && RewardWalk(s, period, amount, poolOrder, lpOrder, payOrder)
    requires DepthRewards(s, blocked, period, amount, poolOrder, lpOrder, payOrder).Ok?
    ensures var t, gs := DepthRewards(s, blocked, period, amount, poolOrder, lpOrder, payOrder).value, BlockGrants(s, period, amount, poolOrder);
            if gs == [] then t == s
            else if period.distribute then RewardedProviders(s, t, gs, lpOrder, blocked)
            else RewardedPools(s, t, gs)
  {
    hide BlockGrants, Entries, PayEach, Topped, Unheld, GrantSum, GrantTo, AmountAmong, Addresses, Credited, GrantTotals, Holders, Debited;
    var gs := BlockGrants(s, period, amount, poolOrder);
    BlockGrantsWithin(s, period, amount, poolOrder);
    if gs != [] && !period.distribute {
      ToppedEverywhere(s.pools, gs);
    } else if gs != [] {
      var es := Entries(s, lpOrder, ONE, gs).value;
      UnheldWithin(s, lpOrder, gs);
      ToppedEverywhere(s.pools, Unheld(s, lpOrder, gs));
      forall p | p in s.pools
        ensures GrantTo(Unheld(s, lpOrder, gs), p) == if Holders(s, lpOrder, p) == [] then GrantTo(gs, p) else 0
      {
        UnheldAt(s, lpOrder, gs, p);
      }
      AllottedWithinGrants(s, lpOrder, gs, Addresses(es));
      AllottedWithinGrants(s, lpOrder, gs, Addresses(es) - blocked);
      PayEachSettles(Purse(Balance(s.reserve, NATIVE) + GrantSum(gs), s.users, GrantTotals(s, lpOrder, es)), blocked, es, payOrder);
    }
  }

  lemma ToppedEverywhere(pools: map<Symbol, Pool>, gs: seq<Grant>)
    requires GrantsTo(pools, gs)
    ensures Topped(pools, gs).Keys == pools.Keys
    ensures forall p | p in pools :: Topped(pools, gs)[p] == pools[p].(native := pools[p].native + GrantTo(gs, p))
  {
    hide Topped, GrantTo;
    ToppedKeys(pools, gs);
    forall p | p in pools ensures Topped(pools, gs)[p] == pools[p].(native := pools[p].native + GrantTo(gs, p)) {
      ToppedAt(pools, gs, p);
    }
  }

  lemma {:induction false} ToppedKeys(pools: map<Symbol, Pool>, gs: seq<Grant>)
    requires GrantsTo(pools, gs)
    ensures Topped(pools, gs).Keys == pools.Keys
    decreases |gs|
  {
    if gs != [] {
      var pool := pools[gs[0].symbol];
      var next := pools[gs[0].symbol := pool.(native := pool.native + gs[0].depth)];
      assert next.Keys == pools.Keys;
      ToppedKeys(next, gs[1..]);
    }
  }
}
