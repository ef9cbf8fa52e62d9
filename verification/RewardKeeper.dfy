/** Depth rewards as the keeper runs them: the accumulator, the loops over the pools, the mint and the burn. */
module RewardKeeper {
  import opened Decimal
  import opened Distribution
  import opened DistributionSolvency
  import opened EndBlocker
  import opened Guarantees
  import opened Keeper
  import opened Ledger
  import opened Payouts
  import opened Rewards
  import opened RewardsSolvency
  import opened Runs
  import opened Types
  import Solvency

  lemma TotalDepthFrom(s: State, period: RewardPeriod, poolOrder: seq<Symbol>, i: nat)
    requires i < |poolOrder| && poolOrder[i] in s.pools
    ensures TotalDepth(s, period, poolOrder[i..])
         == Mul(s.pools[poolOrder[i]].native * ONE, period.Multiplier(poolOrder[i])) + TotalDepth(s, period, poolOrder[i + 1..])
  {
    assert poolOrder[i..][0] == poolOrder[i] && poolOrder[i..][1..] == poolOrder[i + 1..];
  }

  /** calcTotalDepth. */
  method CalcTotalDepth(s: State, period: RewardPeriod, poolOrder: seq<Symbol>) returns (total: nat)
    requires Members(poolOrder) == s.pools.Keys
    ensures total == TotalDepth(s, period, poolOrder)
  {
    hide Mul, TotalDepth;
    total := 0;
    assert poolOrder[0..] == poolOrder;
    for i := 0 to |poolOrder|
      invariant total + TotalDepth(s, period, poolOrder[i..]) == TotalDepth(s, period, poolOrder)
    {
      assert poolOrder[i] in Members(poolOrder);
      TotalDepthFrom(s, period, poolOrder, i);
      total := total + Mul(s.pools[poolOrder[i]].native * ONE, period.Multiplier(poolOrder[i]));
    }
    NoDepth(s, period, poolOrder);
  }

  lemma NoDepth(s: State, period: RewardPeriod, poolOrder: seq<Symbol>)
    ensures TotalDepth(s, period, poolOrder[|poolOrder|..]) == 0
  {
  }

  /** One turn of the tuple loop. */
  lemma RewardGrantsFrom(s: State, period: RewardPeriod, poolOrder: seq<Symbol>, amount: nat, totalDepth: nat, remaining: nat, i: nat)
    requires totalDepth > 0 && i <= |poolOrder|
    requires i < |poolOrder| ==> poolOrder[i] in s.pools
    ensures RewardGrants(s, period, poolOrder[i..], amount, totalDepth, remaining)
         == if remaining == 0 || i == |poolOrder| then []
            else
              var reward := PoolReward(period.Multiplier(poolOrder[i]), s.pools[poolOrder[i]].native, totalDepth, amount);
              var granted := if reward > remaining then remaining else reward;
              if reward == 0 then RewardGrants(s, period, poolOrder[i + 1..], amount, totalDepth, remaining)
              else [Grant(poolOrder[i], granted)] + RewardGrants(s, period, poolOrder[i + 1..], amount, totalDepth, remaining - granted)
  {
    hide PoolReward;
    if i < |poolOrder| {
      assert poolOrder[i..][0] == poolOrder[i] && poolOrder[i..][1..] == poolOrder[i + 1..];
    }
  }

  lemma {:induction false} GrantSumSnoc(gs: seq<Grant>, g: Grant)
    ensures GrantSum(gs + [g]) == GrantSum(gs) + g.depth
  {
    if gs == [] {
      assert gs + [g] == [g];
    } else {
      GrantSumSnoc(gs[1..], g);
      assert (gs + [g])[1..] == gs[1..] + [g];
    }
  }

  /** CollectPoolRewardTuples: the mint is the sum of the tuples, and never more than the amount. */
  method CollectPoolRewardTuples(s: State, period: RewardPeriod, poolOrder: seq<Symbol>, amount: nat, totalDepth: nat)
    returns (tuples: seq<Grant>, minted: nat)
    requires totalDepth > 0 && Members(poolOrder) == s.pools.Keys
    ensures tuples == RewardGrants(s, period, poolOrder, amount, totalDepth, amount)
    ensures minted == GrantSum(tuples) <= amount
  {
    hide RewardGrants, PoolReward, GrantSum;
    tuples, minted := [], 0;
    var remaining := amount;
    assert GrantSum([]) == 0 by { NothingGranted(); }
    assert poolOrder[0..] == poolOrder;
    for i := 0 to |poolOrder|
      invariant minted == GrantSum(tuples) && minted + remaining == amount
      invariant RewardGrants(s, period, poolOrder, amount, totalDepth, amount)
             == tuples + RewardGrants(s, period, poolOrder[i..], amount, totalDepth, remaining)
    {
      assert poolOrder[i] in Members(poolOrder);
      RewardGrantsFrom(s, period, poolOrder, amount, totalDepth, remaining, i);
      if remaining == 0 { return; }
      var reward := PoolReward(period.Multiplier(poolOrder[i]), s.pools[poolOrder[i]].native, totalDepth, amount);
      if reward == 0 { continue; }
      if reward > remaining { reward := remaining; }
      ghost var rest := RewardGrants(s, period, poolOrder[i + 1..], amount, totalDepth, remaining - reward);
      assert tuples + ([Grant(poolOrder[i], reward)] + rest) == tuples + [Grant(poolOrder[i], reward)] + rest;
      GrantSumSnoc(tuples, Grant(poolOrder[i], reward));
      minted := minted + reward;
      remaining := remaining - reward;
      tuples := tuples + [Grant(poolOrder[i], reward)];
    }
    RewardGrantsFrom(s, period, poolOrder, amount, totalDepth, remaining, |poolOrder|);
  }

  lemma NothingGranted()
    ensures GrantSum([]) == 0
  {
  }

  // ---------- The tuple loop ----------

  /** The grants that go into the pools themselves. */
  function Kept(s: State, distribute: bool, lpOrder: seq<LpKey>, gs: seq<Grant>): seq<Grant> {
    if distribute then Unheld(s, lpOrder, gs) else gs
  }

  lemma KeptFrom(s: State, distribute: bool, lpOrder: seq<LpKey>, gs: seq<Grant>, i: nat, pools: map<Symbol, Pool>)
    requires i < |gs| && gs[i].symbol in pools
    ensures var rest := Kept(s, distribute, lpOrder, gs[i + 1..]);
            var pool := pools[gs[i].symbol];
            Topped(pools, Kept(s, distribute, lpOrder, gs[i..]))
            == if distribute && Holders(s, lpOrder, gs[i].symbol) != [] then Topped(pools, rest)
               else Topped(pools[gs[i].symbol := pool.(native := pool.native + gs[i].depth)], rest)
  {
    hide Holders;
    assert gs[i..][0] == gs[i] && gs[i..][1..] == gs[i + 1..];
    var all, rest := Kept(s, distribute, lpOrder, gs[i..]), Kept(s, distribute, lpOrder, gs[i + 1..]);
    if distribute && Holders(s, lpOrder, gs[i].symbol) != [] {
      assert all == rest;
    } else {
      assert all[0] == gs[i] && all[1..] == rest;
    }
  }

  lemma EntriesFromGrant(s: State, lpOrder: seq<LpKey>, rate: Fraction, gs: seq<Grant>, i: nat)
    requires i < |gs|
    ensures Entries(s, lpOrder, rate, gs[i..])
         == match GrantEntries(s, lpOrder, rate, gs[i])
            case Err(e) => Err(e)
            case Ok(first) =>
              match Entries(s, lpOrder, rate, gs[i + 1..])
              case Err(e) => Err(e)
              case Ok(rest) => Ok(first + rest)
  {
    hide GrantEntries;
    assert gs[i..][0] == gs[i] && gs[i..][1..] == gs[i + 1..];
  }

  /** addRewardsToPool. */
  method AddRewardsToPool(k: Keeper, g: Grant)
    requires g.symbol in k.pools
    modifies k`pools
    ensures k.pools == old(k.pools)[g.symbol := old(k.pools)[g.symbol].(native := old(k.pools)[g.symbol].native + g.depth)]
  {
    var pool := k.pools[g.symbol];
    pool := pool.(native := pool.native + g.depth);
    k.pools := k.pools[g.symbol := pool];
  }

  /** One tuple: into the providers' maps when distributing, into the pool otherwise or when it has no providers. */
  method ShareOne(k: Keeper, s: State, distribute: bool, partitions: map<Symbol, seq<Holder>>, ghost lpOrder: seq<LpKey>, g: Grant, p: Payouts)
    returns (r: Result<()>)
    requires IsPartition(partitions, s, lpOrder) && g.symbol in s.pools && g.symbol in k.pools && p.Valid()
    modifies k`pools, p
    ensures p.Valid()
    ensures r.Err? ==> distribute && GrantEntries(s, lpOrder, ONE, g) == Err(r.error)
    ensures r.Ok? && distribute ==>
              GrantEntries(s, lpOrder, ONE, g).Ok? && p.entries == old(p.entries) + GrantEntries(s, lpOrder, ONE, g).value
    ensures r.Ok? ==>
              k.pools == (if distribute && Holders(s, lpOrder, g.symbol) != [] then old(k.pools)
                          else old(k.pools)[g.symbol := old(k.pools)[g.symbol].(native := old(k.pools)[g.symbol].native + g.depth)])
  {
    hide GrantEntries, IsPartition, Holders, Total;
    if distribute {
      var held :- CollectGrant(s, partitions, lpOrder, ONE, g, p);
      if !held {
        AddRewardsToPool(k, g);
      }
    } else {
      AddRewardsToPool(k, g);
    }
    r := Ok(());
  }

  lemma CompletesNext(spec: Result<seq<Entry>>, es: seq<Entry>, first: seq<Entry>, rest: Result<seq<Entry>>)
    requires Completes(spec, es, match rest case Err(e) => Err(e) case Ok(more) => Ok(first + more))
    ensures Completes(spec, es + first, rest)
  {
    if rest.Ok? { assert es + (first + rest.value) == es + first + rest.value; }
  }

  /** The loop over the tuples. */
  method ShareOut(k: Keeper, s: State, distribute: bool, lpOrder: seq<LpKey>, gs: seq<Grant>) returns (r: Result<()>, p: Payouts)
    requires s.pools == k.pools && Members(lpOrder) == s.lps.Keys && GrantsTo(s.pools, gs)
    modifies k`pools
    ensures fresh(p) && p.Valid()
    ensures r.Ok? ==> k.pools == Topped(s.pools, Kept(s, distribute, lpOrder, gs))
    ensures !distribute ==> r.Ok?
    ensures distribute ==> match Entries(s, lpOrder, ONE, gs)
                           case Err(e) => r == Err(e)
                           case Ok(es) => r.Ok? && p.entries == es
  {
    hide Entries, GrantEntries, IsPartition, Kept, Topped, Holders, Completes;
    p := new Payouts();
    var partitions := PartitionProviders(s, lpOrder);
    ghost var spec, kept := Entries(s, lpOrder, ONE, gs), Topped(s.pools, Kept(s, distribute, lpOrder, gs));
    StartCollecting(spec);
    assert gs[0..] == gs;
    for i := 0 to |gs|
      invariant p.Valid() && k.pools.Keys == s.pools.Keys
      invariant distribute ==> Completes(spec, p.entries, Entries(s, lpOrder, ONE, gs[i..]))
      invariant kept == Topped(k.pools, Kept(s, distribute, lpOrder, gs[i..]))
    {
      ghost var es, rest := p.entries, Entries(s, lpOrder, ONE, gs[i + 1..]);
      KeptFrom(s, distribute, lpOrder, gs, i, k.pools);
      EntriesFromGrant(s, lpOrder, ONE, gs, i);
      var shared := ShareOne(k, s, distribute, partitions, lpOrder, gs[i], p);
      if shared.Err? {
        CompletesErr(spec, es, Entries(s, lpOrder, ONE, gs[i..]));
        return shared, p;
      }
      if distribute { CompletesNext(spec, es, GrantEntries(s, lpOrder, ONE, gs[i]).value, rest); }
    }
    DoneSharing(s, distribute, lpOrder, gs, k.pools);
    if distribute { CompletesDone(spec, p.entries); }
    r := Ok(());
  }

  lemma CompletesErr(spec: Result<seq<Entry>>, es: seq<Entry>, rest: Result<seq<Entry>>)
    requires Completes(spec, es, rest) && rest.Err?
    ensures spec == Err(rest.error)
  {
  }

  lemma CompletesDone(spec: Result<seq<Entry>>, es: seq<Entry>)
    requires Completes(spec, es, Ok([]))
    ensures spec == Ok(es)
  {
    assert es + [] == es;
  }

  lemma DoneSharing(s: State, distribute: bool, lpOrder: seq<LpKey>, gs: seq<Grant>, pools: map<Symbol, Pool>)
    ensures Topped(pools, Kept(s, distribute, lpOrder, gs[|gs|..])) == pools
    ensures Entries(s, lpOrder, ONE, gs[|gs|..]) == Ok([])
  {
  }

  // ---------- A reward block ----------

  /** The end of a distributing block: pay, then burn whatever the module account gained over `before`. */
  method PayAndBurn(k: Keeper, p: Payouts, blocked: set<Address>, before: nat) returns (r: Result<()>, ghost payOrder: seq<Address>)
    requires p.Valid()
    modifies k`users, k`reserve, p`poolFury
    ensures WalksAll(p.entries, payOrder)
    ensures var purse := PayEach(old(PurseOf(k, p)), blocked, p.entries, payOrder);
            match Sub(purse.reserve, before)
            case Err(e) => r == Err(e)
            case Ok(excess) =>
              r.Ok? && k.users == purse.users && k.reserve == old(k.reserve)[NATIVE := purse.reserve - excess]
  {
    hide PayEach, WalksAll;
    payOrder := Transfer(k, p, blocked);
    var after := Balance(k.reserve, NATIVE);
    var excess :- Sub(after, before);
    if excess != 0 {
      k.reserve := k.reserve[NATIVE := after - excess];
    }
    r := Ok(());
  }

  /** The mint, the loop over the tuples, and the payments. */
  method MintAndShare(k: Keeper, blocked: set<Address>, distribute: bool, lpOrder: seq<LpKey>, gs: seq<Grant>, minted: nat)
    returns (r: Result<()>, ghost payOrder: seq<Address>)
    requires Members(lpOrder) == k.lps.Keys && GrantsTo(k.pools, gs) && minted == GrantSum(gs)
    modifies k
    ensures k.Yields(Granted(old(k.Store()), blocked, distribute, gs, lpOrder, payOrder), r)
    ensures var es := Entries(old(k.Store()), lpOrder, ONE, gs); distribute && es.Ok? ==> WalksAll(es.value, payOrder)
  {
    hide GrantSum, Entries, PayEach, Topped, Unheld, WalksAll, GrantTotals;
    payOrder := [];
    var s, before := k.Store(), Balance(k.reserve, NATIVE);
    k.reserve := k.reserve[NATIVE := before + minted];
    var shared, p := ShareOut(k, s, distribute, lpOrder, gs);
    if shared.Err? { return shared, payOrder; }
    if !distribute { return Ok(()), payOrder; }
    ghost var purse := PurseOf(k, p);
    r, payOrder := PayAndBurn(k, p, blocked, before);
    PayEachFrame(purse, purse.(pools := GrantTotals(s, lpOrder, p.entries)), blocked, p.entries, payOrder);
  }

  /** DistributeDepthRewards. */
  method DistributeDepthRewards(k: Keeper, blocked: set<Address>, period: RewardPeriod, amount: nat, poolOrder: seq<Symbol>, lpOrder: seq<LpKey>)
    returns (r: Result<()>, minted: nat, ghost payOrder: seq<Address>)
    requires ListsStore(k.Store(), poolOrder, lpOrder)
    modifies k
    ensures RewardWalk(old(k.Store()), period, amount, poolOrder, lpOrder, payOrder)
    ensures k.Yields(DepthRewards(old(k.Store()), blocked, period, amount, poolOrder, lpOrder, payOrder), r)
    ensures minted == GrantSum(BlockGrants(old(k.Store()), period, amount, poolOrder)) <= amount
    ensures r.Ok? && old(k.Valid()) && Stranded(old(k.Store()), period, amount, poolOrder, lpOrder) <= Solvency.Surplus(old(k.Store()), NATIVE)
            ==> k.Valid()
  {
    hide TotalDepth, RewardGrants, GrantSum, Entries, Granted, WalksAll, Sound, Stranded, Solvency.Surplus, Unheld;
    minted, payOrder := 0, [];
    var s := k.Store();
    NothingGranted();
    NoEntries(s, lpOrder);
    if amount == 0 { return Ok(()), minted, payOrder; }
    var totalDepth := CalcTotalDepth(s, period, poolOrder);
    if totalDepth == 0 { return Ok(()), minted, payOrder; }
    var tuples, coins := CollectPoolRewardTuples(s, period, poolOrder, amount, totalDepth);
    minted := coins;
    if tuples == [] { return Ok(()), minted, payOrder; }
    BlockGrantsWithin(s, period, amount, poolOrder);
    r, payOrder := MintAndShare(k, blocked, period.distribute, lpOrder, tuples, minted);
    if r.Ok? && Sound(s) && Stranded(s, period, amount, poolOrder, lpOrder) <= Solvency.Surplus(s, NATIVE) {
      RewardsSound(s, RewardDepth(blocked, period, amount, poolOrder, lpOrder, payOrder), k.Store());
    }
  }

  lemma RewardsSound(s: State, e: Event, t: State)
    requires Sound(s) && e.RewardDepth? && ValidEvent(s, e)
    requires DepthRewards(s, e.blocked, e.period, e.amount, e.poolOrder, e.lpOrder, e.payOrder) == Ok(t)
    requires Stranded(s, e.period, e.amount, e.poolOrder, e.lpOrder) <= Solvency.Surplus(s, NATIVE)
    ensures Sound(t)
  {
    hide DepthRewards, Sound, ValidEvent, Stranded, Solvency.Surplus;
    assert Step(s, e) == t;
    BlockSound(s, e);
  }

  lemma NoEntries(s: State, lpOrder: seq<LpKey>)
    ensures Entries(s, lpOrder, ONE, []) == Ok([]) && WalksAll([], [])
  {
    assert Addresses([]) == {};
    assert Members<Address>([]) == {};
  }

  /**
   The rewards half of EndBlocker: save the block's share up, or hand out all that was saved. The accumulator
   `accu` is a store entry of its own. The only failure is the panic of a distribution over a pool with a provider
   and no units, which leaves the accumulator as it was.
   */
  method EndBlockRewards(k: Keeper, accu: nat, height: nat, period: RewardPeriod, inForce: bool,
                         blocked: set<Address>, poolOrder: seq<Symbol>, lpOrder: seq<LpKey>)
    returns (r: Result<()>, next: nat, minted: nat, ghost payOrder: seq<Address>)
    requires ListsStore(k.Store(), poolOrder, lpOrder)
    requires ValidBlock(RewardBlock(k.Store(), height, period, inForce, poolOrder))
    modifies k
    ensures r.Ok? ==> (next, minted) == AccumulatorStep(accu, RewardBlock(old(k.Store()), height, period, inForce, poolOrder))
    ensures r.Err? ==> r.error == PanicArithmetic && next == accu && minted == 0
    ensures minted + next <= accu + (if inForce then period.allocation / (period.end - period.start + 1) else 0)
    // A share of the allocation is saved every block, and all of it offered at every mod-th block from the start.
    ensures r.Ok? && inForce && period.allocation > 0 ==>
              next == if OnGrid(period, height) then 0 else accu + period.allocation / (period.end - period.start + 1)
    ensures if inForce && period.allocation != 0 && period.DistributesAt(height)
            then
              var amount := accu + period.PerBlock();
              && RewardWalk(old(k.Store()), period, amount, poolOrder, lpOrder, payOrder)
              && k.Yields(DepthRewards(old(k.Store()), blocked, period, amount, poolOrder, lpOrder, payOrder), r)
            else r.Ok? && k.Store() == old(k.Store())
  {
    hide BlockGrants, GrantSum, DepthRewards, RewardWalk, Divisible, OnGrid, RewardPeriod.DistributesAt, RewardPeriod.PerBlock;
    r, next, minted, payOrder := Ok(()), accu, 0, [];
    BlockShare(period);
    if inForce && period.allocation != 0 {
      DistributesOnGrid(period, height);
      var amount := accu + period.PerBlock();
      if period.DistributesAt(height) {
        r, minted, payOrder := DistributeDepthRewards(k, blocked, period, amount, poolOrder, lpOrder);
        RewardsExactly(old(k.Store()), blocked, period, amount, poolOrder, lpOrder, payOrder);
        if r.Ok? { next := 0; } else { minted := 0; }
      } else {
        next := amount;
      }
    }
  }
}
