/**
 Depth rewards: a fixed amount a block, saved up between distribution blocks, minted and split over the pools
 by weighted depth, and either added to the pools or paid to their providers.
 */
module Rewards {
  import opened Decimal
  import opened Distribution
  import opened Ledger
  import opened Sums
  import opened Types

  datatype RewardPeriod = RewardPeriod(start: nat, end: nat, allocation: nat, mod: nat, distribute: bool,
                                       multipliers: map<Symbol, nat>, defaultMultiplier: nat)
  {
    /** GetPoolMultiplier. */
    function Multiplier(symbol: Symbol): nat {
      if symbol in multipliers then multipliers[symbol] else defaultMultiplier
    }

    function Length(): nat
      requires start <= end
    {
      end - start + 1
    }

    /** CalcBlockDistribution. */
    function PerBlock(): nat
      requires start <= end
    {
      allocation / Length()
    }

    /** IsDistributionBlockPure, a zero mod meaning every block. */
    predicate DistributesAt(height: nat)
      requires start <= height
    {
      (height - start) % (if mod == 0 then 1 else mod) == 0
    }
  }

  /** calcTotalDepth. */
  function TotalDepth(s: State, period: RewardPeriod, poolOrder: seq<Symbol>): nat {
    if poolOrder == [] then 0
    else
      (if poolOrder[0] in s.pools then Mul(s.pools[poolOrder[0]].native * ONE, period.Multiplier(poolOrder[0])) else 0)
      + TotalDepth(s, period, poolOrder[1..])
  }

  /** calcPoolDistribution. */
  function PoolReward(multiplier: nat, native: nat, totalDepth: nat, amount: nat): nat
    requires totalDepth > 0
  {
    Mul(Quo(Mul(native * ONE, multiplier), totalDepth), amount * ONE) / ONE
  }

  /** CollectPoolRewardTuples: pools in store order until the money runs out. */
  function RewardGrants(s: State, period: RewardPeriod, poolOrder: seq<Symbol>, amount: nat, totalDepth: nat, remaining: nat): seq<Grant>
    requires totalDepth > 0
  {
    if poolOrder == [] || remaining == 0 then []
    else if poolOrder[0] !in s.pools then RewardGrants(s, period, poolOrder[1..], amount, totalDepth, remaining)
    else
      var reward := PoolReward(period.Multiplier(poolOrder[0]), s.pools[poolOrder[0]].native, totalDepth, amount);
      if reward == 0 then RewardGrants(s, period, poolOrder[1..], amount, totalDepth, remaining)
      else
        var granted := if reward > remaining then remaining else reward;
        [Grant(poolOrder[0], granted)] + RewardGrants(s, period, poolOrder[1..], amount, totalDepth, remaining - granted)
  }

  /** The coins to mint. */
  function GrantSum(gs: seq<Grant>): nat {
    if gs == [] then 0 else gs[0].depth + GrantSum(gs[1..])
  }

  /** addRewardsToPool for each grant. */
  function Topped(pools: map<Symbol, Pool>, gs: seq<Grant>): map<Symbol, Pool> {
    if gs == [] then pools
    else if gs[0].symbol !in pools then Topped(pools, gs[1..])
    else
      var pool := pools[gs[0].symbol];
      Topped(pools[gs[0].symbol := pool.(native := pool.native + gs[0].depth)], gs[1..])
  }

  /** The grants to pools without a provider: they go to the pool even in a distributing period. */
  function Unheld(s: State, lpOrder: seq<LpKey>, gs: seq<Grant>): seq<Grant> {
    if gs == [] then []
    else if Holders(s, lpOrder, gs[0].symbol) == [] then [gs[0]] + Unheld(s, lpOrder, gs[1..])
    else Unheld(s, lpOrder, gs[1..])
  }

  /** The grants of one distribution block. */
  function BlockGrants(s: State, period: RewardPeriod, amount: nat, poolOrder: seq<Symbol>): seq<Grant> {
    var depth := TotalDepth(s, period, poolOrder);
    if amount == 0 || depth == 0 then [] else RewardGrants(s, period, poolOrder, amount, depth, amount)
  }

  /**
   The mint, and what becomes of it. When distributing, whatever the module account gained over its balance
   before the mint is burned at the end.
   */
  function Granted(s: State, blocked: set<Address>, distribute: bool, gs: seq<Grant>,
                   lpOrder: seq<LpKey>, payOrder: seq<Address>): Result<State>
  {
    var before := Balance(s.reserve, NATIVE);
    if !distribute then
      Ok(s.(reserve := s.reserve[NATIVE := before + GrantSum(gs)], pools := Topped(s.pools, gs)))
    else
      var es :- Entries(s, lpOrder, ONE, gs);
      var purse := PayEach(Purse(before + GrantSum(gs), s.users, GrantTotals(s, lpOrder, es)), blocked, es, payOrder);
      var excess :- Sub(purse.reserve, before);
      Ok(s.(reserve := s.reserve[NATIVE := purse.reserve - excess], users := purse.users,
            pools := Topped(s.pools, Unheld(s, lpOrder, gs))))
  }

  /** DistributeDepthRewards. */
  function DepthRewards(s: State, blocked: set<Address>, period: RewardPeriod, amount: nat,
                        poolOrder: seq<Symbol>, lpOrder: seq<LpKey>, payOrder: seq<Address>): Result<State>
  {
    var gs := BlockGrants(s, period, amount, poolOrder);
    if gs == [] then Ok(s) else Granted(s, blocked, period.distribute, gs, lpOrder, payOrder)
  }

  /** The grants never exceed the amount, go to distinct pools that exist, and are never empty. */
  lemma {:induction false} RewardGrantsWithin(s: State, period: RewardPeriod, poolOrder: seq<Symbol>, amount: nat, totalDepth: nat, remaining: nat)
    requires totalDepth > 0 && Distinct(poolOrder)
    ensures var gs := RewardGrants(s, period, poolOrder, amount, totalDepth, remaining);
            && GrantSum(gs) <= remaining && DistinctGrants(gs)
            && (forall i | 0 <= i < |gs| :: gs[i].symbol in s.pools && gs[i].symbol in poolOrder && gs[i].depth > 0)
  {
    hide PoolReward;
    if poolOrder != [] && remaining != 0 {
      var rest := poolOrder[1..];
      if poolOrder[0] in s.pools {
        var reward := PoolReward(period.Multiplier(poolOrder[0]), s.pools[poolOrder[0]].native, totalDepth, amount);
        var granted := if reward > remaining then remaining else reward;
        RewardGrantsWithin(s, period, rest, amount, totalDepth, if reward == 0 then remaining else remaining - granted);
      } else {
        RewardGrantsWithin(s, period, rest, amount, totalDepth, remaining);
      }
    }
  }

  lemma BlockGrantsWithin(s: State, period: RewardPeriod, amount: nat, poolOrder: seq<Symbol>)
    requires Distinct(poolOrder)
    ensures var gs := BlockGrants(s, period, amount, poolOrder);
            && GrantSum(gs) <= amount && DistinctGrants(gs)
            && (forall i | 0 <= i < |gs| :: gs[i].symbol in s.pools && gs[i].depth > 0)
  {
    hide RewardGrants, TotalDepth;
    var depth := TotalDepth(s, period, poolOrder);
    if amount != 0 && depth != 0 {
      RewardGrantsWithin(s, period, poolOrder, amount, depth, amount);
    }
  }

  /** A pool's reward is its weight's part of the amount, off by one unit and 10^-18 of the amount. */
  lemma PoolRewardNear(multiplier: nat, native: nat, totalDepth: nat, amount: nat)
    requires totalDepth > 0
    ensures var weighted := Mul(native * ONE, multiplier);
            Near(PoolReward(multiplier, native, totalDepth, amount) * (totalDepth * ONE), weighted * (amount * ONE),
                 totalDepth * (amount + ONE))
  {
    hide Quo, Round;
    var w := Mul(native * ONE, multiplier);
    var q := Quo(w, totalDepth);
    QuoNear(w, totalDepth);
    assert q * (amount * ONE) == q * amount * ONE;
    RoundExact(q * amount);
    RewardNear(q, w, totalDepth, amount, q * amount / ONE);
  }

  lemma RewardNear(q: nat, w: nat, T: nat, amount: nat, r: nat)
    requires Near(q * T, w * ONE, T) && r == q * amount / ONE
    ensures Near(r * (T * ONE), w * (amount * ONE), T * (amount + ONE))
  {
    var exact := q * amount;
    assert r * ONE <= exact < r * ONE + ONE;
    MulLe(r * ONE, exact, T);
    MulLe(exact, r * ONE + ONE, T);
    MulLe(q * T, w * ONE + T, amount);
    MulLe(w * ONE, q * T + T, amount);
    assert exact * T == q * T * amount;
    assert r * ONE * T == r * (T * ONE);
    assert (r * ONE + ONE) * T == r * (T * ONE) + T * ONE;
    assert (w * ONE + T) * amount == w * (amount * ONE) + T * amount;
    assert (q * T + T) * amount == q * T * amount + T * amount;
    assert T * (amount + ONE) == T * amount + T * ONE;
  }

  /** The grants use the money up, or reach every pool and fall short by the roundings only. */
  lemma {:induction false} RewardGrantsNearlyAll(s: State, period: RewardPeriod, poolOrder: seq<Symbol>, amount: nat, totalDepth: nat, remaining: nat)
    requires totalDepth > 0
    ensures var granted := GrantSum(RewardGrants(s, period, poolOrder, amount, totalDepth, remaining));
            granted == remaining
            || granted * (totalDepth * ONE) + |poolOrder| * (totalDepth * (amount + ONE)) >= TotalDepth(s, period, poolOrder) * (amount * ONE)
  {
    hide PoolReward, Mul;
    if poolOrder != [] && remaining != 0 {
      var rest := poolOrder[1..];
      var TT, K, A := totalDepth * ONE, totalDepth * (amount + ONE), amount * ONE;
      if poolOrder[0] !in s.pools {
        RewardGrantsNearlyAll(s, period, rest, amount, totalDepth, remaining);
        NearlyAllStep(GrantSum(RewardGrants(s, period, rest, amount, totalDepth, remaining)), 0, TT, |rest|, K, TotalDepth(s, period, rest), 0, A);
      } else {
        var native, multiplier := s.pools[poolOrder[0]].native, period.Multiplier(poolOrder[0]);
        var reward, w := PoolReward(multiplier, native, totalDepth, amount), Mul(native * ONE, multiplier);
        PoolRewardNear(multiplier, native, totalDepth, amount);
        if reward <= remaining {
          RewardGrantsNearlyAll(s, period, rest, amount, totalDepth, remaining - reward);
          NearlyAllStep(GrantSum(RewardGrants(s, period, rest, amount, totalDepth, remaining - reward)), reward, TT, |rest|, K, TotalDepth(s, period, rest), w, A);
        }
      }
    }
  }

  lemma NearlyAllStep(granted: int, reward: int, TT: int, n: nat, K: nat, W: int, w: int, A: int)
    requires w * A <= reward * TT + K
    ensures granted * TT + n * K >= W * A ==> (granted + reward) * TT + (n + 1) * K >= (w + W) * A
  {
    assert (granted + reward) * TT == granted * TT + reward * TT;
    assert (n + 1) * K == n * K + K;
    assert (w + W) * A == w * A + W * A;
  }

  /** All but one unit and 10^-18 of the amount per pool is handed out, whenever any pool has weight. */
  lemma BlockGrantsNearlyAll(s: State, period: RewardPeriod, amount: nat, poolOrder: seq<Symbol>)
    requires TotalDepth(s, period, poolOrder) > 0
    ensures GrantSum(BlockGrants(s, period, amount, poolOrder)) * ONE + |poolOrder| * (amount + ONE) >= amount * ONE
  {
    hide RewardGrants, TotalDepth;
    var T, n := TotalDepth(s, period, poolOrder), |poolOrder|;
    if amount > 0 {
      RewardGrantsNearlyAll(s, period, poolOrder, amount, T, amount);
      var granted := GrantSum(RewardGrants(s, period, poolOrder, amount, T, amount));
      var short := granted * ONE + n * (amount + ONE);
      assert n * (amount + ONE) >= 0;
      assert short * T == granted * (T * ONE) + n * (T * (amount + ONE));
      assert granted == amount || short * T >= T * (amount * ONE);
      CancelFactor(short, amount * ONE, T);
    } else {
      assert n * (amount + ONE) >= 0;
    }
  }

  lemma CancelFactor(x: int, y: int, k: nat)
    requires k > 0
    ensures x * k >= k * y ==> x >= y
  {
    if x < y { MulLe(x + 1, y, k); }
  }

  // ---------- The accumulator ----------

  /** What the end of one block finds: the ledger, the height, and the period in force, if any. */
  datatype RewardBlock = RewardBlock(s: State, height: nat, period: RewardPeriod, inForce: bool, poolOrder: seq<Symbol>)

  predicate ValidBlock(b: RewardBlock) {
    b.period.start <= b.period.end && Distinct(b.poolOrder)
    && (b.inForce ==> b.period.start <= b.height <= b.period.end)
  }

  predicate ValidBlocks(blocks: seq<RewardBlock>) {
    forall i | 0 <= i < |blocks| :: ValidBlock(blocks[i])
  }

  /** The rewards half of EndBlocker, on the accumulator: what it becomes, and what is minted. */
  function AccumulatorStep(accu: nat, b: RewardBlock): (nat, nat)
    requires ValidBlock(b)
  {
    if !b.inForce || b.period.allocation == 0 then (accu, 0)
    else
      var amount := accu + b.period.PerBlock();
      if b.period.DistributesAt(b.height) then (0, GrantSum(BlockGrants(b.s, b.period, amount, b.poolOrder)))
      else (amount, 0)
  }

  function Minted(accu: nat, blocks: seq<RewardBlock>): (nat, nat)
    requires ValidBlocks(blocks)
    decreases |blocks|
  {
    if blocks == [] then (accu, 0)
    else
      var (next, minted) := AccumulatorStep(accu, blocks[0]);
      var (final, later) := Minted(next, blocks[1..]);
      (final, minted + later)
  }

  /** What the periods in force schedule for a run of blocks. */
  function Scheduled(blocks: seq<RewardBlock>): nat
    requires ValidBlocks(blocks)
  {
    if blocks == [] then 0
    else (if blocks[0].inForce then blocks[0].period.PerBlock() else 0) + Scheduled(blocks[1..])
  }

  /** Over any run of blocks, whatever the periods, pools and mods, minting never overtakes the schedule. */
  lemma {:induction false} MintedWithinSchedule(accu: nat, blocks: seq<RewardBlock>)
    requires ValidBlocks(blocks)
    ensures var (final, minted) := Minted(accu, blocks);
            minted + final <= accu + Scheduled(blocks)
    decreases |blocks|
  {
    hide BlockGrants, RewardPeriod.PerBlock;
    if blocks != [] {
      var b := blocks[0];
      BlockGrantsWithin(b.s, b.period, accu + b.period.PerBlock(), b.poolOrder);
      MintedWithinSchedule(AccumulatorStep(accu, b).0, blocks[1..]);
    }
  }

  /** Consecutive blocks inside one period. */
  predicate WithinPeriod(blocks: seq<RewardBlock>, period: RewardPeriod, from: nat) {
    forall i | 0 <= i < |blocks| ::
      ValidBlock(blocks[i]) && blocks[i].inForce && blocks[i].period == period && blocks[i].height == from + i
  }

  lemma {:induction false} ScheduledWithinPeriod(blocks: seq<RewardBlock>, period: RewardPeriod, from: nat)
    requires WithinPeriod(blocks, period, from) && period.start <= period.end
    ensures Scheduled(blocks) == |blocks| * period.PerBlock()
  {
    if blocks != [] {
      ScheduledWithinPeriod(blocks[1..], period, from + 1);
      assert |blocks| * period.PerBlock() == (|blocks| - 1) * period.PerBlock() + period.PerBlock();
    }
  }

  /** A period that starts with an empty accumulator never mints more than its allocation. */
  lemma MintedWithinAllocation(blocks: seq<RewardBlock>, period: RewardPeriod, from: nat)
    requires WithinPeriod(blocks, period, from) && period.start <= period.end
    ensures var (final, minted) := Minted(0, blocks);
            minted + final <= |blocks| * (period.allocation / (period.end - period.start + 1)) <= period.allocation
  {
    hide Minted, Scheduled, RewardPeriod.PerBlock;
    MintedWithinSchedule(0, blocks);
    ScheduledWithinPeriod(blocks, period, from);
    assert |blocks| <= period.Length() by {
      if blocks != [] { assert ValidBlock(blocks[0]) && ValidBlock(blocks[|blocks| - 1]); }
    }
    AllocationCovers(period, |blocks|);
    assert period.PerBlock() == period.allocation / (period.end - period.start + 1) by { BlockShare(period); }
  }

  lemma BlockShare(period: RewardPeriod)
    requires period.start <= period.end
    ensures period.PerBlock() == period.allocation / (period.end - period.start + 1)
  {
  }

  lemma AllocationCovers(period: RewardPeriod, n: nat)
    requires period.start <= period.end && n <= period.Length()
    ensures n * period.PerBlock() <= period.allocation
  {
    DivBounds(period.allocation, period.Length());
    MulLe(n, period.Length(), period.PerBlock());
  }

  // ---------- The schedule ----------

  /** A block's share is the allocation over the number of blocks of the period, rounded down. */
  lemma PerBlockIsFloor(period: RewardPeriod)
    requires period.start <= period.end
    ensures var n := period.end - period.start + 1;
            period.PerBlock() * n <= period.allocation < (period.PerBlock() + 1) * n
  {
    DivBounds(period.allocation, period.end - period.start + 1);
  }

  /** The heights a period distributes at: every mod-th block from its start, or every block without a mod. */
  ghost predicate OnGrid(period: RewardPeriod, height: nat) {
    exists k: nat :: height == GridHeight(period, k)
  }

  function GridHeight(period: RewardPeriod, k: nat): nat {
    period.start + k * (if period.mod == 0 then 1 else period.mod)
  }

  lemma DistributesOnGrid(period: RewardPeriod, height: nat)
    requires period.start <= height
    ensures period.DistributesAt(height) <==> OnGrid(period, height)
  {
    var m := if period.mod == 0 then 1 else period.mod;
    var passed := height - period.start;
    if period.DistributesAt(height) {
      assert passed == passed / m * m;
      assert height == GridHeight(period, passed / m);
    }
    if OnGrid(period, height) {
      var k: nat :| height == GridHeight(period, k);
      MultipleOf(k, m);
    }
  }

  lemma MultipleOf(k: nat, m: nat)
    requires m > 0
    ensures k * m % m == 0
  {
    DivAtLeast(k * m, m, k);
    DivAtMost(k * m, m, k);
    assert k * m == k * m / m * m + k * m % m;
  }

  /**
   At the end of a block of the period its share is saved; at every mod-th block from the start all that was saved is
   offered to the pools and the accumulator is emptied, and at no other.
   */
  lemma AccumulatorExactly(accu: nat, b: RewardBlock)
    requires ValidBlock(b) && b.inForce && b.period.allocation > 0
    ensures var amount := accu + b.period.allocation / (b.period.end - b.period.start + 1);
            AccumulatorStep(accu, b) == if OnGrid(b.period, b.height) then (0, GrantSum(BlockGrants(b.s, b.period, amount, b.poolOrder)))
                                        else (amount, 0)
  {
    hide BlockGrants, GrantSum, OnGrid;
    DistributesOnGrid(b.period, b.height);
  }

  /** Between distributions the accumulator grows by one share a block, and nothing is minted. */
  lemma {:induction false} SavesUp(accu: nat, blocks: seq<RewardBlock>, period: RewardPeriod, from: nat)
    requires WithinPeriod(blocks, period, from) && period.start <= period.end
    requires forall i | 0 <= i < |blocks| :: !OnGrid(period, blocks[i].height)
    ensures ValidBlocks(blocks) && Minted(accu, blocks) == (accu + |blocks| * (period.allocation / (period.end - period.start + 1)), 0)
    decreases |blocks|
  {
    hide AccumulatorStep, OnGrid;
    if blocks != [] {
      var b, share := blocks[0], period.allocation / (period.end - period.start + 1);
      assert ValidBlock(b) && b.inForce && b.period == period && !OnGrid(period, b.height);
      if period.allocation > 0 { AccumulatorExactly(accu, b); } else { NothingAllocated(accu, b); }
      forall i | 0 <= i < |blocks[1..]| ensures blocks[1..][i] == blocks[i + 1] {}
      SavesUp(accu + share, blocks[1..], period, from + 1);
      assert |blocks| * share == share + (|blocks| - 1) * share;
    }
  }

  lemma NothingAllocated(accu: nat, b: RewardBlock)
    requires ValidBlock(b) && b.period.allocation == 0
    ensures AccumulatorStep(accu, b) == (accu, 0) && 0 / (b.period.end - b.period.start + 1) == 0
  {
  }

  // ---------- Weights ----------

  /** A pool's weight: its native balance times its own multiplier, or the period's default one. */
  function Weight(s: State, period: RewardPeriod, p: Symbol): nat
    requires p in s.pools
  {
    s.pools[p].native * (if p in period.multipliers then period.multipliers[p] else period.defaultMultiplier)
  }

  lemma WeightExact(s: State, period: RewardPeriod, p: Symbol)
    requires p in s.pools
    ensures Mul(s.pools[p].native * ONE, period.Multiplier(p)) == Weight(s, period, p)
  {
    hide Round;
    var n, m := s.pools[p].native, period.Multiplier(p);
    assert n * ONE * m == n * m * ONE;
    RoundExact(n * m);
  }

  ghost function Weights(s: State, period: RewardPeriod, of: set<Symbol>): map<Symbol, int> {
    map p | p in of && p in s.pools :: Weight(s, period, p)
  }

  /** The total depth is the sum of the weights of all pools, in whatever order they are listed. */
  lemma {:induction false} TotalDepthIsSum(s: State, period: RewardPeriod, poolOrder: seq<Symbol>)
    requires Distinct(poolOrder)
    ensures TotalDepth(s, period, poolOrder) == Sum(Weights(s, period, Members(poolOrder)))
  {
    hide Sum, Weight;
    if poolOrder == [] {
      SumZero(Weights(s, period, Members(poolOrder)));
    } else {
      var p, rest := poolOrder[0], poolOrder[1..];
      TotalDepthIsSum(s, period, rest);
      assert p !in rest && Members(poolOrder) == Members(rest) + {p};
      var before, after := Weights(s, period, Members(rest)), Weights(s, period, Members(poolOrder));
      if p in s.pools {
        WeightExact(s, period, p);
        assert after == before[p := Weight(s, period, p)] && p !in before;
        SumUpdate(before, p, Weight(s, period, p));
      } else {
        assert after == before;
      }
    }
  }

  /** What the grants give one pool. */
  function GrantTo(gs: seq<Grant>, p: Symbol): nat {
    if gs == [] then 0 else (if gs[0].symbol == p then gs[0].depth else 0) + GrantTo(gs[1..], p)
  }

  /** The part of the amount that weight w of T earns, to within one unit and 10^-18 of the amount. */
  predicate RewardNearShare(reward: nat, w: nat, T: nat, amount: nat) {
    Near(reward * (T * ONE), w * (amount * ONE), T * (amount + ONE))
  }

  predicate RewardAtMostShare(reward: nat, w: nat, T: nat, amount: nat) {
    reward * (T * ONE) <= w * (amount * ONE) + T * (amount + ONE)
  }

  lemma {:induction false} NoGrantTo(s: State, period: RewardPeriod, poolOrder: seq<Symbol>, amount: nat, T: nat, remaining: nat, p: Symbol)
    requires T > 0 && p !in poolOrder
    ensures GrantTo(RewardGrants(s, period, poolOrder, amount, T, remaining), p) == 0
    decreases |poolOrder|
  {
    hide PoolReward;
    if poolOrder != [] && remaining != 0 {
      var first, rest := poolOrder[0], poolOrder[1..];
      assert first in poolOrder && p !in rest;
      NoGrantTo(s, period, rest, amount, T, remaining, p);
      if first in s.pools {
        var reward := PoolReward(period.Multiplier(first), s.pools[first].native, T, amount);
        NoGrantTo(s, period, rest, amount, T, if reward > remaining then 0 else remaining - reward, p);
      }
    }
  }

  lemma NoShare(w: nat, T: nat, amount: nat)
    ensures RewardAtMostShare(0, w, T, amount)
  {
    assert w * (amount * ONE) >= 0 && T * (amount + ONE) >= 0;
  }

  lemma LessThanShare(granted: nat, reward: nat, w: nat, T: nat, amount: nat)
    requires granted <= reward && RewardNearShare(reward, w, T, amount)
    ensures RewardAtMostShare(granted, w, T, amount)
  {
    MulLe(granted, reward, T * ONE);
  }

  lemma {:induction false} GrantsByWeight(s: State, period: RewardPeriod, poolOrder: seq<Symbol>, amount: nat, T: nat, remaining: nat, p: Symbol)
    requires T > 0 && Distinct(poolOrder) && p in poolOrder && p in s.pools
    ensures var gs := RewardGrants(s, period, poolOrder, amount, T, remaining);
            && RewardAtMostShare(GrantTo(gs, p), Weight(s, period, p), T, amount)
            && (GrantSum(gs) == remaining || RewardNearShare(GrantTo(gs, p), Weight(s, period, p), T, amount))
    decreases |poolOrder|
  {
    hide PoolReward, RewardAtMostShare, RewardNearShare, Weight;
    var first, rest := poolOrder[0], poolOrder[1..];
    var w := Weight(s, period, p);
    if remaining == 0 {
      NoShare(w, T, amount);
    } else if first !in s.pools {
      GrantsByWeight(s, period, rest, amount, T, remaining, p);
    } else {
      var reward := PoolReward(period.Multiplier(first), s.pools[first].native, T, amount);
      var granted := if reward > remaining then remaining else reward;
      var gs, later := RewardGrants(s, period, poolOrder, amount, T, remaining), RewardGrants(s, period, rest, amount, T, remaining - granted);
      assert gs == if reward == 0 then later else [Grant(first, granted)] + later;
      assert GrantSum(gs) == granted + GrantSum(later) && GrantTo(gs, p) == (if first == p then granted else 0) + GrantTo(later, p);
      if first == p {
        assert p !in rest;
        NoGrantTo(s, period, rest, amount, T, remaining - granted, p);
        PoolRewardNear(period.Multiplier(p), s.pools[p].native, T, amount);
        WeightExact(s, period, p);
        assert RewardNearShare(reward, w, T, amount) by { NearShareOf(reward, w, T, amount); }
        LessThanShare(granted, reward, w, T, amount);
        if granted != reward { NoneLeft(s, period, rest, amount, T); }
      } else {
        GrantsByWeight(s, period, rest, amount, T, remaining - granted, p);
      }
    }
  }

  lemma NearShareOf(reward: nat, w: nat, T: nat, amount: nat)
    requires Near(reward * (T * ONE), w * (amount * ONE), T * (amount + ONE))
    ensures RewardNearShare(reward, w, T, amount)
  {
  }

  lemma NoneLeft(s: State, period: RewardPeriod, poolOrder: seq<Symbol>, amount: nat, T: nat)
    requires T > 0
    ensures RewardGrants(s, period, poolOrder, amount, T, 0) == []
  {
  }

  /**
   Every pool is rewarded by its own multiplier times its own depth as a part of the sum over all pools, to within the
   roundings; at most that, when the amount runs out first.
   */
  lemma RewardsByWeight(s: State, period: RewardPeriod, amount: nat, poolOrder: seq<Symbol>, p: Symbol)
    requires Distinct(poolOrder) && Members(poolOrder) == s.pools.Keys && p in s.pools
    ensures var T := Sum(Weights(s, period, s.pools.Keys));
            var gs := BlockGrants(s, period, amount, poolOrder);
            && T >= 0
            && (T == 0 ==> gs == [])
            && (T > 0 ==>
                  && RewardAtMostShare(GrantTo(gs, p), Weight(s, period, p), T, amount)
                  && (GrantSum(gs) == amount || RewardNearShare(GrantTo(gs, p), Weight(s, period, p), T, amount)))
  {
    hide RewardGrants, TotalDepth, RewardAtMostShare, RewardNearShare, Weight, Sum;
    TotalDepthIsSum(s, period, poolOrder);
    var T := TotalDepth(s, period, poolOrder);
    assert p in Members(poolOrder);
    if T > 0 {
      if amount > 0 {
        GrantsByWeight(s, period, poolOrder, amount, T, amount, p);
      } else {
        NoShare(Weight(s, period, p), T, amount);
      }
    }
  }
}
