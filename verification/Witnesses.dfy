/** Runs from an empty ledger that lose an intended invariant, for the conditions the general results carry. */
module Witnesses {
  import opened Decimal
  import opened Distribution
  import opened DistributionSolvency
  import opened Ledger
  import opened LiquidityAdds
  import opened Protection
  import opened Rewards
  import opened RewardsSolvency
  import opened Runs
  import opened Solvency
  import opened Types
  import opened UnitsCheck
  import opened UnlockSafety
  import opened Unlocks
  import Sums
  import Withdrawals

  const OFF := Bucket(false, 0, NATIVE, 1, 0)

  /** No pools, no providers, nothing in the module account; one user with coins. */
  function Start(coin: Symbol, lp: Address): State {
    State(map[], map[], map[], map[CoinKey(lp, coin) := 2 * ONE, CoinKey(lp, NATIVE) := 2 * ONE], OFF)
  }

  /** One pool, its providers, and the coins of the module and of the user. */
  function Book(coin: Symbol, lp: Address, pool: Pool, lps: map<LpKey, Provider>, held: (nat, nat), owned: (nat, nat)): State {
    State(map[coin := pool], lps, map[coin := held.0, NATIVE := held.1],
          map[CoinKey(lp, coin) := owned.0, CoinKey(lp, NATIVE) := owned.1], OFF)
  }

  function Sole(coin: Symbol, lp: Address, units: nat, unlocks: seq<Unlock>): map<LpKey, Provider> {
    map[LpKey(coin, lp) := Provider(units, unlocks)]
  }

  function Whole(native: nat, external: nat, units: nat): Pool {
    Pool(native, external, units, 0, 0, 0, 0)
  }

  function Open(coin: Symbol, height: nat, lock: nat): Env {
    Env(height, 0, map[], 0, lock, 100, {coin}, {}, {}, {}, {})
  }

  // ---------- The first pool ----------

  function Created(coin: Symbol, lp: Address): State {
    Book(coin, lp, Whole(ONE, ONE, ONE), Sole(coin, lp, ONE, []), (ONE, ONE), (ONE, ONE))
  }

  lemma FirstUnits()
    ensures PoolUnits(0, 0, 0, ONE, ONE, 0, 0, 0) == Ok(AddQuote(ONE, ONE, NoSwap, 0))
  {
    hide ExternalSwapAmount, NativeSwapAmount, SymmetricUnits;
  }

  lemma CreateStep(coin: Symbol, lp: Address, height: nat, lock: nat)
    requires coin != NATIVE
    ensures Handle(Start(coin, lp), Open(coin, height, lock), MsgCreatePool(lp, coin, ONE, ONE)) == Ok(Created(coin, lp))
  {
    hide PoolUnits;
    FirstUnits();
    var s, t := Start(coin, lp), Created(coin, lp);
    assert CoinKey(lp, coin) != CoinKey(lp, NATIVE);
    assert s.users[CoinKey(lp, coin) := ONE][CoinKey(lp, NATIVE) := ONE] == t.users;
    assert s.reserve[coin := ONE][NATIVE := ONE] == t.reserve;
    assert s.pools[coin := Whole(ONE, ONE, ONE)] == t.pools;
    assert s.lps[LpKey(coin, lp) := Provider(ONE, [])] == t.lps;
  }

  lemma RunTwo(s: State, a: Event, b: Event)
    ensures Run(s, [a, b]) == Step(Step(s, a), b)
    ensures ValidEvent(s, a) && ValidEvent(Step(s, a), b) ==> ValidRun(s, [a, b])
  {
    hide Step, ValidEvent;
    assert [a, b][1..] == [b] && [b][1..] == [];
    assert Run(Step(s, a), [b]) == Run(Step(Step(s, a), b), []) == Step(Step(s, a), b);
    assert ValidEvent(Step(s, a), b) ==> ValidRun(Step(s, a), [b]);
  }

  lemma RunThree(s: State, a: Event, b: Event, c: Event)
    ensures Run(s, [a, b, c]) == Step(Step(Step(s, a), b), c)
    ensures ValidEvent(s, a) && ValidEvent(Step(s, a), b) && ValidEvent(Step(Step(s, a), b), c) ==> ValidRun(s, [a, b, c])
  {
    hide Step, ValidEvent;
    assert [a, b, c][1..] == [b, c];
    RunTwo(Step(s, a), b, c);
  }

  lemma RunFour(s: State, a: Event, b: Event, c: Event, d: Event)
    ensures Run(s, [a, b, c, d]) == Step(Step(Step(Step(s, a), b), c), d)
    ensures (ValidEvent(s, a) && ValidEvent(Step(s, a), b) && ValidEvent(Step(Step(s, a), b), c)
             && ValidEvent(Step(Step(Step(s, a), b), c), d)) ==> ValidRun(s, [a, b, c, d])
  {
    hide Step, ValidEvent;
    assert [a, b, c, d][1..] == [b, c, d];
    RunThree(Step(s, a), b, c, d);
  }

  // ---------- A distribution empties a side, and an add then loses the units ----------

  /** The pool after everything native in it has been paid to its provider. */
  function Drained(coin: Symbol, lp: Address): State {
    Book(coin, lp, Whole(0, ONE, ONE), Sole(coin, lp, ONE, []), (ONE, 0), (ONE, 2 * ONE))
  }

  lemma WholeShare()
    ensures Mul(ONE, ONE * ONE) == ONE * ONE && Round(ONE * ONE) == ONE && ProviderAmount(ONE * ONE, ONE, ONE) == ONE
  {
    RoundExact(ONE * ONE);
    RoundExact(ONE);
    assert ONE * ONE * ONE * ONE / (ONE * ONE) == ONE * ONE;
  }

  lemma DrainEntries(coin: Symbol, lp: Address)
    ensures var s := Created(coin, lp);
            NativeGrants(s, [coin]) == [Grant(coin, ONE)]
            && Holders(s, [LpKey(coin, lp)], coin) == [Holder(lp, ONE)]
            && Entries(s, [LpKey(coin, lp)], ONE, [Grant(coin, ONE)]) == Ok([Entry(lp, coin, ONE)])
  {
    hide ProviderAmount, Mul, Round;
    WholeShare();
    var s, k, g := Created(coin, lp), LpKey(coin, lp), Grant(coin, ONE);
    assert [coin][1..] == [] && [k][1..] == [] && [g][1..] == [] && [Holder(lp, ONE)][1..] == [];
    assert NativeGrants(s, []) == [];
    assert Holders(s, [], coin) == [];
    assert s.pools[coin] == Whole(ONE, ONE, ONE) && s.lps[k] == Provider(ONE, []);
    assert Holders(s, [k], coin) == [Holder(lp, ONE)];
    var none: seq<Entry> := [];
    assert Allot(coin, ONE * ONE, ONE, ONE, [], ONE) == none;
    assert Allot(coin, ONE * ONE, ONE, ONE, [Holder(lp, ONE)], 0) == [Entry(lp, coin, ONE)] + none;
    assert Entries(s, [k], ONE, []) == Ok(none);
    assert [Entry(lp, coin, ONE)] + none == [Entry(lp, coin, ONE)];
  }

  lemma DrainWalk(coin: Symbol, lp: Address)
    ensures var es := [Entry(lp, coin, ONE)];
            WalksAll(es, [lp]) && Addresses(es) == {lp} && AmountAmong(es, {lp}) == ONE && PoolAmong(es, coin, {lp}) == ONE
  {
    var es := [Entry(lp, coin, ONE)];
    assert es[1..] == [];
    assert es[0] in es;
    assert Addresses(es) == {lp};
    assert Members([lp]) == {lp};
  }

  lemma DrainPays(coin: Symbol, lp: Address, users: map<CoinKey, nat>, totals: map<Symbol, int>)
    ensures var es := [Entry(lp, coin, ONE)];
            PayEach(Purse(ONE, users, totals), {}, es, [lp])
            == Purse(0, users[CoinKey(lp, NATIVE) := Balance(users, CoinKey(lp, NATIVE)) + ONE], totals)
  {
    hide AmountAmong;
    DrainWalk(coin, lp);
    assert [lp][1..] == [];
  }

  lemma DrainTotals(coin: Symbol, lp: Address)
    ensures var s := Created(coin, lp);
            GrantTotals(s, [LpKey(coin, lp)], [Entry(lp, coin, ONE)]) == map[coin := ONE]
            && Reduced(s.pools, map[coin := ONE]) == Drained(coin, lp).pools
  {
    hide Holders, PoolAmong, Addresses;
    DrainEntries(coin, lp);
    DrainWalk(coin, lp);
  }

  lemma DrainCoins(coin: Symbol, lp: Address)
    requires coin != NATIVE
    ensures var s, t := Created(coin, lp), Drained(coin, lp);
            s.users[CoinKey(lp, NATIVE) := Balance(s.users, CoinKey(lp, NATIVE)) + ONE] == t.users
            && s.reserve[NATIVE := 0] == t.reserve && Balance(s.reserve, NATIVE) == ONE && t.lps == s.lps && t.bucket == s.bucket
  {
    assert CoinKey(lp, coin) != CoinKey(lp, NATIVE);
  }

  lemma DrainLists(coin: Symbol, lp: Address)
    ensures ListsStore(Created(coin, lp), [coin], [LpKey(coin, lp)])
  {
    assert Members([coin]) == {coin} && Members([LpKey(coin, lp)]) == {LpKey(coin, lp)};
  }

  lemma DrainStep(coin: Symbol, lp: Address)
    requires coin != NATIVE
    ensures var e := DistributeToProviders({}, ONE, [coin], [LpKey(coin, lp)], [lp]);
            ValidEvent(Created(coin, lp), e) && Step(Created(coin, lp), e) == Drained(coin, lp)
  {
    hide Entries, NativeGrants, PayEach, Holders, WalksAll, ListsStore, GrantTotals, Reduced, Balance, Created, Drained;
    var s, t, k := Created(coin, lp), Drained(coin, lp), LpKey(coin, lp);
    DrainEntries(coin, lp);
    DrainWalk(coin, lp);
    DrainLists(coin, lp);
    DrainTotals(coin, lp);
    DrainCoins(coin, lp);
    DrainPays(coin, lp, s.users, map[coin := ONE]);
  }

  lemma OneHolder(key: LpKey, units: nat)
    ensures UnitsOf(map[key := Provider(units, [])], key.symbol) == units
  {
    var none: map<LpKey, Provider> := map[];
    PutHeld(none, key, Provider(units, []), key.symbol);
    NoneHeld(none, key.symbol);
    assert none[key := Provider(units, [])] == map[key := Provider(units, [])];
  }

  lemma RestartedUnits()
    ensures PoolUnits(ONE, 0, ONE, 3, 4, 0, 0, 0) == Ok(AddQuote(3, 3, NoSwap, 0))
  {
    hide ExternalSwapAmount, NativeSwapAmount, SymmetricUnits;
  }

  lemma DrainedAdd(coin: Symbol, lp: Address, height: nat, lock: nat)
    requires coin != NATIVE
    ensures AddLiquidity(Drained(coin, lp), Open(coin, height, lock), lp, coin, 3, 4).Ok?
  {
    hide PoolUnits;
    RestartedUnits();
    var s := Drained(coin, lp);
    assert s.pools[coin] == Whole(0, ONE, ONE);
    assert s.(bucket := s.bucket) == s;
  }

  lemma DrainedMatches(coin: Symbol, lp: Address)
    ensures UnitsMatch(Drained(coin, lp))
  {
    hide UnitsOf;
    OneHolder(LpKey(coin, lp), ONE);
  }

  /**
   Create a pool, distribute everything native in it, add to both sides: the add restarts the pool's units, and
   the check on units fails from then on.
   */
  lemma DrainedPoolLosesUnits(coin: Symbol, lp: Address)
    requires coin != NATIVE
    ensures var env := Open(coin, 1, 0);
            var run := [Deliver(env, MsgCreatePool(lp, coin, ONE, ONE)),
                        DistributeToProviders({}, ONE, [coin], [LpKey(coin, lp)], [lp]),
                        Deliver(env, MsgAddLiquidity(lp, coin, 3, 4))];
            ValidRun(Start(coin, lp), run) && UnitsMatch(Start(coin, lp)) && !UnitsMatch(Run(Start(coin, lp), run))
  {
    hide UnitsOf, AddLiquidity, CreatePool, ProviderDistribution, Drained, Created, Entries, NativeGrants;
    var env := Open(coin, 1, 0);
    var a, b, c := Deliver(env, MsgCreatePool(lp, coin, ONE, ONE)), DistributeToProviders({}, ONE, [coin], [LpKey(coin, lp)], [lp]),
                   Deliver(env, MsgAddLiquidity(lp, coin, 3, 4));
    CreateStep(coin, lp, 1, 0);
    DrainStep(coin, lp);
    DrainedAdd(coin, lp, 1, 0);
    DrainedMatches(coin, lp);
    DrainedUnsound(coin, lp);
    AddLiquidityUnits(Drained(coin, lp), env, lp, coin, 3, 4);
    RunThree(Start(coin, lp), a, b, c);
  }

  lemma DrainedUnsound(coin: Symbol, lp: Address)
    ensures coin in Drained(coin, lp).pools && !SoundAdd(Drained(coin, lp).pools[coin])
  {
  }

  // ---------- A pool that loses its last provider, and a reward that is lost with it ----------

  lemma AllButOne()
    ensures Withdrawals.FromUnits(ONE, ONE, ONE, ONE, ONE - 1) == Ok(Withdrawals.Payout(ONE - 1, ONE - 1, 1))
  {
    assert ONE * ONE * ONE * ONE / ((ONE - 1) * ONE) == ONE * ONE + ONE + 1;
    assert Quo(ONE * ONE, (ONE - 1) * ONE) == ONE + 1;
    assert ONE * ONE * ONE * ONE / (ONE + 1) == ONE * ONE * ONE - ONE * ONE + ONE - 1;
    assert Quo(ONE * ONE, ONE + 1) == ONE * ONE - ONE + 1;
    assert Round(ONE * ONE - ONE + 1) == ONE - 1;
  }

  /** Half of one unit: nothing to pay, and nothing left. */
  lemma HalfOfOne()
    ensures Withdrawals.FromBasisPoints(1, 1, 1, 1, 5000) == Ok(Withdrawals.Payout(0, 0, 0))
  {
    assert Quo(MAX_WBASIS * ONE, 5000 * ONE) == 2 * ONE;
    assert Quo(ONE, 2 * ONE) == ONE / 2;
    assert Quo(ONE, ONE / 2) == 2 * ONE;
  }

  function Remnant(coin: Symbol, lp: Address): State {
    Book(coin, lp, Whole(1, 1, 1), Sole(coin, lp, 1, []), (1, 1), (2 * ONE - 1, 2 * ONE - 1))
  }

  function Unowned(coin: Symbol, lp: Address): State {
    Book(coin, lp, Whole(1, 1, 0), map[], (1, 1), (2 * ONE - 1, 2 * ONE - 1))
  }

  lemma NoRecords(lp: Provider, env: Env, need: nat)
    requires lp.unlocks == [] && env.lockPeriod == 0
    ensures SpendUnlocked(LivePruned(lp, env), need, env, false) == Ok([])
  {
  }

  lemma PayCoins(coin: Symbol, lp: Address, s: State)
    requires coin != NATIVE && s.reserve == Created(coin, lp).reserve && s.users == Created(coin, lp).users
    ensures PayBoth(s, {}, lp, coin, ONE - 1, ONE - 1)
         == Ok(s.(reserve := Remnant(coin, lp).reserve, users := Remnant(coin, lp).users))
  {
    hide Pay;
    var reserve, users := map[coin := 1, NATIVE := ONE], map[CoinKey(lp, coin) := 2 * ONE - 1, CoinKey(lp, NATIVE) := ONE];
    PayFirst(coin, lp, s, reserve, users);
    PaySecond(coin, lp, s.(reserve := reserve, users := users));
    assert Balance(s.reserve, coin) == ONE == Balance(s.reserve, NATIVE);
  }

  lemma PayFirst(coin: Symbol, lp: Address, s: State, reserve: map<Symbol, nat>, users: map<CoinKey, nat>)
    requires coin != NATIVE && s.reserve == Created(coin, lp).reserve && s.users == Created(coin, lp).users
    requires reserve == map[coin := 1, NATIVE := ONE]
    requires users == map[CoinKey(lp, coin) := 2 * ONE - 1, CoinKey(lp, NATIVE) := ONE]
    ensures Pay(s, {}, lp, coin, ONE - 1) == Ok(s.(reserve := reserve, users := users))
  {
    FirstBalances(coin, lp, s.reserve, s.users);
    PayOn(s, lp, coin, ONE - 1, ONE, ONE, reserve, users);
  }

  lemma FirstBalances(coin: Symbol, lp: Address, reserve: map<Symbol, nat>, users: map<CoinKey, nat>)
    requires coin != NATIVE && reserve == Created(coin, lp).reserve && users == Created(coin, lp).users
    ensures Balance(reserve, coin) == ONE && Balance(users, CoinKey(lp, coin)) == ONE
    ensures reserve[coin := 1] == map[coin := 1, NATIVE := ONE]
    ensures users[CoinKey(lp, coin) := 2 * ONE - 1] == map[CoinKey(lp, coin) := 2 * ONE - 1, CoinKey(lp, NATIVE) := ONE]
  {
    assert CoinKey(lp, coin) != CoinKey(lp, NATIVE);
  }

  lemma PayOn(s: State, who: Address, coin: Symbol, amount: nat, held: nat, owned: nat, reserve: map<Symbol, nat>, users: map<CoinKey, nat>)
    requires Balance(s.reserve, coin) == held >= amount && Balance(s.users, CoinKey(who, coin)) == owned
    requires reserve == s.reserve[coin := held - amount] && users == s.users[CoinKey(who, coin) := owned + amount]
    ensures Pay(s, {}, who, coin, amount) == Ok(s.(reserve := reserve, users := users))
  {
  }

  lemma PaySecond(coin: Symbol, lp: Address, s: State)
    requires coin != NATIVE && s.reserve == map[coin := 1, NATIVE := ONE]
    requires s.users == map[CoinKey(lp, coin) := 2 * ONE - 1, CoinKey(lp, NATIVE) := ONE]
    ensures Pay(s, {}, lp, NATIVE, ONE - 1) == Ok(s.(reserve := Remnant(coin, lp).reserve, users := Remnant(coin, lp).users))
  {
    var t := Remnant(coin, lp);
    assert CoinKey(lp, coin) != CoinKey(lp, NATIVE);
    assert s.users[CoinKey(lp, NATIVE) := 2 * ONE - 1] == t.users;
    assert s.reserve[NATIVE := 1] == t.reserve;
  }

  lemma RemnantStep(coin: Symbol, lp: Address)
    requires coin != NATIVE
    ensures Handle(Created(coin, lp), Open(coin, 1, 0), MsgRemoveLiquidityUnits(lp, coin, ONE - 1)) == Ok(Remnant(coin, lp))
  {
    hide Withdrawals.FromUnits, SpendUnlocked, LivePruned, PayBoth;
    var s, t, k, env := Created(coin, lp), Remnant(coin, lp), LpKey(coin, lp), Open(coin, 1, 0);
    AllButOne();
    NoRecords(s.lps[k], env, ONE - 1);
    var s1 := PutPool(s, coin, Whole(1, 1, 1));
    PayCoins(coin, lp, s1);
    assert s.pools[coin] == Whole(ONE, ONE, ONE) && s.lps[k] == Provider(ONE, []);
    assert s1.pools == t.pools && s.lps[k := Provider(1, [])] == t.lps;
  }

  lemma UnownedStep(coin: Symbol, lp: Address)
    requires coin != NATIVE
    ensures Handle(Remnant(coin, lp), Open(coin, 1, 0), MsgRemoveLiquidity(lp, coin, 5000, 0)) == Ok(Unowned(coin, lp))
  {
    hide Withdrawals.FromBasisPoints, SpendUnlocked, LivePruned;
    var s, t, k, env := Remnant(coin, lp), Unowned(coin, lp), LpKey(coin, lp), Open(coin, 1, 0);
    HalfOfOne();
    NoRecords(s.lps[k], env, 1);
    assert s.pools[coin] == Whole(1, 1, 1) && s.lps[k] == Provider(1, []);
    assert s.pools[coin := Whole(1, 1, 0)] == t.pools && s.lps - {k} == t.lps;
  }

  const PERIOD := RewardPeriod(1, 10, 100, 1, true, map[], ONE)

  lemma WholeReward()
    ensures Mul(ONE, ONE) == ONE && PoolReward(ONE, 1, ONE, 10) == 10
  {
    RoundExact(ONE);
    assert ONE * ONE * ONE / ONE == ONE * ONE;
    RoundExact(10 * ONE);
  }

  lemma UnownedGrant(coin: Symbol, lp: Address)
    ensures BlockGrants(Unowned(coin, lp), PERIOD, 10, [coin]) == [Grant(coin, 10)]
  {
    hide PoolReward, Mul;
    var s := Unowned(coin, lp);
    WholeReward();
    assert [coin][1..] == [] && s.pools[coin] == Whole(1, 1, 0);
    assert TotalDepth(s, PERIOD, []) == 0;
    assert TotalDepth(s, PERIOD, [coin]) == ONE;
    assert RewardGrants(s, PERIOD, [coin], 10, ONE, 10) == [Grant(coin, 10)] + RewardGrants(s, PERIOD, [], 10, ONE, 0);
  }

  lemma NobodyToPay(coin: Symbol, lp: Address)
    ensures var s, gs := Unowned(coin, lp), [Grant(coin, 10)];
            Entries(s, [], ONE, gs) == Ok([]) && Unheld(s, [], gs) == gs && GrantSum(gs) == 10
  {
    var s, gs := Unowned(coin, lp), [Grant(coin, 10)];
    var none: seq<Entry> := [];
    assert gs[1..] == [];
    assert GrantEntries(s, [], ONE, gs[0]) == Ok(none) && Entries(s, [], ONE, []) == Ok(none);
    assert none + none == none;
  }

  lemma UnownedRecords(coin: Symbol, lp: Address)
    requires coin != NATIVE
    ensures WellFormed(Unowned(coin, lp)) && Surplus(Unowned(coin, lp), NATIVE) == 0
  {
    hide Sums.Sum;
    var none: map<Symbol, Pool> := map[];
    PutPoolRecorded(none, coin, Whole(1, 1, 0), NATIVE);
    assert none[coin := Whole(1, 1, 0)] == Unowned(coin, lp).pools;
    EmptyRecords(NATIVE);
  }

  lemma EmptyRecords(denom: Symbol)
    ensures Recorded(map[], denom) == 0
  {
    assert Holdings(map[]) == map[];
  }

  lemma UnownedReward(coin: Symbol, lp: Address)
    requires coin != NATIVE
    ensures var e := RewardDepth({}, PERIOD, 10, [coin], [], []);
            ValidEvent(Unowned(coin, lp), e) && Surplus(Step(Unowned(coin, lp), e), NATIVE) == -10
  {
    hide BlockGrants, Recorded, Entries, Unheld, GrantSum, WalksAll, Unowned;
    var s := Unowned(coin, lp);
    UnownedGrant(coin, lp);
    NobodyToPay(coin, lp);
    UnownedRecords(coin, lp);
    UnownedLists(coin, lp);
    NobodyWalked();
    RewardsNeverOverpay(s, {}, PERIOD, 10, [coin], [], []);
    DepthRewardsSurplus(s, {}, PERIOD, 10, [coin], [], [], NATIVE);
  }

  lemma UnownedLists(coin: Symbol, lp: Address)
    ensures ListsStore(Unowned(coin, lp), [coin], [])
  {
    assert Members([coin]) == {coin};
    assert Members<LpKey>([]) == {};
  }

  lemma NobodyWalked()
    ensures WalksAll([], [])
  {
    assert Addresses([]) == {};
    assert Members<Address>([]) == {};
  }

  lemma StartSolvent(coin: Symbol, lp: Address)
    ensures Solvent(Start(coin, lp))
  {
    forall d ensures Surplus(Start(coin, lp), d) >= 0 { EmptyRecords(d); }
  }

  /**
   Create a pool, remove all but one unit, then half of the last: it pays nothing and deletes the provider, and
   the pool stays. A distributing reward block then credits the pool and burns the coins: the module no longer
   holds what it records.
   */
  lemma UnownedRewardIsLost(coin: Symbol, lp: Address)
    requires coin != NATIVE
    ensures var env := Open(coin, 1, 0);
            var run := [Deliver(env, MsgCreatePool(lp, coin, ONE, ONE)),
                        Deliver(env, MsgRemoveLiquidityUnits(lp, coin, ONE - 1)),
                        Deliver(env, MsgRemoveLiquidity(lp, coin, 5000, 0)),
                        RewardDepth({}, PERIOD, 10, [coin], [], [])];
            Solvent(Start(coin, lp)) && ValidRun(Start(coin, lp), run) && Surplus(Run(Start(coin, lp), run), NATIVE) == -10
  {
    hide Handle, Created, Remnant, Unowned, Start, Surplus, DepthRewards, ListsStore, RewardWalk;
    var env := Open(coin, 1, 0);
    CreateStep(coin, lp, 1, 0);
    RemnantStep(coin, lp);
    UnownedStep(coin, lp);
    UnownedReward(coin, lp);
    StartSolvent(coin, lp);
    RunFour(Start(coin, lp), Deliver(env, MsgCreatePool(lp, coin, ONE, ONE)),
            Deliver(env, MsgRemoveLiquidityUnits(lp, coin, ONE - 1)),
            Deliver(env, MsgRemoveLiquidity(lp, coin, 5000, 0)), RewardDepth({}, PERIOD, 10, [coin], [], []));
  }

  // ---------- A removal that leaves an emptied record behind ----------

  /** The first pool's provider with a request for five units, made at height 1. */
  function Requested(coin: Symbol, lp: Address): State {
    Book(coin, lp, Whole(ONE, ONE, ONE), Sole(coin, lp, ONE, [Unlock(1, 5)]), (ONE, ONE), (ONE, ONE))
  }

  lemma RequestStep(coin: Symbol, lp: Address)
    ensures Handle(Created(coin, lp), Open(coin, 1, 1), MsgUnlockLiquidity(lp, coin, 5)) == Ok(Requested(coin, lp))
  {
    var s, t, k := Created(coin, lp), Requested(coin, lp), LpKey(coin, lp);
    var none: seq<Unlock> := [];
    assert s.lps[k] == Provider(ONE, none) && LivePruned(s.lps[k], Open(coin, 1, 1)) == none;
    assert none + [Unlock(1, 5)] == [Unlock(1, 5)];
    assert s.lps[k := Provider(ONE, [Unlock(1, 5)])] == t.lps;
  }

  lemma FiveUnits()
    ensures Withdrawals.FromUnits(ONE, ONE, ONE, ONE, 5) == Ok(Withdrawals.Payout(5, 5, ONE - 5))
  {
    assert Quo(ONE * ONE, 5 * ONE) == ONE / 5 * ONE;
    assert Quo(ONE * ONE, ONE / 5 * ONE) == 5 * ONE;
    RoundExact(5);
  }

  lemma FiveMatured(env: Env)
    requires env.height == 2 && env.lockPeriod == 1 && env.cancelPeriod == 100
    ensures var live := LivePruned(Provider(ONE, [Unlock(1, 5)]), env);
            live == [Unlock(1, 5)] && FirstMatured(live, 2, 1) == 5 && SpendUnlocked(live, 5, env, false).Ok?
  {
    var us := [Unlock(1, 5)];
    assert us[1..] == [];
    assert Pruned([], 2, 1, 100) == [];
    assert us[0..] == us;
  }

  lemma FivePaid(coin: Symbol, lp: Address, s: State)
    requires coin != NATIVE && s.reserve == Created(coin, lp).reserve
    ensures PayBoth(s, {}, lp, coin, 5, 5).Ok?
  {
  }

  lemma FiveRemoved(coin: Symbol, lp: Address)
    requires coin != NATIVE
    ensures var s, env, k := Requested(coin, lp), Open(coin, 2, 1), LpKey(coin, lp);
            var out := Withdrawals.Payout(5, 5, ONE - 5);
            && k in s.lps && coin in s.pools && RemovePaid(s, env, k, out).Ok?
            && Handle(s, env, MsgRemoveLiquidityUnits(lp, coin, 5)) == RemovePaid(s, env, k, out)
  {
    hide Withdrawals.FromUnits, SpendUnlocked, LivePruned, PayBoth;
    var s, k, env := Requested(coin, lp), LpKey(coin, lp), Open(coin, 2, 1);
    FiveUnits();
    FiveMatured(env);
    assert s.pools[coin] == Whole(ONE, ONE, ONE) && s.lps[k] == Provider(ONE, [Unlock(1, 5)]);
    FivePaid(coin, lp, PutPool(s, coin, Whole(ONE - 5, ONE - 5, ONE - 5)));
  }

  /** Create a pool, ask for five units, wait out the lock and remove them: the spent record is still stored. */
  lemma SpentRecordStays(coin: Symbol, lp: Address)
    requires coin != NATIVE
    ensures var run := [Deliver(Open(coin, 1, 1), MsgCreatePool(lp, coin, ONE, ONE)),
                        Deliver(Open(coin, 1, 1), MsgUnlockLiquidity(lp, coin, 5)),
                        Deliver(Open(coin, 2, 1), MsgRemoveLiquidityUnits(lp, coin, 5))];
            var t := Run(Start(coin, lp), run);
            ValidRun(Start(coin, lp), run) && LpKey(coin, lp) in t.lps && Emptied(t.lps[LpKey(coin, lp)].unlocks)
  {
    hide Handle, Created, Start, Emptied, RemovePaid, FirstMatured, LivePruned;
    var s, k, env := Requested(coin, lp), LpKey(coin, lp), Open(coin, 2, 1);
    CreateStep(coin, lp, 1, 1);
    RequestStep(coin, lp);
    FiveRemoved(coin, lp);
    FiveMatured(env);
    RemovalKeepsEmptied(s, env, k, Withdrawals.Payout(5, 5, ONE - 5));
    RunThree(Start(coin, lp), Deliver(Open(coin, 1, 1), MsgCreatePool(lp, coin, ONE, ONE)),
             Deliver(Open(coin, 1, 1), MsgUnlockLiquidity(lp, coin, 5)),
             Deliver(Open(coin, 2, 1), MsgRemoveLiquidityUnits(lp, coin, 5)));
  }
}
