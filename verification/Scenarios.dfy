/**
 Longer runs from an empty ledger, followed by their pools and providers only: the coins are covered because the
 module stays solvent, and the accounts because nobody but a signer's account moves.
 */
module Scenarios {
  import opened Accounts
  import opened Admission
  import opened Closing
  import opened Decimal
  import opened Distribution
  import opened Guarantees
  import opened Ledger
  import opened LiquidityAdds
  import opened Runs
  import opened Solvency
  import opened Swaps
  import opened Types
  import opened UnitsCheck
  import opened Unlocks
  import opened Withdrawals
  import opened Witnesses
  import Sums
  import SwapRuns

  // ---------- What one message makes of the pools and the providers ----------

  /** An environment with no fees, locks, bars or refusals. */
  predicate Plain(env: Env, coin: Symbol) {
    && env.rate == 0 && env.fees == map[] && env.defaultFee == 0 && env.lockPeriod == 0
    && {coin, NATIVE} <= env.tradable && env.noSell == {} && env.noBuy == {} && env.blocked == {}
  }

  lemma CreateYields(s: State, env: Env, who: Address, coin: Symbol, native: nat, external: nat)
    requires Plain(env, coin) && coin != NATIVE && native >= POOL_THRESHOLD && external > 0 && coin !in s.pools
    requires Owns(s, who, NATIVE, native) && Owns(s, who, coin, external)
    ensures var r := Handle(s, env, MsgCreatePool(who, coin, native, external));
            && r.Ok? && r.value.bucket == s.bucket
            && r.value.pools == s.pools[coin := Whole(native, external, native)]
            && r.value.lps == s.lps[LpKey(coin, who) := Provider(native, [])]
  {
    hide CollectBoth;
    CollectsExactly(s, who, coin, native, external);
    CollectBothKeeps(s, who, coin, native, external);
    CollectKeepsBucket(s, who, coin, native, external);
    FirstUnitsOf(native, external, env.Fee(NATIVE), env.Fee(coin), env.rate);
  }

  lemma AddYields(s: State, env: Env, who: Address, coin: Symbol, native: nat, external: nat, q: AddQuote)
    requires Plain(env, coin) && coin != NATIVE && (native > 0 || external > 0) && coin in s.pools && !s.bucket.active
    requires var pool := s.pools[coin];
             PoolUnits(pool.units, pool.NativeDepth(), pool.ExternalDepth(), native, external, 0, 0, 0) == Ok(q)
    requires Owns(s, who, NATIVE, native) && Owns(s, who, coin, external)
    ensures var r := Handle(s, env, MsgAddLiquidity(who, coin, native, external));
            var pool, key := s.pools[coin], LpKey(coin, who);
            var lp := if key in s.lps then s.lps[key] else Provider(0, []);
            && r.Ok? && r.value.bucket == s.bucket
            && r.value.pools == s.pools[coin := pool.(units := q.poolUnits, native := pool.native + native, external := pool.external + external)]
            && r.value.lps == s.lps[key := lp.(units := lp.units + q.lpUnits)]
  {
    hide CollectBoth, PoolUnits;
    CollectsExactly(s, who, coin, native, external);
    CollectBothKeeps(s, who, coin, native, external);
    CollectKeepsBucket(s, who, coin, native, external);
    assert env.Fee(NATIVE) == 0 == env.Fee(coin);
    assert AddSwaps(s, env, coin, s.pools[coin], q) == Ok(s.bucket);
    assert s.(bucket := s.bucket) == s;
  }

  lemma SellYields(s: State, env: Env, who: Address, coin: Symbol, amount: nat, out: nat, after: Pool)
    requires Plain(env, coin) && amount > 0 && coin in s.pools && Solvent(s) && !s.bucket.active
    requires SwapOne(s.pools[coin], true, amount, 0, 0) == Ok((out, after)) && out <= s.pools[coin].native
    requires Owns(s, who, coin, amount)
    ensures var r := Handle(s, env, MsgSwap(who, coin, NATIVE, amount, 0));
            r.Ok? && r.value.bucket == s.bucket && r.value.pools == s.pools[coin := after] && r.value.lps == s.lps
  {
    hide SwapOne, Solvent;
    PoolCovered(s, coin);
    assert env.Fee(coin) == 0;
  }

  lemma RemoveYields(s: State, env: Env, key: LpKey, out: Payout)
    requires Plain(env, key.symbol) && Solvent(s) && key in s.lps && key.symbol in s.pools && s.lps[key].unlocks == []
    requires var pool, lp := s.pools[key.symbol], s.lps[key];
             out.unitsLeft <= lp.units <= pool.units && out.native <= pool.native && out.external <= pool.external
             && out.native < pool.NativeDepth() && out.external < pool.ExternalDepth()
    ensures var r := RemovePaid(s, env, key, out);
            var pool, lp := s.pools[key.symbol], s.lps[key];
            && r.Ok? && r.value.bucket == s.bucket
            && r.value.pools == s.pools[key.symbol := pool.(units := pool.units - lp.units + out.unitsLeft,
                                                             native := pool.native - out.native, external := pool.external - out.external)]
            && r.value.lps == if out.unitsLeft == 0 then s.lps - {key} else s.lps[key := Provider(out.unitsLeft, [])]
  {
    hide SpendUnlocked, LivePruned, PayBoth, Solvent;
    var pool, lp := s.pools[key.symbol], s.lps[key];
    PoolCovered(s, key.symbol);
    NoRecords(lp, env, lp.units - out.unitsLeft);
    var s1 := PutPool(s, key.symbol, pool.(units := pool.units - lp.units + out.unitsLeft,
                                           native := pool.native - out.native, external := pool.external - out.external));
    PaySucceeds(s1, key.address, key.symbol, out.native, out.external);
  }

  lemma PaySucceeds(s: State, who: Address, symbol: Symbol, native: nat, external: nat)
    requires symbol != NATIVE && native <= Balance(s.reserve, NATIVE) && external <= Balance(s.reserve, symbol)
    ensures var r := PayBoth(s, {}, who, symbol, native, external);
            r.Ok? && r.value.pools == s.pools && r.value.lps == s.lps && r.value.bucket == s.bucket
  {
  }

  // ---------- A dust add ----------

  lemma NothingFromNothing(X: nat, P: nat)
    requires X > 0
    ensures SymmetricUnits(X, 0, P) == 0
  {
  }

  lemma DustShare(A: nat, P: nat)
    requires A > P
    ensures SymmetricUnits(A, 1, P) == 0
  {
  }

  /** One external unit against a pool with more external depth than units earns no units. */
  lemma DustEarnsNothing(P: nat, R: nat, A: nat, sellFee: Fraction, buyFee: Fraction, rate: nat)
    requires R > 0 && A > P
    ensures var q := PoolUnits(P, R, A, 0, 1, sellFee, buyFee, rate);
            q.Ok? && q.value.lpUnits == 0 && q.value.poolUnits == P
  {
    hide PoolUnits, SymmetricUnits;
    UnitsBetweenShares(P, R, A, 0, 1, sellFee, buyFee, rate);
    NothingFromNothing(R, P);
    DustShare(A, P);
  }

  /** In any state, such an add by a newcomer that succeeds leaves a provider without units. */
  lemma DustAdd(s: State, env: Env, who: Address, symbol: Symbol)
    requires AddLiquidity(s, env, who, symbol, 0, 1).Ok? && LpKey(symbol, who) !in s.lps
    requires symbol in s.pools && s.pools[symbol].NativeDepth() > 0 && s.pools[symbol].ExternalDepth() > s.pools[symbol].units
    ensures var t := AddLiquidity(s, env, who, symbol, 0, 1).value;
            t.lps == s.lps[LpKey(symbol, who) := Provider(0, [])]
  {
    hide PoolUnits, AddSwaps, CollectBoth;
    var pool := s.pools[symbol];
    DustEarnsNothing(pool.units, pool.NativeDepth(), pool.ExternalDepth(), env.Fee(NATIVE), env.Fee(symbol), env.rate);
    var q := PoolUnits(pool.units, pool.NativeDepth(), pool.ExternalDepth(), 0, 1, env.Fee(NATIVE), env.Fee(symbol), env.rate).value;
    CollectBothKeeps(s.(bucket := AddSwaps(s, env, symbol, pool, q).value), who, symbol, 0, 1);
  }

  /** And the pool cannot be closed afterwards, by anyone, for as long as that provider is listed without units. */
  lemma DustKeepsOpen(s: State, env: Env, who: Address, symbol: Symbol, later: Env, admin: Address, order: seq<Address>)
    requires AddLiquidity(s, env, who, symbol, 0, 1).Ok? && LpKey(symbol, who) !in s.lps
    requires symbol in s.pools && s.pools[symbol].NativeDepth() > 0 && s.pools[symbol].ExternalDepth() > s.pools[symbol].units
    requires Lists(AddLiquidity(s, env, who, symbol, 0, 1).value, symbol, order)
    ensures Decommission(AddLiquidity(s, env, who, symbol, 0, 1).value, later, admin, symbol, order).Err?
  {
    hide AddLiquidity, Decommission;
    var t := AddLiquidity(s, env, who, symbol, 0, 1).value;
    DustAdd(s, env, who, symbol);
    assert who in order;
    var i :| 0 <= i < |order| && order[i] == who;
    assert !HaveUnits(t.lps, symbol, order);
    ZeroUnitsKeepOpen(t, later, admin, symbol, order);
  }

  // ---------- Following a run ----------

  /** One pool and its providers, in a sound state with protection off. */
  ghost predicate Stage(s: State, coin: Symbol, pool: Pool, lps: map<LpKey, Provider>) {
    s.pools == map[coin := pool] && s.lps == lps && s.bucket == OFF && Sound(s)
  }

  function Market(coin: Symbol, admin: Address): Env {
    Env(1, 0, map[], 0, 0, 100, {coin, NATIVE}, {}, {}, {}, {admin})
  }

  /** A message that succeeds keeps the state sound and everyone else's coins where they are. */
  lemma Advance(s: State, env: Env, m: Msg)
    requires Sound(s) && Handle(s, env, m).Ok? && !m.MsgDecommission? && SoundStep(s, Deliver(env, m))
    ensures var t := Handle(s, env, m).value;
            ValidEvent(s, Deliver(env, m)) && Step(s, Deliver(env, m)) == t && Sound(t)
            && forall who, denom, n | who != m.who && Owns(s, who, denom, n) :: Owns(t, who, denom, n)
  {
    hide Handle, Sound, SoundStep;
    var t := Handle(s, env, m).value;
    DeliverySound(s, env, m);
    MessageKeeps(s, env, m);
    forall who, denom, n | who != m.who && Owns(s, who, denom, n) ensures Owns(t, who, denom, n) {
      Unmoved(s.users, t.users, m.who, CoinKey(who, denom));
    }
  }

  lemma Unmoved(a: map<CoinKey, nat>, b: map<CoinKey, nat>, who: Address, k: CoinKey)
    requires OnlyOwner(a, b, who) && k.owner != who
    ensures Balance(b, k) == Balance(a, k)
  {
  }

  lemma EmptySound(s: State)
    requires s.pools == map[] && s.lps == map[] && s.reserve == map[] && s.bucket == OFF
    ensures Sound(s)
  {
    forall d ensures Surplus(s, d) >= 0 { EmptyRecords(d); }
  }

  // ---------- A pool too deep to close ----------

  function Crowd(coin: Symbol, a: Address, b: Address, c: Address): map<LpKey, Provider> {
    map[LpKey(coin, a) := Provider(3 * ONE, []), LpKey(coin, b) := Provider(3 * ONE, []), LpKey(coin, c) := Provider(ONE, [])]
  }

  function CrowdStart(coin: Symbol, a: Address, b: Address, c: Address, d: Address): State {
    State(map[], map[], map[],
          map[CoinKey(a, coin) := 30 * ONE, CoinKey(a, NATIVE) := 3 * ONE,
              CoinKey(b, coin) := 30 * ONE, CoinKey(b, NATIVE) := 3 * ONE,
              CoinKey(c, coin) := 10 * ONE, CoinKey(c, NATIVE) := ONE, CoinKey(d, coin) := 490 * ONE], OFF)
  }

  lemma CrowdOwns(coin: Symbol, a: Address, b: Address, c: Address, d: Address)
    requires coin != NATIVE && a != b && a != c && a != d && b != c && b != d && c != d
    ensures var s := CrowdStart(coin, a, b, c, d);
            && Owns(s, a, coin, 30 * ONE) && Owns(s, a, NATIVE, 3 * ONE) && Owns(s, b, coin, 30 * ONE) && Owns(s, b, NATIVE, 3 * ONE)
            && Owns(s, c, coin, 10 * ONE) && Owns(s, c, NATIVE, ONE) && Owns(s, d, coin, 490 * ONE)
  {
  }

  lemma CrowdQuotes()
    ensures PoolUnits(3 * ONE, 3 * ONE, 30 * ONE, 3 * ONE, 30 * ONE, 0, 0, 0) == Ok(AddQuote(6 * ONE, 3 * ONE, NoSwap, 0))
    ensures PoolUnits(6 * ONE, 6 * ONE, 60 * ONE, ONE, 10 * ONE, 0, 0, 0) == Ok(AddQuote(7 * ONE, ONE, NoSwap, 0))
  {
    hide ExternalSwapAmount, NativeSwapAmount;
    assert SymmetricUnits(3 * ONE, 3 * ONE, 3 * ONE) == 3 * ONE;
    assert SymmetricUnits(6 * ONE, ONE, 6 * ONE) == ONE;
  }

  lemma CrowdSale()
    ensures SwapOne(Whole(7 * ONE, 70 * ONE, 7 * ONE), true, 490 * ONE, 0, 0)
         == Ok((6125 * (ONE / 1000), Whole(875 * (ONE / 1000), 560 * ONE, 7 * ONE)))
  {
    hide SwapResult;
    SwapRuns.WholeLeg(true, 70 * ONE, 490 * ONE, 7 * ONE, 0, 6125 * (ONE / 1000), 6125 * (ONE / 1000));
  }

  lemma CrowdCreate(s: State, coin: Symbol, a: Address)
    requires coin != NATIVE && s.pools == map[] && s.lps == map[] && s.bucket == OFF && Sound(s)
    requires Owns(s, a, coin, 30 * ONE) && Owns(s, a, NATIVE, 3 * ONE)
    ensures var e := Deliver(Market(coin, a), MsgCreatePool(a, coin, 3 * ONE, 30 * ONE));
            && ValidEvent(s, e)
            && Stage(Step(s, e), coin, Whole(3 * ONE, 30 * ONE, 3 * ONE), map[LpKey(coin, a) := Provider(3 * ONE, [])])
            && forall who, denom, n | who != a && Owns(s, who, denom, n) :: Owns(Step(s, e), who, denom, n)
  {
    hide Handle, Sound, Owns;
    CreateYields(s, Market(coin, a), a, coin, 3 * ONE, 30 * ONE);
    Advance(s, Market(coin, a), MsgCreatePool(a, coin, 3 * ONE, 30 * ONE));
  }

  /** An add that swaps nothing, from one stage to the next. */
  lemma CrowdAdd(s: State, coin: Symbol, admin: Address, who: Address, native: nat, external: nat, pool: Pool, lps: map<LpKey, Provider>, q: AddQuote)
    requires coin != NATIVE && Stage(s, coin, pool, lps) && LpKey(coin, who) !in lps && SoundAdd(pool) && (native > 0 || external > 0)
    requires PoolUnits(pool.units, pool.NativeDepth(), pool.ExternalDepth(), native, external, 0, 0, 0) == Ok(q)
    requires Owns(s, who, coin, external) && Owns(s, who, NATIVE, native)
    ensures var e := Deliver(Market(coin, admin), MsgAddLiquidity(who, coin, native, external));
            && ValidEvent(s, e)
            && Stage(Step(s, e), coin, pool.(units := q.poolUnits, native := pool.native + native, external := pool.external + external),
                     lps[LpKey(coin, who) := Provider(q.lpUnits, [])])
            && forall other, denom, n | other != who && Owns(s, other, denom, n) :: Owns(Step(s, e), other, denom, n)
  {
    hide Handle, Sound, Owns, PoolUnits, SoundAdd;
    AddYields(s, Market(coin, admin), who, coin, native, external, q);
    Advance(s, Market(coin, admin), MsgAddLiquidity(who, coin, native, external));
  }

  lemma CrowdSell(s: State, coin: Symbol, admin: Address, who: Address, lps: map<LpKey, Provider>)
    requires coin != NATIVE && Stage(s, coin, Whole(7 * ONE, 70 * ONE, 7 * ONE), lps) && Owns(s, who, coin, 490 * ONE)
    ensures var e := Deliver(Market(coin, admin), MsgSwap(who, coin, NATIVE, 490 * ONE, 0));
            ValidEvent(s, e) && Stage(Step(s, e), coin, Whole(875 * (ONE / 1000), 560 * ONE, 7 * ONE), lps)
  {
    hide Handle, Owns, SwapOne, UnitsMatch, Solvent;
    CrowdSale();
    SellYields(s, Market(coin, admin), who, coin, 490 * ONE, 6125 * (ONE / 1000), Whole(875 * (ONE / 1000), 560 * ONE, 7 * ONE));
    Advance(s, Market(coin, admin), MsgSwap(who, coin, NATIVE, 490 * ONE, 0));
  }

  lemma CrowdShares()
    ensures Due(7 * ONE, 560 * ONE, 3 * ONE) == 240 * ONE + 34 && Due(7 * ONE, 560 * ONE, ONE) == 80 * ONE
  {
    assert Quo(7 * ONE * ONE, 3 * ONE * ONE) == 2333333333333333333;
    assert Quo(560 * ONE * ONE, 2333333333333333333) / ONE == 240 * ONE + 34;
    assert Quo(7 * ONE * ONE, ONE * ONE) == 7 * ONE;
    assert Quo(560 * ONE * ONE, 7 * ONE) == 80 * ONE * ONE;
  }

  lemma CrowdDue(coin: Symbol, a: Address, b: Address, c: Address)
    requires a != b && a != c && b != c
    ensures DueAll(Crowd(coin, a, b, c), coin, 7 * ONE, 560 * ONE, [a, b, c]) == 560 * ONE + 68
  {
    hide Due;
    CrowdShares();
    var lps := Crowd(coin, a, b, c);
    assert [a, b, c][1..] == [b, c] && [b, c][1..] == [c] && [c][1..] == [];
    assert DueAll(lps, coin, 7 * ONE, 560 * ONE, []) == 0;
    assert DueAll(lps, coin, 7 * ONE, 560 * ONE, [c]) == 80 * ONE;
    assert DueAll(lps, coin, 7 * ONE, 560 * ONE, [b, c]) == 320 * ONE + 34;
  }

  lemma CrowdCannotClose(s: State, coin: Symbol, a: Address, b: Address, c: Address)
    requires coin != NATIVE && a != b && a != c && b != c
    requires Stage(s, coin, Whole(875 * (ONE / 1000), 560 * ONE, 7 * ONE), Crowd(coin, a, b, c))
    ensures Closable(s, Market(coin, a), a, coin, [a, b, c]) && HaveUnits(s.lps, coin, [a, b, c])
    ensures Decommission(s, Market(coin, a), a, coin, [a, b, c]).Err?
  {
    hide UnitsMatch, Solvent, Decommission, DueAll;
    CrowdDue(coin, a, b, c);
    ClosesExactly(s, Market(coin, a), a, coin, [a, b, c]);
  }

  function CrowdRun(coin: Symbol, a: Address, b: Address, c: Address, d: Address): seq<Event> {
    [Deliver(Market(coin, a), MsgCreatePool(a, coin, 3 * ONE, 30 * ONE)),
     Deliver(Market(coin, a), MsgAddLiquidity(b, coin, 3 * ONE, 30 * ONE)),
     Deliver(Market(coin, a), MsgAddLiquidity(c, coin, ONE, 10 * ONE)),
     Deliver(Market(coin, a), MsgSwap(d, coin, NATIVE, 490 * ONE, 0))]
  }

  /**
   Create a pool, two more providers join, and a large sale takes its native below the threshold: everything asks
   for the pool to be closed, every provider has units, and the refunds exceed what it holds by 68.
   */
  lemma CrowdedPoolCannotClose(coin: Symbol, a: Address, b: Address, c: Address, d: Address)
    requires coin != NATIVE && a != b && a != c && a != d && b != c && b != d && c != d
    ensures var s, run := CrowdStart(coin, a, b, c, d), CrowdRun(coin, a, b, c, d);
            var t := Run(s, run);
            && Sound(s) && ValidRun(s, run)
            && Closable(t, Market(coin, a), a, coin, [a, b, c]) && HaveUnits(t.lps, coin, [a, b, c])
            && Decommission(t, Market(coin, a), a, coin, [a, b, c]).Err?
  {
    hide Step, ValidEvent, Sound, Owns, Closable, HaveUnits, Decommission, PoolUnits, Market, Run, ValidRun;
    var s0, run := CrowdStart(coin, a, b, c, d), CrowdRun(coin, a, b, c, d);
    EmptySound(s0);
    CrowdOwns(coin, a, b, c, d);
    CrowdQuotes();
    CrowdCreate(s0, coin, a);
    var s1 := Step(s0, run[0]);
    var one := map[LpKey(coin, a) := Provider(3 * ONE, [])];
    CrowdAdd(s1, coin, a, b, 3 * ONE, 30 * ONE, Whole(3 * ONE, 30 * ONE, 3 * ONE), one, AddQuote(6 * ONE, 3 * ONE, NoSwap, 0));
    var s2 := Step(s1, run[1]);
    var two := one[LpKey(coin, b) := Provider(3 * ONE, [])];
    CrowdAdd(s2, coin, a, c, ONE, 10 * ONE, Whole(6 * ONE, 60 * ONE, 6 * ONE), two, AddQuote(7 * ONE, ONE, NoSwap, 0));
    var s3 := Step(s2, run[2]);
    assert two[LpKey(coin, c) := Provider(ONE, [])] == Crowd(coin, a, b, c);
    CrowdSell(s3, coin, a, d, Crowd(coin, a, b, c));
    var s4 := Step(s3, run[3]);
    CrowdCannotClose(s4, coin, a, b, c);
    RunFour(s0, run[0], run[1], run[2], run[3]);
    assert run == [run[0], run[1], run[2], run[3]];
  }

  // ---------- A dust add keeps a pool open, and can halt the chain ----------

  function DustStart(coin: Symbol, lp: Address, d: Address): State {
    State(map[], map[], map[], map[CoinKey(lp, coin) := 2 * ONE, CoinKey(lp, NATIVE) := ONE, CoinKey(d, coin) := 1], OFF)
  }

  lemma DustOwns(coin: Symbol, lp: Address, d: Address)
    requires coin != NATIVE && lp != d
    ensures var s := DustStart(coin, lp, d);
            Owns(s, lp, coin, 2 * ONE) && Owns(s, lp, NATIVE, ONE) && Owns(s, d, coin, 1) && Owns(s, d, NATIVE, 0)
  {
  }

  function Pair(coin: Symbol, lp: Address, d: Address, units: nat): map<LpKey, Provider> {
    map[LpKey(coin, lp) := Provider(units, []), LpKey(coin, d) := Provider(0, [])]
  }

  lemma DustPayouts()
    ensures FromUnits(ONE, ONE, 2 * ONE + 1, ONE, ONE - 1) == Ok(Payout(ONE - 1, 2 * ONE - 1, 1))
    ensures FromBasisPoints(1, 1, 2, 1, 5000) == Ok(Payout(0, 1, 0))
  {
    assert ONE * ONE * ONE * ONE / ((ONE - 1) * ONE) == ONE * ONE + ONE + 1;
    assert Quo(ONE * ONE, (ONE - 1) * ONE) == ONE + 1;
    NativeDust();
    ExternalDust();
    HalfPayout();
  }

  lemma NativeDust()
    ensures Quo(ONE * ONE, ONE + 1) == ONE * ONE - ONE + 1 && Round(ONE * ONE - ONE + 1) == ONE - 1
  {
    assert ONE * ONE * ONE * ONE / (ONE + 1) == ONE * ONE * ONE - ONE * ONE + ONE - 1;
  }

  lemma ExternalDust()
    ensures Quo((2 * ONE + 1) * ONE, ONE + 1) == 2 * ONE * ONE - ONE + 1 && Round(2 * ONE * ONE - ONE + 1) == 2 * ONE - 1
  {
    assert (2 * ONE + 1) * ONE * ONE * ONE / (ONE + 1) == 2 * ONE * ONE * ONE - ONE * ONE + ONE - 1;
  }

  lemma HalfPayout()
    ensures FromBasisPoints(1, 1, 2, 1, 5000) == Ok(Payout(0, 1, 0))
  {
    assert Quo(MAX_WBASIS * ONE, 5000 * ONE) == 2 * ONE;
    assert Quo(ONE, 2 * ONE) == ONE / 2;
    assert Quo(ONE, ONE / 2) == 2 * ONE;
    assert Quo(2 * ONE, 2 * ONE) == ONE;
  }

  lemma DustCreate(s: State, coin: Symbol, lp: Address)
    requires coin != NATIVE && s.pools == map[] && s.lps == map[] && s.bucket == OFF && Sound(s)
    requires Owns(s, lp, coin, 2 * ONE) && Owns(s, lp, NATIVE, ONE)
    ensures var e := Deliver(Market(coin, lp), MsgCreatePool(lp, coin, ONE, 2 * ONE));
            && ValidEvent(s, e)
            && Stage(Step(s, e), coin, Whole(ONE, 2 * ONE, ONE), map[LpKey(coin, lp) := Provider(ONE, [])])
            && forall who, denom, n | who != lp && Owns(s, who, denom, n) :: Owns(Step(s, e), who, denom, n)
  {
    hide Handle, Sound, Owns;
    CreateYields(s, Market(coin, lp), lp, coin, ONE, 2 * ONE);
    Advance(s, Market(coin, lp), MsgCreatePool(lp, coin, ONE, 2 * ONE));
  }

  lemma DustJoins(s: State, coin: Symbol, lp: Address, d: Address)
    requires coin != NATIVE && lp != d && Stage(s, coin, Whole(ONE, 2 * ONE, ONE), map[LpKey(coin, lp) := Provider(ONE, [])])
    requires Owns(s, d, coin, 1) && Owns(s, d, NATIVE, 0)
    ensures var e := Deliver(Market(coin, lp), MsgAddLiquidity(d, coin, 0, 1));
            ValidEvent(s, e) && Stage(Step(s, e), coin, Whole(ONE, 2 * ONE + 1, ONE), Pair(coin, lp, d, ONE))
  {
    hide Sound, Owns, PoolUnits, Step, ValidEvent;
    var one := map[LpKey(coin, lp) := Provider(ONE, [])];
    DustEarnsNothing(ONE, ONE, 2 * ONE, 0, 0, 0);
    var q := PoolUnits(ONE, ONE, 2 * ONE, 0, 1, 0, 0, 0).value;
    CrowdAdd(s, coin, lp, d, 0, 1, Whole(ONE, 2 * ONE, ONE), one, q);
    assert one[LpKey(coin, d) := Provider(0, [])] == Pair(coin, lp, d, ONE);
  }

  lemma DustLeaves(s: State, coin: Symbol, lp: Address, d: Address)
    requires coin != NATIVE && lp != d && Stage(s, coin, Whole(ONE, 2 * ONE + 1, ONE), Pair(coin, lp, d, ONE))
    ensures var e := Deliver(Market(coin, lp), MsgRemoveLiquidityUnits(lp, coin, ONE - 1));
            ValidEvent(s, e) && Stage(Step(s, e), coin, Whole(1, 2, 1), Pair(coin, lp, d, 1))
  {
    hide RemovePaid, FromUnits, UnitsMatch, Solvent;
    var env, key := Market(coin, lp), LpKey(coin, lp);
    DustPayouts();
    RemoveYields(s, env, key, Payout(ONE - 1, 2 * ONE - 1, 1));
    assert s.pools[coin] == Whole(ONE, 2 * ONE + 1, ONE) && s.lps[key] == Provider(ONE, []);
    assert Handle(s, env, MsgRemoveLiquidityUnits(lp, coin, ONE - 1)) == RemovePaid(s, env, key, Payout(ONE - 1, 2 * ONE - 1, 1));
    assert Pair(coin, lp, d, ONE)[key := Provider(1, [])] == Pair(coin, lp, d, 1);
    Advance(s, env, MsgRemoveLiquidityUnits(lp, coin, ONE - 1));
  }

  lemma DustRemains(s: State, coin: Symbol, lp: Address, d: Address)
    requires coin != NATIVE && lp != d && Stage(s, coin, Whole(1, 2, 1), Pair(coin, lp, d, 1))
    ensures var e := Deliver(Market(coin, lp), MsgRemoveLiquidity(lp, coin, 5000, 0));
            ValidEvent(s, e) && Stage(Step(s, e), coin, Whole(1, 1, 0), map[LpKey(coin, d) := Provider(0, [])])
  {
    hide RemovePaid, FromBasisPoints, UnitsMatch, Solvent;
    var env, key := Market(coin, lp), LpKey(coin, lp);
    DustPayouts();
    RemoveYields(s, env, key, Payout(0, 1, 0));
    assert s.pools[coin] == Whole(1, 2, 1) && s.lps[key] == Provider(1, []);
    assert Handle(s, env, MsgRemoveLiquidity(lp, coin, 5000, 0)) == RemovePaid(s, env, key, Payout(0, 1, 0));
    assert Pair(coin, lp, d, 1) - {key} == map[LpKey(coin, d) := Provider(0, [])];
    Advance(s, env, MsgRemoveLiquidity(lp, coin, 5000, 0));
  }

  lemma DustCannotClose(s: State, coin: Symbol, lp: Address, d: Address)
    requires coin != NATIVE && lp != d && Stage(s, coin, Whole(1, 2, 1), Pair(coin, lp, d, 1))
    ensures Closable(s, Market(coin, lp), lp, coin, [lp, d]) && !HaveUnits(s.lps, coin, [lp, d])
    ensures Decommission(s, Market(coin, lp), lp, coin, [lp, d]).Err?
  {
    hide UnitsMatch, Solvent, Decommission;
    assert [lp, d][1] == d;
    ZeroUnitsKeepOpen(s, Market(coin, lp), lp, coin, [lp, d]);
  }

  lemma DustPanics(s: State, coin: Symbol, d: Address, rate: Fraction)
    requires Stage(s, coin, Whole(1, 1, 0), map[LpKey(coin, d) := Provider(0, [])])
    ensures var e := DistributeToProviders({}, rate, [coin], [LpKey(coin, d)], []);
            ValidEvent(s, e) && Attempt(s, e) == Err(PanicArithmetic)
  {
    hide Sound, Entries, NativeGrants, PayEach;
    var k := LpKey(coin, d);
    assert Members([coin]) == {coin} && Members([k]) == {k};
    assert [k][1..] == [];
    assert Holders(s, [], coin) == [];
    assert Holders(s, [k], coin) == [Holder(d, 0)];
    assert !Divisible(s, [k], coin);
    DistributesExactly(s, {}, rate, [coin], [k], []);
    Undistributed(s, rate, [coin], [k]);
  }

  /** A distribution that does not go through has not got past collecting. */
  lemma Undistributed(s: State, rate: Fraction, poolOrder: seq<Symbol>, lpOrder: seq<LpKey>)
    requires ProviderDistribution(s, {}, rate, poolOrder, lpOrder, []).Err?
    ensures Entries(s, lpOrder, rate, NativeGrants(s, poolOrder)).Err?
  {
  }

  function DustRun(coin: Symbol, lp: Address, d: Address): seq<Event> {
    [Deliver(Market(coin, lp), MsgCreatePool(lp, coin, ONE, 2 * ONE)),
     Deliver(Market(coin, lp), MsgAddLiquidity(d, coin, 0, 1)),
     Deliver(Market(coin, lp), MsgRemoveLiquidityUnits(lp, coin, ONE - 1))]
  }

  /** Create a pool, add one external unit, remove all but one of the pool's units: the pool cannot be closed. */
  lemma DustedPoolCannotClose(coin: Symbol, lp: Address, d: Address)
    requires coin != NATIVE && lp != d
    ensures var s, run := DustStart(coin, lp, d), DustRun(coin, lp, d);
            var t := Run(s, run);
            && Sound(s) && ValidRun(s, run) && Stage(t, coin, Whole(1, 2, 1), Pair(coin, lp, d, 1))
            && Closable(t, Market(coin, lp), lp, coin, [lp, d]) && Decommission(t, Market(coin, lp), lp, coin, [lp, d]).Err?
  {
    hide Step, ValidEvent, Sound, Owns, Closable, HaveUnits, Decommission, Market, Run, ValidRun, Pair;
    var s0, run := DustStart(coin, lp, d), DustRun(coin, lp, d);
    EmptySound(s0);
    DustOwns(coin, lp, d);
    DustCreate(s0, coin, lp);
    var s1 := Step(s0, run[0]);
    DustJoins(s1, coin, lp, d);
    var s2 := Step(s1, run[1]);
    DustLeaves(s2, coin, lp, d);
    var s3 := Step(s2, run[2]);
    DustCannotClose(s3, coin, lp, d);
    RunThree(s0, run[0], run[1], run[2]);
    assert run == [run[0], run[1], run[2]];
  }

  /**
   Remove half of the last unit besides: the pool is left with a provider and no units, and the next provider
   distribution, at any rate, divides by zero.
   */
  lemma DustHaltsDistribution(coin: Symbol, lp: Address, d: Address, rate: Fraction)
    requires coin != NATIVE && lp != d
    ensures var s, run := DustStart(coin, lp, d), DustRun(coin, lp, d) + [Deliver(Market(coin, lp), MsgRemoveLiquidity(lp, coin, 5000, 0))];
            var e := DistributeToProviders({}, rate, [coin], [LpKey(coin, d)], []);
            ValidRun(s, run) && ValidEvent(Run(s, run), e) && Attempt(Run(s, run), e) == Err(PanicArithmetic)
  {
    hide Step, ValidEvent, Sound, Owns, Closable, Decommission, Market, Attempt, Pair, Run, ValidRun;
    var s, three, last := DustStart(coin, lp, d), DustRun(coin, lp, d), Deliver(Market(coin, lp), MsgRemoveLiquidity(lp, coin, 5000, 0));
    DustedPoolCannotClose(coin, lp, d);
    var t := Run(s, three);
    DustRemains(t, coin, lp, d);
    RunSnoc(s, three, last);
    DustPanics(Step(t, last), coin, d, rate);
  }

  lemma {:induction false} RunSnoc(s: State, events: seq<Event>, e: Event)
    ensures Run(s, events + [e]) == Step(Run(s, events), e)
    ensures ValidRun(s, events) && ValidEvent(Run(s, events), e) ==> ValidRun(s, events + [e])
    decreases |events|
  {
    hide Step, ValidEvent;
    if events == [] {
      assert events + [e] == [e] && [e][1..] == [];
    } else {
      RunSnoc(Step(s, events[0]), events[1..], e);
      assert (events + [e])[1..] == events[1..] + [e];
    }
  }
}
