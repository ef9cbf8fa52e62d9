/**
 The ledger: pools, liquidity providers and the bank accounts behind them, and what each message makes of
 them. A message either yields the next state or an error; an error, or a panic, leaves the state as it was.
 */
module Ledger {
  import opened Decimal
  import opened LiquidityAdds
  import opened Protection
  import opened Swaps
  import opened Types
  import opened Unlocks
  import Withdrawals

  datatype Provider = Provider(units: nat, unlocks: seq<Unlock>)

  datatype LpKey = LpKey(symbol: Symbol, address: Address)

  datatype CoinKey = CoinKey(owner: Address, denom: Symbol)

  /** `reserve` is the module account, `users` every other account. */
  datatype State = State(pools: map<Symbol, Pool>, lps: map<LpKey, Provider>,
                         reserve: map<Symbol, nat>, users: map<CoinKey, nat>, bucket: Bucket)

  /** What a message finds in other stores: the block, the rates, the registry and the bank's refusals. */
  datatype Env = Env(height: nat, rate: nat, fees: map<Symbol, Fraction>, defaultFee: Fraction,
                     lockPeriod: nat, cancelPeriod: nat,
                     tradable: set<Symbol>, noSell: set<Symbol>, noBuy: set<Symbol>,
                     blocked: set<Address>, admins: set<Address>)
  {
    /** GetSwapFeeRate. */
    function Fee(asset: Symbol): Fraction {
      if asset in fees then fees[asset] else defaultFee
    }
  }

  // ---------- The bank ----------

  function Balance<K>(m: map<K, nat>, k: K): nat {
    if k in m then m[k] else 0
  }

  /** SendCoinsFromAccountToModule, one denomination. */
  function Collect(s: State, who: Address, denom: Symbol, amount: nat): Result<State> {
    var k := CoinKey(who, denom);
    if Balance(s.users, k) < amount then Err(ErrBalanceNotAvailable)
    else Ok(s.(users := s.users[k := Balance(s.users, k) - amount],
               reserve := s.reserve[denom := Balance(s.reserve, denom) + amount]))
  }

  /** SendCoinsFromModuleToAccount, one denomination. */
  function Pay(s: State, blocked: set<Address>, who: Address, denom: Symbol, amount: nat): Result<State> {
    var k := CoinKey(who, denom);
    if who in blocked || Balance(s.reserve, denom) < amount then Err(ErrBankRefused)
    else Ok(s.(users := s.users[k := Balance(s.users, k) + amount],
               reserve := s.reserve[denom := Balance(s.reserve, denom) - amount]))
  }

  // ---------- The store ----------

  function PutPool(s: State, symbol: Symbol, pool: Pool): State {
    s.(pools := s.pools[symbol := pool])
  }

  function PutProvider(s: State, key: LpKey, lp: Provider): State {
    s.(lps := s.lps[key := lp])
  }

  function DropProvider(s: State, key: LpKey): State {
    s.(lps := s.lps - {key})
  }

  // ---------- Executors ----------

  /** Both coins of an add or a new pool, external asset first. */
  function CollectBoth(s: State, who: Address, symbol: Symbol, native: nat, external: nat): Result<State> {
    var s1 :- Collect(s, who, symbol, external);
    Collect(s1, who, NATIVE, native)
  }

  /** Both coins of a withdrawal; nothing is sent when both are zero. */
  function PayBoth(s: State, blocked: set<Address>, who: Address, symbol: Symbol, native: nat, external: nat): Result<State> {
    if native == 0 && external == 0 then Ok(s)
    else
      :- Need(external <= Balance(s.reserve, symbol) && native <= Balance(s.reserve, NATIVE), ErrNotEnoughLiquidity);
      var s1 :- Pay(s, blocked, who, symbol, external);
      Pay(s1, blocked, who, NATIVE, native)
  }

  /** Keeper.CreatePool and CreateLiquidityProvider. */
  function Opened(s: State, who: Address, symbol: Symbol, native: nat, external: nat, poolUnits: nat, lpUnits: nat): Result<State> {
    var s1 :- CollectBoth(s, who, symbol, native, external);
    var pool := Pool(native, external, poolUnits, 0, 0, 0, 0);
    Ok(PutProvider(PutPool(s1, symbol, pool), LpKey(symbol, who), Provider(lpUnits, [])))
  }

  /** Keeper.AddLiquidity. */
  function Added(s: State, who: Address, symbol: Symbol, native: nat, external: nat, poolUnits: nat, lpUnits: nat): Result<State>
    requires symbol in s.pools
  {
    var s1 :- CollectBoth(s, who, symbol, native, external);
    var pool := s.pools[symbol];
    var s2 := PutPool(s1, symbol, pool.(units := poolUnits, native := pool.native + native, external := pool.external + external));
    var key := LpKey(symbol, who);
    var lp := if key in s.lps then s.lps[key] else Provider(0, []);
    Ok(PutProvider(s2, key, lp.(units := lp.units + lpUnits)))
  }

  /** Keeper.RemoveLiquidity, with the pool reduced by the payout before it. */
  function Removed(s: State, blocked: set<Address>, key: LpKey, out: Withdrawals.Payout, unlocks: seq<Unlock>): Result<State>
    requires key in s.lps && key.symbol in s.pools
  {
    var pool, lp := s.pools[key.symbol], s.lps[key];
    var others :- Sub(pool.units, lp.units);
    var native :- Sub(pool.native, out.native);
    var external :- Sub(pool.external, out.external);
    :- Need(out.external < pool.ExternalDepth() && out.native < pool.NativeDepth(), ErrPoolTooShallow);
    var s1 := PutPool(s, key.symbol, pool.(units := others + out.unitsLeft, native := native, external := external));
    var s2 :- PayBoth(s1, blocked, key.address, key.symbol, out.native, out.external);
    Ok(if out.unitsLeft == 0 then DropProvider(s2, key) else PutProvider(s2, key, Provider(out.unitsLeft, unlocks)))
  }

  // ---------- Prices ----------

  /** CalcFurySpotPrice. */
  function FurySpotPrice(pool: Pool, rate: nat): Result<nat> {
    if pool.NativeDepth() == 0 then Err(ErrInvalidAmount)
    else Ok(Mul(Quo(pool.ExternalDepth() * ONE, pool.NativeDepth() * ONE), rate + ONE))
  }

  /** GetNativePrice. */
  function NativePrice(s: State, rate: nat): Result<nat> {
    if s.bucket.asset == NATIVE then Ok(ONE)
    else if s.bucket.asset !in s.pools then Err(ErrPoolDoesNotExist)
    else FurySpotPrice(s.pools[s.bucket.asset], rate)
  }

  // ---------- Messages ----------

  function CreatePool(s: State, env: Env, who: Address, symbol: Symbol, native: nat, external: nat): Result<State> {
    var valid := symbol != NATIVE && native > 0 && external > 0;
    :- Need(valid, ErrInvalid);
    :- Need(native >= POOL_THRESHOLD, ErrTotalAmountTooLow);
    :- Need(symbol in env.tradable, ErrPermissionDenied);
    :- Need(symbol !in s.pools, ErrUnableToCreatePool);
    var q :- PoolUnits(0, 0, 0, native, external, env.Fee(NATIVE), env.Fee(symbol), env.rate);
    Opened(s, who, symbol, native, external, q.poolUnits, q.lpUnits)
  }

  /** The permissions and the protection update of an add that swaps part of itself first. */
  function AddSwaps(s: State, env: Env, symbol: Symbol, pool: Pool, q: AddQuote): Result<Bucket> {
    match q.status
    case NoSwap => Ok(s.bucket)
    case SellNative =>
      :- Need(NATIVE !in env.noSell && symbol !in env.noBuy, ErrPermissionDenied);
      if !s.bucket.active then Ok(s.bucket)
      else
        var price :- NativePrice(s, env.rate);
        :- Need(!Blocked(s.bucket, q.swapAmount, price), ErrReachedMaxThreshold);
        var net :- Discounted(q.swapAmount, env.Fee(NATIVE));
        Updated(s.bucket, true, net, price)
    case BuyNative =>
      :- Need(symbol !in env.noSell && NATIVE !in env.noBuy, ErrPermissionDenied);
      if !s.bucket.active then Ok(s.bucket)
      else
        var bought := SwapResult(true, pool.ExternalDepth(), q.swapAmount, pool.NativeDepth(), env.rate, env.Fee(symbol)).0;
        var price :- NativePrice(s, env.rate);
        Updated(s.bucket, false, bought, price)
  }

  function AddLiquidity(s: State, env: Env, who: Address, symbol: Symbol, native: nat, external: nat): Result<State> {
    var valid := symbol != NATIVE && (native > 0 || external > 0);
    :- Need(valid, ErrInvalid);
    :- Need(symbol in env.tradable, ErrPermissionDenied);
    :- Need(symbol in s.pools, ErrPoolDoesNotExist);
    var pool := s.pools[symbol];
    var q :- PoolUnits(pool.units, pool.NativeDepth(), pool.ExternalDepth(), native, external,
                       env.Fee(NATIVE), env.Fee(symbol), env.rate);
    var bucket :- AddSwaps(s, env, symbol, pool, q);
    Added(s.(bucket := bucket), who, symbol, native, external, q.poolUnits, q.lpUnits)
  }

  /** The first hop of a swap between two external assets: into native, through the sent asset's pool. */
  function FirstHop(s: State, env: Env, sent: Symbol, received: Symbol, amount: nat): Result<(State, nat)>
    requires sent == NATIVE || sent in s.pools
  {
    if sent == NATIVE || received == NATIVE then Ok((s, amount))
    else
      var (out, pool) :- SwapOne(s.pools[sent], true, amount, env.rate, env.Fee(sent));
      Ok((PutPool(s, sent, pool), out))
  }

  /** The last hop, through the pool of the external asset on its other side, and the payment. */
  function LastHop(s: State, env: Env, who: Address, sent: Symbol, received: Symbol, amount: nat, least: nat): Result<(State, nat)> {
    var through := if received == NATIVE then sent else received;
    :- Need(through in s.pools, ErrPoolDoesNotExist);
    var (out, pool) :- SwapOne(s.pools[through], received == NATIVE, amount, env.rate, env.Fee(sent));
    :- Need(least <= out, ErrReceivedAmountBelowExpected);
    var s1 :- Pay(PutPool(s, through, pool), env.blocked, who, received, out);
    Ok((s1, out))
  }

  /** The protection update after a swap, at the price found before it. */
  function SwapUpdates(b: Bucket, env: Env, sent: Symbol, received: Symbol, amount: nat, out: nat, price: nat): Result<Bucket> {
    if !b.active then Ok(b)
    else if sent == NATIVE then
      var net :- Discounted(amount, env.Fee(sent));
      Updated(b, true, net, price)
    else if received == NATIVE then Updated(b, false, out, price)
    else Ok(b)
  }

  /** The price a swap is valued at; zero while protection is off, when it is not used. */
  function SwapPrice(s: State, env: Env): Result<nat> {
    if s.bucket.active then NativePrice(s, env.rate) else Ok(0)
  }

  function Swap(s: State, env: Env, who: Address, sent: Symbol, received: Symbol, amount: nat, least: nat): Result<State> {
    var valid := sent != received && amount > 0;
    :- Need(valid, ErrInvalid);
    :- Need(sent in env.tradable && received in env.tradable && sent !in env.noSell && received !in env.noBuy, ErrPermissionDenied);
    var price :- SwapPrice(s, env);
    :- Need(!(s.bucket.active && sent == NATIVE && Blocked(s.bucket, amount, price)), ErrReachedMaxThreshold);
    :- Need(sent == NATIVE || sent in s.pools, ErrPoolDoesNotExist);
    var s1 :- Collect(s, who, sent, amount);
    var (s2, hop) :- FirstHop(s1, env, sent, received, amount);
    var (s3, out) :- LastHop(s2, env, who, sent, received, hop, least);
    var bucket :- SwapUpdates(s3.bucket, env, sent, received, amount, out, price);
    Ok(s3.(bucket := bucket))
  }

  /** UseUnlockedLiquidity's verdict: with a lock period, every unit must come from a record. */
  function SpendUnlocked(us: seq<Unlock>, need: nat, env: Env, any: bool): Result<seq<Unlock>> {
    var (rest, left) := Spent(us, need, env.height, env.lockPeriod, any);
    if env.lockPeriod != 0 && left != 0 then Err(ErrBalanceNotAvailable) else Ok(rest)
  }

  function LivePruned(lp: Provider, env: Env): seq<Unlock> {
    Pruned(lp.unlocks, env.height, env.lockPeriod, env.cancelPeriod)
  }

  /** The common end of both removal messages: spend the unlock records, then pay out. */
  function RemovePaid(s: State, env: Env, key: LpKey, out: Withdrawals.Payout): Result<State>
    requires key in s.lps && key.symbol in s.pools
  {
    var lp := s.lps[key];
    var used :- Sub(lp.units, out.unitsLeft);
    var unlocks :- SpendUnlocked(LivePruned(lp, env), used, env, false);
    Removed(s, env.blocked, key, out, unlocks)
  }

  function RemoveLiquidityUnits(s: State, env: Env, who: Address, symbol: Symbol, units: nat): Result<State> {
    var key := LpKey(symbol, who);
    :- Need(units > 0, ErrInvalid);
    :- Need(symbol in env.tradable, ErrPermissionDenied);
    :- Need(symbol in s.pools, ErrPoolDoesNotExist);
    :- Need(key in s.lps, ErrLiquidityProviderDoesNotExist);
    var pool, lp := s.pools[symbol], s.lps[key];
    :- Need(units <= lp.units, ErrUnableToRemoveLiquidity);
    var out :- Withdrawals.FromUnits(pool.units, pool.NativeDepth(), pool.ExternalDepth(), lp.units, units);
    RemovePaid(s, env, key, out)
  }

  function RemoveLiquidity(s: State, env: Env, who: Address, symbol: Symbol, wBasis: int, asymmetry: int): Result<State> {
    var key := LpKey(symbol, who);
    :- Need(0 < wBasis <= MAX_WBASIS, ErrInvalid);
    :- Need(symbol in env.tradable, ErrPermissionDenied);
    :- Need(symbol in s.pools, ErrPoolDoesNotExist);
    :- Need(key in s.lps, ErrLiquidityProviderDoesNotExist);
    :- Need(asymmetry == 0, ErrInvalid);
    var pool, lp := s.pools[symbol], s.lps[key];
    :- Need(lp.units / (MAX_WBASIS / wBasis) <= lp.units, ErrUnableToRemoveLiquidity);
    var out :- Withdrawals.FromBasisPoints(pool.units, pool.NativeDepth(), pool.ExternalDepth(), lp.units, wBasis);
    RemovePaid(s, env, key, out)
  }

  function UnlockLiquidity(s: State, env: Env, who: Address, symbol: Symbol, units: nat): Result<State> {
    var key := LpKey(symbol, who);
    :- Need(key in s.lps, ErrLiquidityProviderDoesNotExist);
    var lp := s.lps[key];
    var live := LivePruned(lp, env);
    :- Need(Outstanding(live) + units <= lp.units, ErrBalanceNotAvailable);
    Ok(PutProvider(s, key, lp.(unlocks := live + [Unlock(env.height, units)])))
  }

  function CancelUnlock(s: State, env: Env, who: Address, symbol: Symbol, units: nat): Result<State> {
    var key := LpKey(symbol, who);
    :- Need(key in s.lps, ErrLiquidityProviderDoesNotExist);
    var lp := s.lps[key];
    var unlocks :- SpendUnlocked(LivePruned(lp, env), units, env, true);
    Ok(PutProvider(s, key, lp.(unlocks := NonZero(unlocks))))
  }

  /** What the pool still holds while its providers are being paid off. */
  datatype Remaining = Remaining(units: nat, native: nat, external: nat)

  /** One provider paid all its assets and deleted. */
  function Refund(s: State, blocked: set<Address>, symbol: Symbol, pool: Pool, who: Address, left: Remaining): Result<(State, Remaining)> {
    var key := LpKey(symbol, who);
    :- Need(key in s.lps, ErrLiquidityProviderDoesNotExist);
    var out :- Withdrawals.FromBasisPoints(pool.units, pool.NativeDepth(), pool.ExternalDepth(), s.lps[key].units, MAX_WBASIS);
    var units :- Sub(left.units, s.lps[key].units);
    var native :- Sub(left.native, out.native);
    var external :- Sub(left.external, out.external);
    var s1 :- Pay(s, blocked, who, symbol, out.external);
    var s2 :- Pay(s1, blocked, who, NATIVE, out.native);
    Ok((DropProvider(s2, key), Remaining(units, native, external)))
  }

  function RefundAll(s: State, blocked: set<Address>, symbol: Symbol, pool: Pool, order: seq<Address>, left: Remaining): Result<(State, Remaining)>
    decreases |order|
  {
    if order == [] then Ok((s, left))
    else
      var (s1, left1) :- Refund(s, blocked, symbol, pool, order[0], left);
      RefundAll(s1, blocked, symbol, pool, order[1..], left1)
  }

  /** The providers of an asset, in the order the store lists them. */
  predicate Lists(s: State, symbol: Symbol, order: seq<Address>) {
    && (forall i, j | 0 <= i < j < |order| :: order[i] != order[j])
    && (forall i | 0 <= i < |order| :: LpKey(symbol, order[i]) in s.lps)
    && (forall k | k in s.lps && k.symbol == symbol :: k.address in order)
  }

  function Decommission(s: State, env: Env, who: Address, symbol: Symbol, order: seq<Address>): Result<State> {
    var known := symbol in s.pools;
    :- Need(known, ErrPoolDoesNotExist);
    :- Need(who in env.admins, ErrPermissionDenied);
    var pool := s.pools[symbol];
    :- Need(pool.native < POOL_THRESHOLD, ErrBalanceTooHigh);
    var (s1, _) :- RefundAll(s, env.blocked, symbol, pool, order, Remaining(pool.units, pool.native, pool.external));
    Ok(s1.(pools := s1.pools - {symbol}))
  }
}
