/** What the protection bucket guarantees over whole runs: it never overflows, never panics, and limits sales. */
module RateLimit {
  import opened Decimal
  import opened Distribution
  import opened Ledger
  import opened LiquidityAdds
  import opened Protection
  import opened Runs
  import opened Swaps
  import opened Types
  import opened UnitsCheck
  import Rewards
  import Withdrawals

  // ---------- The value of what a step sells and buys ----------

  function Price(s: State, env: Env): nat {
    match NativePrice(s, env.rate)
    case Ok(price) => price
    case Err(_) => 0
  }

  /** The native a sale is charged for: what is sent less its fee. */
  function Net(amount: nat, fee: Fraction): nat {
    match Discounted(amount, fee)
    case Ok(net) => net
    case Err(_) => 0
  }

  /** How much more of a coin an account has. */
  function Gained(s: State, t: State, who: Address, denom: Symbol): int {
    Balance(t.users, CoinKey(who, denom)) - Balance(s.users, CoinKey(who, denom))
  }

  function Quote(s: State, env: Env, symbol: Symbol, native: nat, external: nat): Result<AddQuote> {
    if symbol !in s.pools then Err(ErrPoolDoesNotExist)
    else
      var pool := s.pools[symbol];
      PoolUnits(pool.units, pool.NativeDepth(), pool.ExternalDepth(), native, external,
                env.Fee(NATIVE), env.Fee(symbol), env.rate)
  }

  predicate Metered(s: State, e: Event) {
    e.Deliver? && s.bucket.active && Attempt(s, e).Ok?
  }

  /** Fee-discounted value of the native a step sells, by a swap or inside an asymmetric add. */
  function Sold(s: State, e: Event): nat {
    if !Metered(s, e) then 0
    else match e.msg
    case MsgSwap(_, sent, _, amount, _) =>
      if sent == NATIVE then FuryValue(Net(amount, e.env.Fee(NATIVE)), Price(s, e.env)) else 0
    case MsgAddLiquidity(_, symbol, native, external) =>
      var q := Quote(s, e.env, symbol, native, external);
      if q.Ok? && q.value.status == SellNative
      then FuryValue(Net(q.value.swapAmount, e.env.Fee(NATIVE)), Price(s, e.env)) else 0
    case _ => 0
  }

  /** Value of the native a step buys. A swapper's purchase is what the account gains. */
  function Bought(s: State, e: Event): nat {
    if !Metered(s, e) then 0
    else match e.msg
    case MsgSwap(who, _, received, _, _) =>
      var gained := Gained(s, Step(s, e), who, NATIVE);
      if received == NATIVE && gained > 0 then FuryValue(gained, Price(s, e.env)) else 0
    case MsgAddLiquidity(_, symbol, native, external) =>
      var q := Quote(s, e.env, symbol, native, external);
      if q.Ok? && q.value.status == BuyNative
      then
        var pool := s.pools[symbol];
        FuryValue(SwapResult(true, pool.ExternalDepth(), q.value.swapAmount, pool.NativeDepth(), e.env.rate, e.env.Fee(symbol)).0,
                  Price(s, e.env))
      else 0
    case _ => 0
  }

  /**
   Same settings, and the level is exactly what was there less what was sold plus what was bought, cut at the
   maximum. A level above the maximum can only be sold off.
   */
  predicate Levelled(b: Bucket, c: Bucket, sold: nat, bought: nat) {
    && c.(current := 0) == b.(current := 0)
    && sold <= b.current
    && c.current == if b.current <= b.max then Capped(b.current - sold + bought, b.max) else b.current - sold
  }

  lemma UpdatedLevels(b: Bucket, sell: bool, amount: nat, price: nat)
    requires b.active && Updated(b, sell, amount, price).Ok?
    ensures var v := FuryValue(amount, price);
            Levelled(b, Updated(b, sell, amount, price).value, if sell then v else 0, if sell then 0 else v)
  {
    hide FuryValue, Updated;
    UpdatedExactly(b, sell, amount, price);
  }

  /** The price of native is the pool's ratio shifted by the running rate, up to the last decimals. */
  lemma FurySpotPriceNear(pool: Pool, rate: nat)
    requires FurySpotPrice(pool, rate).Ok?
    ensures var N := pool.NativeDepth();
            Near(FurySpotPrice(pool, rate).value * N * ONE, pool.ExternalDepth() * ONE * (rate + ONE), N * (rate + ONE) + N * ONE)
  {
    hide Quo, Round;
    var N, E, f := pool.NativeDepth(), pool.ExternalDepth(), rate + ONE;
    var q := Quo(E * ONE, N * ONE);
    QuoNear(E * ONE, N * ONE);
    assert q * (N * ONE) == q * N * ONE;
    assert Near(q * N, E * ONE, N);
    PriceNear(q, N, E, f, Mul(q, f));
  }

  lemma PriceNear(q: nat, N: nat, E: nat, f: nat, p: nat)
    requires Near(q * N, E * ONE, N) && p == Round(q * f)
    ensures Near(p * N * ONE, E * ONE * f, N * f + N * ONE)
  {
    hide Round;
    var exact := q * f;
    NearScaled(q * N, E * ONE, N, f);
    RoundNear(exact);
    NearScaled(p * ONE, exact, ONE, N);
    assert q * N * f == exact * N && p * ONE * N == p * N * ONE && ONE * N == N * ONE;
  }

  // ---------- Swaps ----------

  lemma FirstHopKeeps(s: State, env: Env, sent: Symbol, received: Symbol, amount: nat)
    requires (sent == NATIVE || sent in s.pools) && FirstHop(s, env, sent, received, amount).Ok?
    ensures var t := FirstHop(s, env, sent, received, amount).value.0; t.bucket == s.bucket && t.users == s.users
  {
    hide SwapOne;
  }

  lemma LastHopPays(s: State, env: Env, who: Address, sent: Symbol, received: Symbol, amount: nat, least: nat)
    requires LastHop(s, env, who, sent, received, amount, least).Ok?
    ensures var (t, out) := LastHop(s, env, who, sent, received, amount, least).value;
            t.bucket == s.bucket && Gained(s, t, who, received) == out
  {
    hide SwapOne;
  }

  /** A swap updates the bucket with what was sent and what the swapper gained, at the price before the swap. */
  lemma SwapBucket(s: State, env: Env, who: Address, sent: Symbol, received: Symbol, amount: nat, least: nat)
    requires Swap(s, env, who, sent, received, amount, least).Ok?
    ensures var t := Swap(s, env, who, sent, received, amount, least).value;
            var out := Gained(s, t, who, received);
            out >= 0 && SwapPrice(s, env).Ok?
            && SwapUpdates(s.bucket, env, sent, received, amount, out, SwapPrice(s, env).value) == Ok(t.bucket)
  {
    hide FirstHop, LastHop, SwapUpdates, SwapPrice;
    var s1 := Collect(s, who, sent, amount).value;
    FirstHopKeeps(s1, env, sent, received, amount);
    var (s2, hop) := FirstHop(s1, env, sent, received, amount).value;
    LastHopPays(s2, env, who, sent, received, hop, least);
    assert Balance(s2.users, CoinKey(who, received)) == Balance(s.users, CoinKey(who, received));
    assert Swap(s, env, who, sent, received, amount, least).value.users == LastHop(s2, env, who, sent, received, hop, least).value.0.users;
  }

  lemma SwapLevels(s: State, env: Env, m: Msg)
    requires m.MsgSwap? && Handle(s, env, m).Ok?
    ensures var e := Deliver(env, m); Levelled(s.bucket, Step(s, e).bucket, Sold(s, e), Bought(s, e))
  {
    hide Swap, NativePrice, Discounted, FuryValue, Updated;
    var e := Deliver(env, m);
    SwapBucket(s, env, m.who, m.sent, m.received, m.amount, m.least);
    if s.bucket.active && m.sent == NATIVE {
      SwapDistinct(s, env, m.who, m.sent, m.received, m.amount, m.least);
      UpdatedLevels(s.bucket, true, Net(m.amount, env.Fee(NATIVE)), Price(s, env));
    } else if s.bucket.active && m.received == NATIVE {
      var out := Gained(s, Step(s, e), m.who, NATIVE);
      UpdatedLevels(s.bucket, false, out, Price(s, env));
      NothingWorthNothing(Price(s, env));
    }
  }

  lemma SwapDistinct(s: State, env: Env, who: Address, sent: Symbol, received: Symbol, amount: nat, least: nat)
    requires Swap(s, env, who, sent, received, amount, least).Ok?
    ensures sent != received
  {
    hide FirstHop, LastHop, SwapUpdates, SwapPrice;
  }

  lemma NothingWorthNothing(price: nat)
    ensures FuryValue(0, price) == 0
  {
  }

  // ---------- Adds ----------

  lemma AddBucket(s: State, env: Env, who: Address, symbol: Symbol, native: nat, external: nat)
    requires AddLiquidity(s, env, who, symbol, native, external).Ok?
    ensures var q := Quote(s, env, symbol, native, external);
            symbol in s.pools && q.Ok?
            && AddSwaps(s, env, symbol, s.pools[symbol], q.value) == Ok(AddLiquidity(s, env, who, symbol, native, external).value.bucket)
  {
    hide PoolUnits, AddSwaps;
  }

  lemma AddLevels(s: State, env: Env, m: Msg)
    requires m.MsgAddLiquidity? && Handle(s, env, m).Ok?
    ensures var e := Deliver(env, m); Levelled(s.bucket, Step(s, e).bucket, Sold(s, e), Bought(s, e))
  {
    hide AddLiquidity, Quote, NativePrice, Discounted, FuryValue, Updated, SwapResult;
    var e := Deliver(env, m);
    AddBucket(s, env, m.who, m.symbol, m.native, m.external);
    var q, pool := Quote(s, env, m.symbol, m.native, m.external).value, s.pools[m.symbol];
    if s.bucket.active && q.status == SellNative {
      UpdatedLevels(s.bucket, true, Net(q.swapAmount, env.Fee(NATIVE)), Price(s, env));
    } else if s.bucket.active && q.status == BuyNative {
      var out := SwapResult(true, pool.ExternalDepth(), q.swapAmount, pool.NativeDepth(), env.rate, env.Fee(m.symbol)).0;
      UpdatedLevels(s.bucket, false, out, Price(s, env));
    }
  }

  // ---------- Everything else ----------

  lemma RemovePaidBucket(s: State, env: Env, key: LpKey, out: Withdrawals.Payout)
    requires key in s.lps && key.symbol in s.pools && RemovePaid(s, env, key, out).Ok?
    ensures RemovePaid(s, env, key, out).value.bucket == s.bucket
  {
    hide SpendUnlocked, LivePruned;
  }

  lemma OtherBucket(s: State, env: Env, m: Msg)
    requires !m.MsgSwap? && !m.MsgAddLiquidity? && Handle(s, env, m).Ok?
    ensures Handle(s, env, m).value.bucket == s.bucket
  {
    hide Swap, AddLiquidity, RemovePaid, RefundAll, PoolUnits, Withdrawals.FromUnits, Withdrawals.FromBasisPoints, SpendUnlocked, LivePruned;
    match m
    case MsgRemoveLiquidity(who, symbol, wBasis, asymmetry) =>
      var pool, lp := s.pools[symbol], s.lps[LpKey(symbol, who)];
      RemovePaidBucket(s, env, LpKey(symbol, who),
                       Withdrawals.FromBasisPoints(pool.units, pool.NativeDepth(), pool.ExternalDepth(), lp.units, wBasis).value);
    case MsgRemoveLiquidityUnits(who, symbol, units) =>
      var pool, lp := s.pools[symbol], s.lps[LpKey(symbol, who)];
      RemovePaidBucket(s, env, LpKey(symbol, who),
                       Withdrawals.FromUnits(pool.units, pool.NativeDepth(), pool.ExternalDepth(), lp.units, units).value);
    case MsgDecommission(who, symbol, order) =>
      var pool := s.pools[symbol];
      RefundAllDrops(s, env.blocked, symbol, pool, order, Remaining(pool.units, pool.native, pool.external));
    case _ =>
  }

  lemma BlockEndBucket(s: State, e: Event)
    requires e.DistributeToProviders? || e.RewardDepth?
    ensures Step(s, e).bucket == s.bucket
  {
    hide Entries, PayEach, NativeGrants, GrantTotals, Rewards.BlockGrants, Rewards.Topped, Rewards.Unheld, Rewards.GrantSum;
  }

  // ---------- Over runs ----------

  predicate Sets(e: Event) {
    e.SetBucket? || e.SetThreshold?
  }

  lemma StepLevels(s: State, e: Event)
    requires !Sets(e)
    ensures Levelled(s.bucket, Step(s, e).bucket, Sold(s, e), Bought(s, e) + if e.RefillBucket? then Ration(s.bucket) else 0)
  {
    hide Handle, Sold, Bought, ProviderDistribution, Rewards.DepthRewards;
    if e.Deliver? && Attempt(s, e).Ok? {
      if e.msg.MsgSwap? {
        SwapLevels(s, e.env, e.msg);
      } else if e.msg.MsgAddLiquidity? {
        AddLevels(s, e.env, e.msg);
      } else {
        OtherBucket(s, e.env, e.msg);
        NothingTraded(s, e);
      }
    } else {
      NothingTraded(s, e);
      if e.DistributeToProviders? || e.RewardDepth? { BlockEndBucket(s, e); }
    }
  }

  lemma NothingTraded(s: State, e: Event)
    requires Metered(s, e) ==> !e.msg.MsgSwap? && !e.msg.MsgAddLiquidity?
    ensures Sold(s, e) == 0 && Bought(s, e) == 0
  {
    hide Handle;
  }

  function SoldOver(s: State, events: seq<Event>): nat
    decreases |events|
  {
    if events == [] then 0 else Sold(s, events[0]) + SoldOver(Step(s, events[0]), events[1..])
  }

  function BoughtOver(s: State, events: seq<Event>): nat
    decreases |events|
  {
    if events == [] then 0 else Bought(s, events[0]) + BoughtOver(Step(s, events[0]), events[1..])
  }

  function Blocks(events: seq<Event>): nat {
    if events == [] then 0 else (if events[0].RefillBucket? then 1 else 0) + Blocks(events[1..])
  }

  predicate Unattended(events: seq<Event>) {
    forall i | 0 <= i < |events| :: !Sets(events[i])
  }

  /**
   Without administrative changes, what is sold over any run is at most what the bucket held, one ration a
   block, and what was bought.
   */
  lemma {:induction false} SalesRateLimited(s: State, events: seq<Event>)
    requires Unattended(events)
    ensures SoldOver(s, events) + Run(s, events).bucket.current
         <= s.bucket.current + Blocks(events) * Ration(s.bucket) + BoughtOver(s, events)
    ensures s.bucket.current <= s.bucket.max ==>
              SoldOver(s, events) <= s.bucket.max + Blocks(events) * Ration(s.bucket) + BoughtOver(s, events)
    decreases |events|
  {
    hide Step, Sold, Bought, Ration;
    if events != [] {
      var e, t := events[0], Step(s, events[0]);
      assert !Sets(e);
      StepLevels(s, e);
      assert Ration(t.bucket) == Ration(s.bucket) by { SameRation(s.bucket, t.bucket); }
      SalesRateLimited(t, events[1..]);
      assert Blocks(events) * Ration(s.bucket)
          == (if e.RefillBucket? then Ration(s.bucket) else 0) + Blocks(events[1..]) * Ration(s.bucket);
    }
  }

  lemma SameRation(b: Bucket, c: Bucket)
    requires c.(current := 0) == b.(current := 0)
    ensures Ration(c) == Ration(b)
  {
  }

  /** Administrators keep the level they set within the maximum. */
  predicate WithinMax(s: State, e: Event) {
    e.SetThreshold? ==> e.current <= s.bucket.max
  }

  ghost predicate WithinMaxOver(s: State, events: seq<Event>)
    decreases |events|
  {
    events == [] || (WithinMax(s, events[0]) && WithinMaxOver(Step(s, events[0]), events[1..]))
  }

  /** In every reachable state the level is within the maximum, and the next refill cannot underflow. */
  lemma {:induction false} LevelWithinMax(s: State, events: seq<Event>)
    requires s.bucket.current <= s.bucket.max && WithinMaxOver(s, events)
    ensures var b := Run(s, events).bucket;
            b.current <= b.max && (b.epochLength > 0 ==> Refilled(b).Ok?)
    decreases |events|
  {
    hide Step;
    if events != [] {
      var e := events[0];
      if Sets(e) { SettingWithinMax(s, e); } else { StepLevels(s, e); }
      LevelWithinMax(Step(s, e), events[1..]);
    }
  }

  lemma SettingWithinMax(s: State, e: Event)
    requires Sets(e) && WithinMax(s, e)
    ensures Step(s, e).bucket.current <= Step(s, e).bucket.max
  {
  }

  /** New protection parameters start with a full bucket; a level set by hand is taken as it is. Neither moves anything else. */
  lemma SettingsTaken(s: State, b: Bucket, level: nat)
    ensures Step(s, SetBucket(b)) == s.(bucket := Bucket(b.active, b.max, b.asset, b.epochLength, b.max))
    ensures Step(s, SetThreshold(level)).(bucket := s.bucket) == s && Step(s, SetThreshold(level)).bucket.current == level
  {
  }

  // ---------- The panic ----------

  /** Neither ends in the panic nor is refused for the threshold. */
  predicate Calm<T>(r: Result<T>) {
    r.Err? ==> r.error != PanicThreshold && r.error != ErrReachedMaxThreshold
  }

  /** The price native is valued at: one in fury itself, otherwise the spot price of the asset's pool, if it has native. */
  lemma NativePriceExactly(s: State, rate: nat)
    ensures var b, price := s.bucket, NativePrice(s, rate);
            && (price.Ok? <==> b.asset == NATIVE || (b.asset in s.pools && s.pools[b.asset].native + s.pools[b.asset].nativeLiabilities > 0))
            && (b.asset == NATIVE ==> price == Ok(ONE))
            && (price.Ok? && b.asset != NATIVE ==>
                  var pool := s.pools[b.asset];
                  var N, E := pool.native + pool.nativeLiabilities, pool.external + pool.externalLiabilities;
                  Near(price.value * N * ONE, E * ONE * (rate + ONE), N * (rate + ONE) + N * ONE))
  {
    hide Mul, Quo;
    if s.bucket.asset != NATIVE && s.bucket.asset in s.pools && s.pools[s.bucket.asset].NativeDepth() > 0 {
      FurySpotPriceNear(s.pools[s.bucket.asset], rate);
    }
  }

  /** The value of an amount of native exceeds the level. */
  predicate OverLimit(s: State, env: Env, amount: nat) {
    s.bucket.active && NativePrice(s, env.rate).Ok? && FuryValue(amount, NativePrice(s, env.rate).value) > s.bucket.current
  }

  lemma SwapOneCalm(pool: Pool, toFury: bool, sent: nat, rate: nat, fee: Fraction)
    ensures Calm(SwapOne(pool, toFury, sent, rate, fee))
  {
    hide SwapResult;
  }

  lemma PoolUnitsCalm(P: nat, R: nat, A: nat, r: nat, a: nat, sellFee: Fraction, buyFee: Fraction, rate: nat)
    ensures Calm(PoolUnits(P, R, A, r, a, sellFee, buyFee, rate))
  {
    hide SymmetricUnits, ExternalSwapAmount, NativeSwapAmount, SymmetryState;
  }

  /** The native part of an add is refused exactly when it is over the limit, and the update after it cannot panic. */
  lemma AddSwapsCalm(s: State, env: Env, symbol: Symbol, pool: Pool, q: AddQuote)
    ensures var r := AddSwaps(s, env, symbol, pool, q);
            && r != Err(PanicThreshold)
            && (r == Err(ErrReachedMaxThreshold) <==>
                  q.status == SellNative && NATIVE !in env.noSell && symbol !in env.noBuy && OverLimit(s, env, q.swapAmount))
  {
    hide SwapResult, Discounted, FuryValue, Updated, FurySpotPrice;
    NativePriceCalm(s, env.rate);
    if q.status == SellNative && NativePrice(s, env.rate).Ok? && s.bucket.active && !Blocked(s.bucket, q.swapAmount, NativePrice(s, env.rate).value) {
      CheckedSaleUpdates(s.bucket, q.swapAmount, env.Fee(NATIVE), NativePrice(s, env.rate).value);
    }
    if q.status == BuyNative && NativePrice(s, env.rate).Ok? {
      PurchaseCalm(s.bucket, SwapResult(true, pool.ExternalDepth(), q.swapAmount, pool.NativeDepth(), env.rate, env.Fee(symbol)).0,
                   NativePrice(s, env.rate).value);
    }
  }

  lemma NativePriceCalm(s: State, rate: nat)
    ensures Calm(NativePrice(s, rate))
  {
    hide Mul, Quo;
  }

  lemma PurchaseCalm(b: Bucket, amount: nat, price: nat)
    ensures Calm(Updated(b, false, amount, price))
  {
    hide FuryValue;
  }

  lemma FirstHopCalm(s: State, env: Env, sent: Symbol, received: Symbol, amount: nat)
    requires sent == NATIVE || sent in s.pools
    ensures Calm(FirstHop(s, env, sent, received, amount))
  {
    hide SwapOne;
    if sent != NATIVE && received != NATIVE {
      SwapOneCalm(s.pools[sent], true, amount, env.rate, env.Fee(sent));
    }
  }

  lemma LastHopCalm(s: State, env: Env, who: Address, sent: Symbol, received: Symbol, amount: nat, least: nat)
    ensures Calm(LastHop(s, env, who, sent, received, amount, least))
  {
    hide SwapOne;
    var through := if received == NATIVE then sent else received;
    if through in s.pools {
      SwapOneCalm(s.pools[through], received == NATIVE, amount, env.rate, env.Fee(sent));
    }
  }

  lemma SwapUpdatesCalm(b: Bucket, env: Env, sent: Symbol, received: Symbol, amount: nat, out: nat, price: nat)
    requires b.active && sent == NATIVE ==> !Blocked(b, amount, price)
    ensures Calm(SwapUpdates(b, env, sent, received, amount, out, price))
  {
    hide Discounted, FuryValue, Updated, Blocked;
    PurchaseCalm(b, out, price);
    if b.active && sent == NATIVE { CheckedSaleUpdates(b, amount, env.Fee(sent), price); }
  }

  predicate MayTrade(env: Env, sent: Symbol, received: Symbol) {
    sent in env.tradable && received in env.tradable && sent !in env.noSell && received !in env.noBuy
  }

  /**
   A swap is refused for the threshold exactly when it is a native sale over the limit that meets the earlier
   guards, and once it is let through the update after it cannot panic.
   */
  lemma SaleRefusedExactly(s: State, env: Env, who: Address, sent: Symbol, received: Symbol, amount: nat, least: nat)
    ensures var r := Swap(s, env, who, sent, received, amount, least);
            && r != Err(PanicThreshold)
            && (r == Err(ErrReachedMaxThreshold) <==>
                  sent == NATIVE && received != NATIVE && amount > 0 && MayTrade(env, sent, received) && OverLimit(s, env, amount))
  {
    hide FirstHop, LastHop, SwapUpdates, NativePrice, FuryValue;
    NativePriceCalm(s, env.rate);
    var price, collected := SwapPrice(s, env), Collect(s, who, sent, amount);
    if price.Ok? && collected.Ok? && (sent == NATIVE || sent in s.pools)
       && !(s.bucket.active && sent == NATIVE && Blocked(s.bucket, amount, price.value)) {
      var s1 := collected.value;
      FirstHopCalm(s1, env, sent, received, amount);
      var first := FirstHop(s1, env, sent, received, amount);
      if first.Ok? {
        FirstHopKeeps(s1, env, sent, received, amount);
        var (s2, hop) := first.value;
        LastHopCalm(s2, env, who, sent, received, hop, least);
        var last := LastHop(s2, env, who, sent, received, hop, least);
        if last.Ok? {
          LastHopPays(s2, env, who, sent, received, hop, least);
          SwapUpdatesCalm(s.bucket, env, sent, received, amount, last.value.1, price.value);
        }
      }
    }
  }

  /** An add is refused for the threshold exactly when the native it would sell first is over the limit. */
  lemma AddRefusedExactly(s: State, env: Env, who: Address, symbol: Symbol, native: nat, external: nat)
    ensures var r, q := AddLiquidity(s, env, who, symbol, native, external), Quote(s, env, symbol, native, external);
            && r != Err(PanicThreshold)
            && (r == Err(ErrReachedMaxThreshold) <==>
                  && symbol != NATIVE && (native > 0 || external > 0) && symbol in env.tradable
                  && q.Ok? && q.value.status == SellNative && NATIVE !in env.noSell && symbol !in env.noBuy
                  && OverLimit(s, env, q.value.swapAmount))
  {
    hide PoolUnits, AddSwaps, OverLimit;
    if symbol in s.pools {
      var pool := s.pools[symbol];
      PoolUnitsCalm(pool.units, pool.NativeDepth(), pool.ExternalDepth(), native, external, env.Fee(NATIVE), env.Fee(symbol), env.rate);
      var q := PoolUnits(pool.units, pool.NativeDepth(), pool.ExternalDepth(), native, external, env.Fee(NATIVE), env.Fee(symbol), env.rate);
      if q.Ok? { AddSwapsCalm(s, env, symbol, pool, q.value); }
    }
  }

  /** The panic in MustUpdateLiquidityProtectionThreshold is unreachable, whatever the state. */
  lemma ThresholdPanicUnreachable(s: State, env: Env, m: Msg)
    requires m.MsgSwap? || m.MsgAddLiquidity?
    ensures Handle(s, env, m) != Err(PanicThreshold)
  {
    hide Swap, AddLiquidity;
    if m.MsgSwap? {
      SaleRefusedExactly(s, env, m.who, m.sent, m.received, m.amount, m.least);
    } else {
      AddRefusedExactly(s, env, m.who, m.symbol, m.native, m.external);
    }
  }
}
