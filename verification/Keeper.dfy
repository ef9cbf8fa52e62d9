/**
 The keeper: the stores and bank accounts as mutable fields, and the message handlers that change them step by
 step. A handler that fails may leave a message half done; Deliver undoes it.
 */
module Keeper {
  import opened Accounts
  import opened Guarantees
  import opened Ledger
  import opened LiquidityAdds
  import opened Protection
  import opened RateLimit
  import opened Runs
  import opened Swaps
  import opened Terms
  import opened Types
  import opened UnlockRecords
  import opened Unlocks
  import Admission
  import Closing
  import Solvency
  import UnitsCheck
  import UnlockSafety
  import Withdrawals

  class Keeper {
    var pools: map<Symbol, Pool>
    var lps: map<LpKey, Provider>
    var reserve: map<Symbol, nat>
    var users: map<CoinKey, nat>
    var bucket: Bucket

    constructor (s: State)
      ensures Store() == s
    {
      pools, lps, reserve, users, bucket := s.pools, s.lps, s.reserve, s.users, s.bucket;
    }

    function Store(): State
      reads this
    {
      State(pools, lps, reserve, users, bucket)
    }

    /** The ledger invariants of the stored state. */
    ghost predicate Valid()
      reads this
    {
      Sound(Store())
    }

    /** The coins after a successful message of one signer: conserved, and no account but the signer's touched. */
    ghost predicate Moves(before: State, who: Address)
      reads this
    {
      && Conserves(before, Store()) && OnlyOwner(before.users, Store().users, who)
      && (Solvency.WellFormed(before) ==> KeepsSurplus(before, Store()))
    }

    /** The outcome is the one specified: the same error, or success in the specified state. */
    ghost predicate Yields(spec: Result<State>, r: Result<()>)
      reads this
    {
      match spec
      case Ok(t) => r.Ok? && Store() == t
      case Err(e) => r == Err(e)
    }

    // ---------- The bank ----------

    method SendFromAccountToModule(who: Address, denom: Symbol, amount: nat) returns (r: Result<()>)
      modifies this`users, this`reserve
      ensures Yields(Collect(old(Store()), who, denom, amount), r)
    {
      var k := CoinKey(who, denom);
      if Balance(users, k) < amount { return Err(ErrBalanceNotAvailable); }
      users := users[k := Balance(users, k) - amount];
      reserve := reserve[denom := Balance(reserve, denom) + amount];
      return Ok(());
    }

    method SendFromModuleToAccount(blocked: set<Address>, who: Address, denom: Symbol, amount: nat) returns (r: Result<()>)
      modifies this`users, this`reserve
      ensures Yields(Pay(old(Store()), blocked, who, denom, amount), r)
      ensures r.Err? ==> Store() == old(Store())
    {
      var k := CoinKey(who, denom);
      if who in blocked || Balance(reserve, denom) < amount { return Err(ErrBankRefused); }
      users := users[k := Balance(users, k) + amount];
      reserve := reserve[denom := Balance(reserve, denom) - amount];
      return Ok(());
    }

    method CollectCoins(who: Address, symbol: Symbol, native: nat, external: nat) returns (r: Result<()>)
      modifies this`users, this`reserve
      ensures Yields(CollectBoth(old(Store()), who, symbol, native, external), r)
    {
      var _ :- SendFromAccountToModule(who, symbol, external);
      r := SendFromAccountToModule(who, NATIVE, native);
    }

    method PayCoins(blocked: set<Address>, who: Address, symbol: Symbol, native: nat, external: nat) returns (r: Result<()>)
      modifies this`users, this`reserve
      ensures Yields(PayBoth(old(Store()), blocked, who, symbol, native, external), r)
    {
      if native == 0 && external == 0 { return Ok(()); }
      :- Need(external <= Balance(reserve, symbol) && native <= Balance(reserve, NATIVE), ErrNotEnoughLiquidity);
      var _ :- SendFromModuleToAccount(blocked, who, symbol, external);
      r := SendFromModuleToAccount(blocked, who, NATIVE, native);
    }

    // ---------- Executors ----------

    method CreatePoolAndProvider(who: Address, symbol: Symbol, native: nat, external: nat, poolUnits: nat, lpUnits: nat) returns (r: Result<()>)
      modifies this`pools, this`lps, this`users, this`reserve
      ensures Yields(Opened(old(Store()), who, symbol, native, external, poolUnits, lpUnits), r)
    {
      hide CollectBoth;
      var _ :- CollectCoins(who, symbol, native, external);
      pools := pools[symbol := Pool(native, external, poolUnits, 0, 0, 0, 0)];
      lps := lps[LpKey(symbol, who) := Provider(lpUnits, [])];
      return Ok(());
    }

    method AddToPool(who: Address, symbol: Symbol, native: nat, external: nat, poolUnits: nat, lpUnits: nat) returns (r: Result<()>)
      requires symbol in pools
      modifies this`pools, this`lps, this`users, this`reserve
      ensures Yields(Added(old(Store()), who, symbol, native, external, poolUnits, lpUnits), r)
    {
      hide CollectBoth;
      var pool := pools[symbol];
      var _ :- CollectCoins(who, symbol, native, external);
      pool := pool.(units := poolUnits);
      pool := pool.(native := pool.native + native);
      pool := pool.(external := pool.external + external);
      var key, extra := LpKey(symbol, who), lpUnits;
      var lp: Provider;
      if key in lps {
        lp := lps[key];
      } else {
        lp := Provider(lpUnits, []);
        lps := lps[key := lp];
        extra := 0;
      }
      lp := lp.(units := lp.units + extra);
      pools := pools[symbol := pool];
      lps := lps[key := lp];
      return Ok(());
    }

    /** UseUnlockedLiquidity: spends through the caller's records, and stores the ones that are left. */
    method UseUnlockedLiquidity(key: LpKey, lp: Provider, records: seq<Record>, units: nat, env: Env, any: bool) returns (r: Result<()>)
      requires Apart(records)
      modifies this`lps, records
      ensures var spec := SpendUnlocked(old(Values(records)), units, env, any);
              match spec
              case Err(e) => r == Err(e)
              case Ok(vs) => r.Ok? && Values(records) == vs && lps == old(lps)[key := lp.(unlocks := NonZero(vs))]
    {
      hide Spent, NonZero;
      var left := UseRecords(records, units, env.height, env.lockPeriod, any);
      if env.lockPeriod != 0 && left != 0 { return Err(ErrBalanceNotAvailable); }
      var kept := DropEmpty(records);
      lps := lps[key := lp.(unlocks := Values(kept))];
      return Ok(());
    }

    /** PruneUnlockRecords: the records of a provider just read, pruned, and stored again if any was dropped. */
    method PruneUnlockRecords(key: LpKey, env: Env) returns (lp: Provider, records: seq<Record>)
      requires key in lps
      modifies this`lps
      ensures fresh(records) && Apart(records) && Values(records) == LivePruned(old(lps)[key], env)
      ensures lp == old(lps)[key].(unlocks := Values(records)) && lps == old(lps)[key := lp]
      ensures !Emptied(Values(records))
    {
      hide Pruned, Emptied;
      lp := lps[key];
      var all := Load(lp.unlocks);
      records := PruneRecords(all, env.height, env.lockPeriod, env.cancelPeriod);
      assert forall i | 0 <= i < |records| :: records[i] in all;
      PrunedNoneEmptied(lp.unlocks, env.height, env.lockPeriod, env.cancelPeriod);
      if |records| < |all| {
        lp := lp.(unlocks := Values(records));
        lps := lps[key := lp];
      } else {
        PrunedWhole(lp.unlocks, env.height, env.lockPeriod, env.cancelPeriod);
      }
    }

    /** Keeper.RemoveLiquidity and the subtractions before it; `records` are the caller's, already spent. */
    method RemoveFromPool(blocked: set<Address>, key: LpKey, lp: Provider, out: Withdrawals.Payout, records: seq<Record>) returns (r: Result<()>)
      requires key in lps && key.symbol in pools && lp.units == lps[key].units
      modifies this`pools, this`lps, this`users, this`reserve
      ensures Yields(Removed(old(Store()), blocked, key, out, Values(records)), r)
    {
      hide PayBoth;
      var pool := pools[key.symbol];
      var nativeDepth, externalDepth := pool.NativeDepth(), pool.ExternalDepth();
      var others :- Sub(pool.units, lp.units);
      pool := pool.(units := others + out.unitsLeft);
      var native :- Sub(pool.native, out.native);
      pool := pool.(native := native);
      var external :- Sub(pool.external, out.external);
      pool := pool.(external := external);
      :- Need(!(out.external >= externalDepth || out.native >= nativeDepth), ErrPoolTooShallow);
      pools := pools[key.symbol := pool];
      var _ :- PayCoins(blocked, key.address, key.symbol, out.native, out.external);
      if out.unitsLeft == 0 {
        lps := lps - {key};
      } else {
        lps := lps[key := Provider(out.unitsLeft, Values(records))];
      }
      return Ok(());
    }

    // ---------- Messages ----------

    method CreatePool(env: Env, who: Address, symbol: Symbol, native: nat, external: nat) returns (r: Result<()>)
      modifies this`pools, this`lps, this`users, this`reserve
      ensures Yields(Ledger.CreatePool(old(Store()), env, who, symbol, native, external), r)
      // The signer pays exactly the two amounts, and the pool starts in step with its first provider.
      ensures r.Ok? ==> Moves(old(Store()), who) && symbol in pools && symbol !in old(pools)
      ensures r.Ok? ==> Gained(old(Store()), Store(), who, NATIVE) == 0 - native
                        && Gained(old(Store()), Store(), who, symbol) == 0 - external
      ensures r.Ok? && UnitsCheck.UnitsMatch(old(Store())) ==> UnitsCheck.UnitsMatch(Store())
      // It takes the threshold in native, some external and both in the signer's account, and yields as many units as native.
      ensures r.Ok? <==> && symbol != NATIVE && native >= POOL_THRESHOLD && external > 0 && symbol in env.tradable && symbol !in old(pools)
                         && Admission.Owns(old(Store()), who, NATIVE, native) && Admission.Owns(old(Store()), who, symbol, external)
      ensures r.Ok? ==> Admission.OpenTerms(old(Store()), Store(), who, symbol, native, external)
    {
      ghost var before := Store();
      hide PoolUnits, Opened, Conserves, KeepsSurplus, OnlyOwner, Gained, Solvency.WellFormed, UnitsCheck.UnitsMatch,
           Admission.Owns, Admission.OpenTerms;
      Admission.CreatesExactly(before, env, who, symbol, native, external);
      :- Need(symbol != NATIVE && native > 0 && external > 0, ErrInvalid);
      :- Need(native >= POOL_THRESHOLD, ErrTotalAmountTooLow);
      :- Need(symbol in env.tradable, ErrPermissionDenied);
      :- Need(symbol !in pools, ErrUnableToCreatePool);
      var q :- PoolUnits(0, 0, 0, native, external, env.Fee(NATIVE), env.Fee(symbol), env.rate);
      r := CreatePoolAndProvider(who, symbol, native, external, q.poolUnits, q.lpUnits);
      if r.Ok? {
        CreatedPool(before, env, who, symbol, native, external);
      }
    }

    /** MustUpdateLiquidityProtectionThreshold. */
    method MustUpdateThreshold(sell: bool, amount: nat, price: nat) returns (r: Result<()>)
      modifies this`bucket
      ensures match Updated(old(bucket), sell, amount, price)
              case Ok(b) => r.Ok? && bucket == b
              case Err(e) => r == Err(e)
      // The level is accounted for and stays within the maximum; a sale the check let through never panics.
      ensures r.Ok? && old(bucket.active) ==>
                var value := FuryValue(amount, price);
                Levelled(old(bucket), bucket, if sell then value else 0, if sell then 0 else value)
      ensures old(bucket.current <= bucket.max) && (sell ==> !Blocked(old(bucket), amount, price)) ==> r.Ok?
    {
      hide FuryValue;
      if !bucket.active { return Ok(()); }
      var value := FuryValue(amount, price);
      if sell {
        if bucket.current < value { return Err(PanicThreshold); }
        bucket := bucket.(current := bucket.current - value);
      } else {
        var room :- Sub(bucket.max, bucket.current);
        bucket := bucket.(current := if room < value then bucket.max else bucket.current + value);
      }
      return Ok(());
    }

    /** The switch on the swap status of an add. */
    method MeterAdd(env: Env, symbol: Symbol, pool: Pool, q: AddQuote) returns (r: Result<()>)
      modifies this`bucket
      ensures match AddSwaps(old(Store()), env, symbol, pool, q)
              case Ok(b) => r.Ok? && bucket == b
              case Err(e) => r == Err(e)
    {
      hide NativePrice, Discounted, Updated, SwapResult, Blocked;
      match q.status
      case NoSwap => return Ok(());
      case SellNative =>
        :- Need(NATIVE !in env.noSell && symbol !in env.noBuy, ErrPermissionDenied);
        if bucket.active {
          var price :- NativePrice(Store(), env.rate);
          :- Need(!Blocked(bucket, q.swapAmount, price), ErrReachedMaxThreshold);
          var net :- Discounted(q.swapAmount, env.Fee(NATIVE));
          r := MustUpdateThreshold(true, net, price);
          return;
        }
        return Ok(());
      case BuyNative =>
        :- Need(symbol !in env.noSell && NATIVE !in env.noBuy, ErrPermissionDenied);
        if bucket.active {
          var bought := SwapResult(true, pool.ExternalDepth(), q.swapAmount, pool.NativeDepth(), env.rate, env.Fee(symbol)).0;
          var price :- NativePrice(Store(), env.rate);
          r := MustUpdateThreshold(false, bought, price);
          return;
        }
        return Ok(());
    }

    method AddLiquidity(env: Env, who: Address, symbol: Symbol, native: nat, external: nat) returns (r: Result<()>)
      modifies this
      ensures Yields(Ledger.AddLiquidity(old(Store()), env, who, symbol, native, external), r)
      // The signer pays exactly the two amounts, and the units stay in step exactly when the pool met their condition.
      ensures r.Ok? ==> Moves(old(Store()), who) && symbol in old(pools)
      ensures r.Ok? ==> Gained(old(Store()), Store(), who, NATIVE) == 0 - native
                        && Gained(old(Store()), Store(), who, symbol) == 0 - external
      ensures r.Ok? && UnitsCheck.UnitsMatch(old(Store())) ==>
                (UnitsCheck.UnitsMatch(Store()) <==> UnitsCheck.SoundAdd(old(pools)[symbol]))
      // The units issued are the share of what the swap of the heavy side leaves; see LiquidityAdds.Priced.
      ensures r.Ok? ==> AddTerms(old(Store()), Store(), env, who, symbol, native, external)
    {
      ghost var before := Store();
      hide PoolUnits, AddSwaps, Added, Conserves, KeepsSurplus, OnlyOwner, Gained, Solvency.WellFormed,
           UnitsCheck.UnitsMatch, UnitsCheck.SoundAdd, AddTerms;
      :- Need(symbol != NATIVE && (native > 0 || external > 0), ErrInvalid);
      :- Need(symbol in env.tradable, ErrPermissionDenied);
      :- Need(symbol in pools, ErrPoolDoesNotExist);
      var pool := pools[symbol];
      var q :- PoolUnits(pool.units, pool.NativeDepth(), pool.ExternalDepth(), native, external,
                         env.Fee(NATIVE), env.Fee(symbol), env.rate);
      var _ :- MeterAdd(env, symbol, pool, q);
      r := AddToPool(who, symbol, native, external, q.poolUnits, q.lpUnits);
      if r.Ok? {
        AddedLiquidity(before, env, who, symbol, native, external);
        AddEarns(before, env, who, symbol, native, external);
      }
    }

    /** The protection half of a swap, before anything moves: the price, and the check on a native sale. */
    method CheckSale(env: Env, sent: Symbol, amount: nat) returns (r: Result<nat>)
      ensures r == match SwapPrice(Store(), env)
                   case Err(e) => Err(e)
                   case Ok(price) =>
                     if bucket.active && sent == NATIVE && Blocked(bucket, amount, price) then Err(ErrReachedMaxThreshold) else Ok(price)
    {
      hide NativePrice, Blocked;
      if !bucket.active { return Ok(0); }
      var price :- NativePrice(Store(), env.rate);
      if sent == NATIVE && Blocked(bucket, amount, price) { return Err(ErrReachedMaxThreshold); }
      return Ok(price);
    }

    method SwapThroughNative(env: Env, sent: Symbol, received: Symbol, amount: nat) returns (r: Result<nat>)
      requires sent == NATIVE || sent in pools
      modifies this`pools
      ensures match FirstHop(old(Store()), env, sent, received, amount)
              case Ok((t, hop)) => r == Ok(hop) && Store() == t
              case Err(e) => r == Err(e)
    {
      hide SwapOne;
      if sent != NATIVE && received != NATIVE {
        var swapped :- SwapOne(pools[sent], true, amount, env.rate, env.Fee(sent));
        var (out, pool) := swapped;
        pools := pools[sent := pool];
        return Ok(out);
      }
      return Ok(amount);
    }

    method SwapAndPay(env: Env, who: Address, sent: Symbol, received: Symbol, amount: nat, least: nat) returns (r: Result<nat>)
      modifies this`pools, this`users, this`reserve
      ensures match LastHop(old(Store()), env, who, sent, received, amount, least)
              case Ok((t, out)) => r == Ok(out) && Store() == t
              case Err(e) => r == Err(e)
    {
      hide SwapOne, Pay;
      var through := if received == NATIVE then sent else received;
      :- Need(through in pools, ErrPoolDoesNotExist);
      var swapped :- SwapOne(pools[through], received == NATIVE, amount, env.rate, env.Fee(sent));
      var (out, pool) := swapped;
      :- Need(out >= least, ErrReceivedAmountBelowExpected);
      pools := pools[through := pool];
      var _ :- SendFromModuleToAccount(env.blocked, who, received, out);
      return Ok(out);
    }

    method MeterSwap(env: Env, sent: Symbol, received: Symbol, amount: nat, out: nat, price: nat) returns (r: Result<()>)
      requires sent != received
      modifies this`bucket
      ensures match SwapUpdates(old(bucket), env, sent, received, amount, out, price)
              case Ok(b) => r.Ok? && bucket == b
              case Err(e) => r == Err(e)
    {
      hide Discounted, Updated;
      if bucket.active {
        if sent == NATIVE {
          var net :- Discounted(amount, env.Fee(sent));
          var _ :- MustUpdateThreshold(true, net, price);
        }
        if received == NATIVE {
          var _ :- MustUpdateThreshold(false, out, price);
        }
      }
      return Ok(());
    }

    /** The steps of a swap, from the guards to the bucket. */
    method PerformSwap(env: Env, who: Address, sent: Symbol, received: Symbol, amount: nat, least: nat) returns (r: Result<()>)
      modifies this`pools, this`users, this`reserve, this`bucket
      ensures Yields(Ledger.Swap(old(Store()), env, who, sent, received, amount, least), r)
    {
      hide SwapPrice, FirstHop, LastHop, SwapUpdates, Blocked, Collect;
      :- Need(sent != received && amount > 0, ErrInvalid);
      :- Need(sent in env.tradable && received in env.tradable && sent !in env.noSell && received !in env.noBuy, ErrPermissionDenied);
      var price :- CheckSale(env, sent, amount);
      :- Need(sent == NATIVE || sent in pools, ErrPoolDoesNotExist);
      var _ :- SendFromAccountToModule(who, sent, amount);
      var hop :- SwapThroughNative(env, sent, received, amount);
      var out :- SwapAndPay(env, who, sent, received, hop, least);
      r := MeterSwap(env, sent, received, amount, out, price);
    }

    method Swap(env: Env, who: Address, sent: Symbol, received: Symbol, amount: nat, least: nat) returns (r: Result<()>)
      modifies this`pools, this`users, this`reserve, this`bucket
      ensures Yields(Ledger.Swap(old(Store()), env, who, sent, received, amount, least), r)
      // The swapper pays exactly what is sent and receives at least the minimum; the level stays within its maximum.
      ensures r.Ok? ==> Moves(old(Store()), who)
      ensures r.Ok? ==> Gained(old(Store()), Store(), who, sent) == 0 - amount
                        && Gained(old(Store()), Store(), who, received) >= least
      ensures r.Ok? && old(bucket.current <= bucket.max) ==> bucket.current <= bucket.max
      ensures r != Err(PanicThreshold)
      // What is received is the exact amount at the running rate and the fee of the asset sent, to within a unit a hop.
      ensures r.Ok? ==> SwapTerms(old(Store()), Store(), env, who, sent, received, amount)
      ensures r == Err(ErrReachedMaxThreshold) <==>
                sent == NATIVE && received != NATIVE && amount > 0 && MayTrade(env, sent, received) && OverLimit(old(Store()), env, amount)
    {
      hide Ledger.Swap, Conserves, KeepsSurplus, OnlyOwner, Gained, Solvency.WellFormed, SwapTerms, OverLimit;
      ghost var before := Store();
      SaleRefusedExactly(before, env, who, sent, received, amount, least);
      r := PerformSwap(env, who, sent, received, amount, least);
      if r.Ok? {
        Swapped(before, env, who, sent, received, amount, least);
        SwapPays(before, env, who, sent, received, amount, least);
      }
    }

    /** The common part of both removals: the records are spent through `records` before the executor stores them. */
    method RemovePayout(env: Env, key: LpKey, out: Withdrawals.Payout) returns (r: Result<()>)
      requires key in lps && key.symbol in pools
      modifies this
      ensures Yields(RemovePaid(old(Store()), env, key, out), r)
    {
      hide SpendUnlocked, LivePruned, Removed, Emptied;
      ghost var before := Store();
      var lp, records := PruneUnlockRecords(key, env);
      var used :- Sub(lp.units, out.unitsLeft);
      var _ :- UseUnlockedLiquidity(key, lp, records, used, env, false);
      ghost var stored := Provider(lp.units, NonZero(Values(records)));
      RemovedOverwrites(before, env.blocked, key, out, Values(records), stored);
      assert lps == before.lps[key := stored];
      r := RemoveFromPool(env.blocked, key, lp, out, records);
    }

    method RemoveLiquidityUnits(env: Env, who: Address, symbol: Symbol, units: nat) returns (r: Result<()>)
      modifies this
      ensures Yields(Ledger.RemoveLiquidityUnits(old(Store()), env, who, symbol, units), r)
      ensures r.Ok? ==> Moves(old(Store()), who)
      // Each side pays the units' share of the pool's units, and the provider has exactly that many fewer.
      ensures r.Ok? && NATIVE !in old(pools) ==> UnitsTerms(old(Store()), Store(), who, symbol, units)
    {
      hide Withdrawals.FromUnits, RemovePaid, Conserves, KeepsSurplus, OnlyOwner, Solvency.WellFormed, UnitsTerms;
      ghost var before := Store();
      var key := LpKey(symbol, who);
      :- Need(units > 0, ErrInvalid);
      :- Need(symbol in env.tradable, ErrPermissionDenied);
      :- Need(symbol in pools, ErrPoolDoesNotExist);
      :- Need(key in lps, ErrLiquidityProviderDoesNotExist);
      var pool, lp := pools[symbol], lps[key];
      :- Need(units <= lp.units, ErrUnableToRemoveLiquidity);
      var out :- Withdrawals.FromUnits(pool.units, pool.NativeDepth(), pool.ExternalDepth(), lp.units, units);
      r := RemovePayout(env, key, out);
      if r.Ok? {
        MessageKeeps(before, env, MsgRemoveLiquidityUnits(who, symbol, units));
        if NATIVE !in before.pools { RemovalByUnitsPays(before, env, who, symbol, units); }
      }
    }

    method RemoveLiquidity(env: Env, who: Address, symbol: Symbol, wBasis: int, asymmetry: int) returns (r: Result<()>)
      modifies this
      ensures Yields(Ledger.RemoveLiquidity(old(Store()), env, who, symbol, wBasis, asymmetry), r)
      ensures r.Ok? ==> Moves(old(Store()), who)
      // The same of the basis points' part of the provider's units.
      ensures r.Ok? && NATIVE !in old(pools) ==> BasisPointsTerms(old(Store()), Store(), who, symbol, wBasis)
    {
      hide Withdrawals.FromBasisPoints, RemovePaid, Conserves, KeepsSurplus, OnlyOwner, Solvency.WellFormed, BasisPointsTerms;
      ghost var before := Store();
      var key := LpKey(symbol, who);
      :- Need(0 < wBasis <= MAX_WBASIS, ErrInvalid);
      :- Need(symbol in env.tradable, ErrPermissionDenied);
      :- Need(symbol in pools, ErrPoolDoesNotExist);
      :- Need(key in lps, ErrLiquidityProviderDoesNotExist);
      :- Need(asymmetry == 0, ErrInvalid);
      var pool, lp := pools[symbol], lps[key];
      var units := lp.units / (MAX_WBASIS / wBasis);
      :- Need(units <= lp.units, ErrUnableToRemoveLiquidity);
      var out :- Withdrawals.FromBasisPoints(pool.units, pool.NativeDepth(), pool.ExternalDepth(), lp.units, wBasis);
      r := RemovePayout(env, key, out);
      if r.Ok? {
        MessageKeeps(before, env, MsgRemoveLiquidity(who, symbol, wBasis, asymmetry));
        if NATIVE !in before.pools { RemovalByBasisPointsPays(before, env, who, symbol, wBasis, asymmetry); }
      }
    }

    method UnlockLiquidity(env: Env, who: Address, symbol: Symbol, units: nat) returns (r: Result<()>)
      modifies this`lps
      ensures Yields(Ledger.UnlockLiquidity(old(Store()), env, who, symbol, units), r)
      // The request joins what was waiting, and is taken exactly when both fit in the provider's units.
      ensures var key := LpKey(symbol, who);
              && (r.Ok? <==> key in old(lps) && OutstandingAfter(old(lps)[key].unlocks, UnlockSafety.Expired(env)) + units <= old(lps)[key].units)
              && (r.Ok? ==> key in lps && Outstanding(lps[key].unlocks) == OutstandingAfter(old(lps)[key].unlocks, UnlockSafety.Expired(env)) + units)
    {
      hide LivePruned, Outstanding, OutstandingAfter, Emptied;
      ghost var before := Store();
      UnlockSafety.RequestsExactly(before, env, who, symbol, units);
      var key := LpKey(symbol, who);
      :- Need(key in lps, ErrLiquidityProviderDoesNotExist);
      var lp, records := PruneUnlockRecords(key, env);
      var total := TotalUnits(records);
      if total + units > lp.units { return Err(ErrBalanceNotAvailable); }
      var request := new Record(Unlock(env.height, units));
      var all := records + [request];
      assert Values(all) == Values(records) + [Unlock(env.height, units)];
      lps := lps[key := lp.(unlocks := Values(all))];
      return Ok(());
    }

    method CancelUnlockLiquidity(env: Env, who: Address, symbol: Symbol, units: nat) returns (r: Result<()>)
      modifies this`lps
      ensures Yields(CancelUnlock(old(Store()), env, who, symbol, units), r)
      // It goes through exactly when there is no lock period or that much is waiting.
      ensures var key := LpKey(symbol, who);
              r.Ok? <==> key in old(lps) && (env.lockPeriod == 0 || units <= OutstandingAfter(old(lps)[key].unlocks, UnlockSafety.Expired(env)))
    {
      hide LivePruned, SpendUnlocked, NonZero, Emptied, Outstanding, OutstandingAfter;
      UnlockSafety.CancelsExactly(Store(), env, who, symbol, units);
      var key := LpKey(symbol, who);
      :- Need(key in lps, ErrLiquidityProviderDoesNotExist);
      var lp, records := PruneUnlockRecords(key, env);
      r := UseUnlockedLiquidity(key, lp, records, units, env, true);
    }

    /** One provider paid off, with what the pool still holds counted down. */
    method RefundProvider(blocked: set<Address>, symbol: Symbol, pool: Pool, who: Address, left: Remaining) returns (r: Result<Remaining>)
      modifies this`lps, this`users, this`reserve
      ensures match Refund(old(Store()), blocked, symbol, pool, who, left)
              case Ok((t, after)) => r == Ok(after) && Store() == t
              case Err(e) => r == Err(e)
    {
      hide Withdrawals.FromBasisPoints, Pay;
      var key := LpKey(symbol, who);
      :- Need(key in lps, ErrLiquidityProviderDoesNotExist);
      var out :- Withdrawals.FromBasisPoints(pool.units, pool.NativeDepth(), pool.ExternalDepth(), lps[key].units, MAX_WBASIS);
      var units :- Sub(left.units, lps[key].units);
      var native :- Sub(left.native, out.native);
      var external :- Sub(left.external, out.external);
      var _ :- SendFromModuleToAccount(blocked, who, symbol, out.external);
      var _ :- SendFromModuleToAccount(blocked, who, NATIVE, out.native);
      lps := lps - {key};
      return Ok(Remaining(units, native, external));
    }

    method DecommissionPool(env: Env, who: Address, symbol: Symbol, order: seq<Address>) returns (r: Result<()>)
      modifies this
      ensures Yields(Decommission(old(Store()), env, who, symbol, order), r)
      // Every provider gains exactly its dues, and nobody else anything.
      ensures r.Ok? && Solvency.WellFormed(old(Store())) && Lists(old(Store()), symbol, order) ==>
                symbol in old(pools) && Closing.PaysDues(old(Store()), Store(), symbol)
    {
      hide Refund, Closing.PaysDues;
      ghost var before := Store();
      :- Need(symbol in pools, ErrPoolDoesNotExist);
      :- Need(who in env.admins, ErrPermissionDenied);
      var pool := pools[symbol];
      :- Need(!(pool.native >= POOL_THRESHOLD), ErrBalanceTooHigh);
      var left := Remaining(pool.units, pool.native, pool.external);
      ghost var spec := RefundAll(Store(), env.blocked, symbol, pool, order, left);
      assert order[0..] == order;
      for i := 0 to |order|
        invariant spec == RefundAll(Store(), env.blocked, symbol, pool, order[i..], left)
      {
        assert order[i..][0] == order[i] && order[i..][1..] == order[i + 1..];
        left :- RefundProvider(env.blocked, symbol, pool, order[i], left);
      }
      pools := pools - {symbol};
      if Solvency.WellFormed(before) && Lists(before, symbol, order) { Closing.ClosingPaysDues(before, env, who, symbol, order); }
      return Ok(());
    }

    // ---------- The bucket ----------

    /** The replenishment of BeginBlocker. A level above the maximum, or no epoch length, halts the chain. */
    method RefillThreshold() returns (r: Result<()>)
      modifies this`bucket
      ensures Yields(Refill(old(Store())), r)
      ensures old(bucket.current <= bucket.max && bucket.epochLength > 0) ==> r.Ok? && old(bucket.current) <= bucket.current <= bucket.max
    {
      if !bucket.active { return Ok(()); }
      if bucket.epochLength == 0 { return Err(PanicArithmetic); }
      var replenishment := bucket.max / bucket.epochLength;
      var room :- Sub(bucket.max, bucket.current);
      var current := bucket.current;
      if room < replenishment {
        current := bucket.max;
      } else {
        current := current + replenishment;
      }
      bucket := bucket.(current := current);
      return Ok(());
    }

    // ---------- Delivery ----------

    method Handle(env: Env, m: Msg) returns (r: Result<()>)
      modifies this
      ensures Yields(Runs.Handle(old(Store()), env, m), r)
    {
      hide Ledger.CreatePool, Ledger.AddLiquidity, Ledger.Swap, Ledger.RemoveLiquidity, Ledger.RemoveLiquidityUnits,
           Ledger.UnlockLiquidity, CancelUnlock, Decommission;
      match m
      case MsgCreatePool(who, symbol, native, external) => r := CreatePool(env, who, symbol, native, external);
      case MsgAddLiquidity(who, symbol, native, external) => r := AddLiquidity(env, who, symbol, native, external);
      case MsgSwap(who, sent, received, amount, least) => r := Swap(env, who, sent, received, amount, least);
      case MsgRemoveLiquidity(who, symbol, wBasis, asymmetry) => r := RemoveLiquidity(env, who, symbol, wBasis, asymmetry);
      case MsgRemoveLiquidityUnits(who, symbol, units) => r := RemoveLiquidityUnits(env, who, symbol, units);
      case MsgUnlockLiquidity(who, symbol, units) => r := UnlockLiquidity(env, who, symbol, units);
      case MsgCancelUnlock(who, symbol, units) => r := CancelUnlockLiquidity(env, who, symbol, units);
      case MsgDecommission(who, symbol, order) => r := DecommissionPool(env, who, symbol, order);
    }

    /** A message is all or nothing: whatever a failing handler wrote is taken back. */
    method Deliver(env: Env, m: Msg) returns (r: Result<()>)
      modifies this
      ensures Store() == Step(old(Store()), Runs.Deliver(env, m))
      ensures r.Ok? <==> Runs.Handle(old(Store()), env, m).Ok?
      // No coin is made or lost, and a message other than a decommission moves only its signer's.
      ensures Conserves(old(Store()), Store())
      ensures r.Ok? && !m.MsgDecommission? ==> OnlyOwner(old(Store()).users, Store().users, m.who)
      // The module stays solvent, and its surplus is the same unless a pool is closed.
      ensures ValidEvent(old(Store()), Runs.Deliver(env, m)) && Solvent(old(Store())) ==>
                Solvent(Store()) && (!m.MsgDecommission? ==> KeepsSurplus(old(Store()), Store()))
      // The invariants are kept, if an add meets the condition of UnitsCheck.AddLiquidityUnits.
      ensures ValidEvent(old(Store()), Runs.Deliver(env, m)) && UnitsCheck.SoundStep(old(Store()), Runs.Deliver(env, m)) && old(Valid())
              ==> Valid()
      // No provider has more units waiting than it holds.
      ensures UnlockSafety.Backed(old(Store()), env.height) ==> UnlockSafety.Backed(Store(), env.height)
    {
      hide Runs.Handle, ValidEvent, Solvent, Conserves, KeepsSurplus, OnlyOwner, Sound, UnitsCheck.SoundStep, UnlockSafety.Backed;
      var before := Store();
      Delivered(before, env, m);
      r := Handle(env, m);
      if r.Err? {
        pools, lps, reserve, users, bucket := before.pools, before.lps, before.reserve, before.users, before.bucket;
      }
    }
  }

  /** What a delivery guarantees, for Keeper.Deliver. */
  lemma Delivered(s: State, env: Env, m: Msg)
    ensures var t := Step(s, Runs.Deliver(env, m));
            && Conserves(s, t)
            && (Runs.Handle(s, env, m).Ok? && !m.MsgDecommission? ==> OnlyOwner(s.users, t.users, m.who))
            && (ValidEvent(s, Runs.Deliver(env, m)) && Solvent(s) ==> Solvent(t) && (!m.MsgDecommission? ==> KeepsSurplus(s, t)))
            && (ValidEvent(s, Runs.Deliver(env, m)) && UnitsCheck.SoundStep(s, Runs.Deliver(env, m)) && Sound(s) ==> Sound(t))
            && (UnlockSafety.Backed(s, env.height) ==> UnlockSafety.Backed(t, env.height))
  {
    hide Runs.Handle, ValidEvent, Solvent, Conserves, KeepsSurplus, OnlyOwner, Sound, UnitsCheck.SoundStep, UnlockSafety.Backed;
    DeliveryConserves(s, env, m);
    if Runs.Handle(s, env, m).Ok? && !m.MsgDecommission? { MessageKeeps(s, env, m); }
    if ValidEvent(s, Runs.Deliver(env, m)) {
      if Solvent(s) { DeliverySolvent(s, env, m); }
      if UnitsCheck.SoundStep(s, Runs.Deliver(env, m)) && Sound(s) { DeliverySound(s, env, m); }
    }
    if UnlockSafety.Backed(s, env.height) { DeliveryBacked(s, env, m); }
  }

  lemma CreatedPool(s: State, env: Env, who: Address, symbol: Symbol, native: nat, external: nat)
    requires Ledger.CreatePool(s, env, who, symbol, native, external).Ok?
    ensures var t := Ledger.CreatePool(s, env, who, symbol, native, external).value;
            && Conserves(s, t) && OnlyOwner(s.users, t.users, who) && (Solvency.WellFormed(s) ==> KeepsSurplus(s, t))
            && symbol in t.pools && symbol !in s.pools
            && Gained(s, t, who, NATIVE) == 0 - native && Gained(s, t, who, symbol) == 0 - external
            && (UnitsCheck.UnitsMatch(s) ==> UnitsCheck.UnitsMatch(t))
  {
    hide Conserves, KeepsSurplus, OnlyOwner, UnitsCheck.UnitsMatch, Gained, PoolUnits, CollectBoth, Solvency.WellFormed;
    var m := MsgCreatePool(who, symbol, native, external);
    MessageKeeps(s, env, m);
    DepositTakesItsAmounts(s, env, m);
    if UnitsCheck.UnitsMatch(s) { UnitsCheck.CreatePoolUnits(s, env, who, symbol, native, external); }
  }

  lemma AddedLiquidity(s: State, env: Env, who: Address, symbol: Symbol, native: nat, external: nat)
    requires Ledger.AddLiquidity(s, env, who, symbol, native, external).Ok?
    ensures var t := Ledger.AddLiquidity(s, env, who, symbol, native, external).value;
            && Conserves(s, t) && OnlyOwner(s.users, t.users, who) && (Solvency.WellFormed(s) ==> KeepsSurplus(s, t))
            && symbol in s.pools
            && Gained(s, t, who, NATIVE) == 0 - native && Gained(s, t, who, symbol) == 0 - external
            && (UnitsCheck.UnitsMatch(s) ==> (UnitsCheck.UnitsMatch(t) <==> UnitsCheck.SoundAdd(s.pools[symbol])))
  {
    hide Ledger.AddLiquidity, Conserves, KeepsSurplus, OnlyOwner, UnitsCheck.UnitsMatch, UnitsCheck.SoundAdd, Gained, Solvency.WellFormed;
    var m := MsgAddLiquidity(who, symbol, native, external);
    UnitsCheck.AddNeedsPool(s, env, m);
    MessageKeeps(s, env, m);
    DepositTakesItsAmounts(s, env, m);
    if UnitsCheck.UnitsMatch(s) { UnitsCheck.AddLiquidityUnits(s, env, who, symbol, native, external); }
  }

  lemma Swapped(s: State, env: Env, who: Address, sent: Symbol, received: Symbol, amount: nat, least: nat)
    requires Ledger.Swap(s, env, who, sent, received, amount, least).Ok?
    ensures var t := Ledger.Swap(s, env, who, sent, received, amount, least).value;
            && Conserves(s, t) && OnlyOwner(s.users, t.users, who) && (Solvency.WellFormed(s) ==> KeepsSurplus(s, t))
            && Gained(s, t, who, sent) == 0 - amount && Gained(s, t, who, received) >= least
            && (s.bucket.current <= s.bucket.max ==> t.bucket.current <= t.bucket.max)
  {
    hide Ledger.Swap, Conserves, KeepsSurplus, OnlyOwner, Gained, Solvency.WellFormed, Sold, Bought;
    var m := MsgSwap(who, sent, received, amount, least);
    MessageKeeps(s, env, m);
    SwapHonoursItsTerms(s, env, who, sent, received, amount, least);
    SwapLevels(s, env, m);
  }

  /** What UseUnlockedLiquidity stores for the provider is overwritten by the executor. */
  lemma RemovedOverwrites(s: State, blocked: set<Address>, key: LpKey, out: Withdrawals.Payout, unlocks: seq<Unlock>, lp: Provider)
    requires key in s.lps && key.symbol in s.pools && lp.units == s.lps[key].units
    ensures Removed(PutProvider(s, key, lp), blocked, key, out, unlocks) == Removed(s, blocked, key, out, unlocks)
  {
    hide PayBoth;
    var pool := s.pools[key.symbol];
    if lp.units <= pool.units && out.native <= pool.native && out.external <= pool.external {
      var after := pool.(units := pool.units - lp.units + out.unitsLeft, native := pool.native - out.native, external := pool.external - out.external);
      var s1 := PutPool(s, key.symbol, after);
      PayBothFrame(s1, s.lps[key := lp], blocked, key.address, key.symbol, out.native, out.external);
      var paid := PayBoth(s1, blocked, key.address, key.symbol, out.native, out.external);
      if paid.Ok? {
        assert (s.lps[key := lp]) - {key} == s.lps - {key};
        assert s.lps[key := lp][key := Provider(out.unitsLeft, unlocks)] == s.lps[key := Provider(out.unitsLeft, unlocks)];
      }
    }
  }

  /** Paying does not look at the providers. */
  lemma PayBothFrame(s: State, lps: map<LpKey, Provider>, blocked: set<Address>, who: Address, symbol: Symbol, native: nat, external: nat)
    ensures var paid := PayBoth(s, blocked, who, symbol, native, external);
            PayBoth(s.(lps := lps), blocked, who, symbol, native, external)
            == (if paid.Ok? then Ok(paid.value.(lps := lps)) else paid)
            && (paid.Ok? ==> paid.value.lps == s.lps)
  {
  }
}
