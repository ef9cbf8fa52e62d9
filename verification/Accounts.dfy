/** Whose money moves: a message touches only its signer's account, and by exactly what the pools record of it. */
module Accounts {
  import opened Ledger
  import opened LiquidityAdds
  import opened RateLimit
  import opened Runs
  import opened Solvency
  import opened Sums
  import opened Supply
  import opened Swaps
  import opened Types
  import Withdrawals

  ghost predicate OnlyOwner(a: map<CoinKey, nat>, b: map<CoinKey, nat>, who: Address) {
    forall k: CoinKey | k.owner != who :: (k in a <==> k in b) && (k in a ==> a[k] == b[k])
  }

  lemma CollectBothOwner(s: State, who: Address, symbol: Symbol, native: nat, external: nat)
    requires CollectBoth(s, who, symbol, native, external).Ok?
    ensures OnlyOwner(s.users, CollectBoth(s, who, symbol, native, external).value.users, who)
  {
  }

  lemma PayBothOwner(s: State, blocked: set<Address>, who: Address, symbol: Symbol, native: nat, external: nat)
    requires PayBoth(s, blocked, who, symbol, native, external).Ok?
    ensures OnlyOwner(s.users, PayBoth(s, blocked, who, symbol, native, external).value.users, who)
  {
  }

  lemma CreatePoolOwner(s: State, env: Env, who: Address, symbol: Symbol, native: nat, external: nat)
    requires CreatePool(s, env, who, symbol, native, external).Ok?
    ensures OnlyOwner(s.users, CreatePool(s, env, who, symbol, native, external).value.users, who)
  {
    hide PoolUnits, CollectBoth, OnlyOwner;
    CollectBothOwner(s, who, symbol, native, external);
  }

  lemma AddLiquidityOwner(s: State, env: Env, who: Address, symbol: Symbol, native: nat, external: nat)
    requires AddLiquidity(s, env, who, symbol, native, external).Ok?
    ensures OnlyOwner(s.users, AddLiquidity(s, env, who, symbol, native, external).value.users, who)
  {
    hide PoolUnits, AddSwaps, CollectBoth, OnlyOwner;
    var pool := s.pools[symbol];
    var q := PoolUnits(pool.units, pool.NativeDepth(), pool.ExternalDepth(), native, external,
                       env.Fee(NATIVE), env.Fee(symbol), env.rate).value;
    CollectBothOwner(s.(bucket := AddSwaps(s, env, symbol, pool, q).value), who, symbol, native, external);
  }

  lemma LastHopOwner(s: State, env: Env, who: Address, sent: Symbol, received: Symbol, amount: nat, least: nat)
    requires LastHop(s, env, who, sent, received, amount, least).Ok?
    ensures OnlyOwner(s.users, LastHop(s, env, who, sent, received, amount, least).value.0.users, who)
  {
    hide SwapOne;
  }

  lemma SwapOwner(s: State, env: Env, who: Address, sent: Symbol, received: Symbol, amount: nat, least: nat)
    requires Swap(s, env, who, sent, received, amount, least).Ok?
    ensures OnlyOwner(s.users, Swap(s, env, who, sent, received, amount, least).value.users, who)
  {
    hide FirstHop, LastHop, SwapUpdates, SwapPrice;
    var s1 := Collect(s, who, sent, amount).value;
    FirstHopKeeps(s1, env, sent, received, amount);
    var (s2, hop) := FirstHop(s1, env, sent, received, amount).value;
    LastHopOwner(s2, env, who, sent, received, hop, least);
  }

  lemma RemovePaidOwner(s: State, env: Env, key: LpKey, out: Withdrawals.Payout)
    requires key in s.lps && key.symbol in s.pools && RemovePaid(s, env, key, out).Ok?
    ensures OnlyOwner(s.users, RemovePaid(s, env, key, out).value.users, key.address)
  {
    hide SpendUnlocked, LivePruned, PayBoth, OnlyOwner;
    var pool, lp := s.pools[key.symbol], s.lps[key];
    var s1 := PutPool(s, key.symbol, pool.(units := pool.units - lp.units + out.unitsLeft,
                                           native := pool.native - out.native, external := pool.external - out.external));
    PayBothOwner(s1, env.blocked, key.address, key.symbol, out.native, out.external);
  }

  lemma HandleOwner(s: State, env: Env, m: Msg)
    requires !m.MsgDecommission? && Handle(s, env, m).Ok?
    ensures OnlyOwner(s.users, Handle(s, env, m).value.users, m.who)
  {
    hide CreatePool, AddLiquidity, Swap, RemovePaid, Withdrawals.FromUnits, Withdrawals.FromBasisPoints, SpendUnlocked, LivePruned;
    match m
    case MsgCreatePool(who, symbol, native, external) => CreatePoolOwner(s, env, who, symbol, native, external);
    case MsgAddLiquidity(who, symbol, native, external) => AddLiquidityOwner(s, env, who, symbol, native, external);
    case MsgSwap(who, sent, received, amount, least) => SwapOwner(s, env, who, sent, received, amount, least);
    case MsgRemoveLiquidity(who, symbol, wBasis, asymmetry) =>
      var pool, lp := s.pools[symbol], s.lps[LpKey(symbol, who)];
      RemovePaidOwner(s, env, LpKey(symbol, who),
                      Withdrawals.FromBasisPoints(pool.units, pool.NativeDepth(), pool.ExternalDepth(), lp.units, wBasis).value);
    case MsgRemoveLiquidityUnits(who, symbol, units) =>
      var pool, lp := s.pools[symbol], s.lps[LpKey(symbol, who)];
      RemovePaidOwner(s, env, LpKey(symbol, who),
                      Withdrawals.FromUnits(pool.units, pool.NativeDepth(), pool.ExternalDepth(), lp.units, units).value);
    case MsgUnlockLiquidity(who, symbol, units) =>
    case MsgCancelUnlock(who, symbol, units) =>
  }

  /** When one account changes, what is in hand changes by what that account gains. */
  lemma InHandGained(a: map<CoinKey, nat>, b: map<CoinKey, nat>, who: Address, denom: Symbol)
    requires OnlyOwner(a, b, who)
    ensures InHand(b, denom) - InHand(a, denom) == Balance(b, CoinKey(who, denom)) - Balance(a, CoinKey(who, denom))
  {
    hide Sum;
    var k := CoinKey(who, denom);
    var ca, cb := Coins(a, denom), Coins(b, denom);
    assert ca - {k} == cb - {k} by {
      forall c | c in ca - {k} ensures c in cb - {k} && ca[c] == cb[c] { assert c.owner != who; }
      forall c | c in cb - {k} ensures c in ca - {k} { assert c.owner != who; }
    }
    if k in ca { SumRemove(ca, k); } else { assert ca - {k} == ca; }
    if k in cb { SumRemove(cb, k); } else { assert cb - {k} == cb; }
  }

  /**
   A message other than a decommission changes nobody's account but its signer's, and in every denomination
   the signer gains exactly what the pools' records lose.
   */
  lemma SignerMirrorsPools(s: State, env: Env, m: Msg, denom: Symbol)
    requires WellFormed(s) && !m.MsgDecommission? && Handle(s, env, m).Ok?
    ensures var t := Handle(s, env, m).value;
            OnlyOwner(s.users, t.users, m.who)
            && Gained(s, t, m.who, denom) == Recorded(s.pools, denom) - Recorded(t.pools, denom)
  {
    hide Handle, Recorded, InHand, OnlyOwner;
    var t := Handle(s, env, m).value;
    HandleOwner(s, env, m);
    HandleSupply(s, env, m, denom);
    HandleSurplus(s, env, m, denom);
    InHandGained(s.users, t.users, m.who, denom);
  }

  // ---------- How much moves ----------

  lemma CollectBothTakes(s: State, who: Address, symbol: Symbol, native: nat, external: nat)
    requires symbol != NATIVE && CollectBoth(s, who, symbol, native, external).Ok?
    ensures var t := CollectBoth(s, who, symbol, native, external).value;
            Gained(s, t, who, NATIVE) == 0 - native && Gained(s, t, who, symbol) == 0 - external
  {
    assert CoinKey(who, symbol) != CoinKey(who, NATIVE);
  }

  lemma PayBothGives(s: State, blocked: set<Address>, who: Address, symbol: Symbol, native: nat, external: nat)
    requires symbol != NATIVE && PayBoth(s, blocked, who, symbol, native, external).Ok?
    ensures var t := PayBoth(s, blocked, who, symbol, native, external).value;
            Gained(s, t, who, NATIVE) == native && Gained(s, t, who, symbol) == external
  {
    assert CoinKey(who, symbol) != CoinKey(who, NATIVE);
  }

  /** A new pool or an add costs its signer exactly the two amounts of the message. */
  lemma DepositTakesItsAmounts(s: State, env: Env, m: Msg)
    requires (m.MsgCreatePool? || m.MsgAddLiquidity?) && Handle(s, env, m).Ok?
    ensures var t := Handle(s, env, m).value;
            Gained(s, t, m.who, NATIVE) == 0 - m.native && Gained(s, t, m.who, m.symbol) == 0 - m.external
  {
    hide PoolUnits, AddSwaps, CollectBoth;
    if m.MsgCreatePool? {
      CollectBothTakes(s, m.who, m.symbol, m.native, m.external);
    } else {
      var pool := s.pools[m.symbol];
      var q := PoolUnits(pool.units, pool.NativeDepth(), pool.ExternalDepth(), m.native, m.external,
                         env.Fee(NATIVE), env.Fee(m.symbol), env.rate).value;
      CollectBothTakes(s.(bucket := AddSwaps(s, env, m.symbol, pool, q).value), m.who, m.symbol, m.native, m.external);
    }
  }

  /** A removal pays its signer exactly the computed payout. */
  lemma RemovalPaysItsPayout(s: State, env: Env, key: LpKey, out: Withdrawals.Payout)
    requires key.symbol != NATIVE && key in s.lps && key.symbol in s.pools && RemovePaid(s, env, key, out).Ok?
    ensures var t := RemovePaid(s, env, key, out).value;
            Gained(s, t, key.address, NATIVE) == out.native && Gained(s, t, key.address, key.symbol) == out.external
  {
    hide SpendUnlocked, LivePruned, PayBoth;
    var pool, lp := s.pools[key.symbol], s.lps[key];
    var s1 := PutPool(s, key.symbol, pool.(units := pool.units - lp.units + out.unitsLeft,
                                           native := pool.native - out.native, external := pool.external - out.external));
    PayBothGives(s1, env.blocked, key.address, key.symbol, out.native, out.external);
  }

  lemma LastHopGives(s: State, env: Env, who: Address, sent: Symbol, received: Symbol, amount: nat, least: nat)
    requires sent != received && LastHop(s, env, who, sent, received, amount, least).Ok?
    ensures var t := LastHop(s, env, who, sent, received, amount, least).value.0;
            Gained(s, t, who, received) >= least && Gained(s, t, who, sent) == 0
  {
    hide SwapOne;
    assert CoinKey(who, sent) != CoinKey(who, received);
  }

  /** A swap costs exactly the amount sent, pays at least the minimum asked for, and only where both sides may trade. */
  lemma SwapHonoursItsTerms(s: State, env: Env, who: Address, sent: Symbol, received: Symbol, amount: nat, least: nat)
    requires Swap(s, env, who, sent, received, amount, least).Ok?
    ensures var t := Swap(s, env, who, sent, received, amount, least).value;
            Gained(s, t, who, sent) == 0 - amount && Gained(s, t, who, received) >= least
    ensures sent in env.tradable && received in env.tradable && sent !in env.noSell && received !in env.noBuy
  {
    hide FirstHop, LastHop, SwapUpdates, SwapPrice;
    var s1 := Collect(s, who, sent, amount).value;
    FirstHopKeeps(s1, env, sent, received, amount);
    var (s2, hop) := FirstHop(s1, env, sent, received, amount).value;
    LastHopGives(s2, env, who, sent, received, hop, least);
    assert CoinKey(who, sent) != CoinKey(who, received);
    assert Swap(s, env, who, sent, received, amount, least).value.users == LastHop(s2, env, who, sent, received, hop, least).value.0.users;
  }
}
