/** The provider distribution conserves the native asset and keeps the module account's surplus. */
module DistributionSolvency {
  import opened Decimal
  import opened Distribution
  import opened Ledger
  import opened Solvency
  import opened Sums
  import opened Types

  /** The order in which the LP map is walked: each provider with an entry exactly once. */
  predicate WalksAll(es: seq<Entry>, order: seq<Address>) {
    Distinct(order) && Members(order) == Addresses(es)
  }

  lemma {:induction false} NativeGrantsAt(s: State, poolOrder: seq<Symbol>)
    requires Distinct(poolOrder)
    ensures var gs := NativeGrants(s, poolOrder);
            && DistinctGrants(gs)
            && (forall i | 0 <= i < |gs| :: gs[i].symbol in s.pools && gs[i].symbol in poolOrder
                                            && gs[i].depth == s.pools[gs[i].symbol].native)
  {
    if poolOrder != [] {
      NativeGrantsAt(s, poolOrder[1..]);
    }
  }

  /** No pool is asked for more than its balance. */
  lemma AllotmentsWithinBalances(s: State, rate: Fraction, poolOrder: seq<Symbol>, lpOrder: seq<LpKey>, who: set<Address>)
    requires Distinct(poolOrder) && Entries(s, lpOrder, rate, NativeGrants(s, poolOrder)).Ok?
    ensures var es := Entries(s, lpOrder, rate, NativeGrants(s, poolOrder)).value;
            (forall e | e in es :: e.symbol in s.pools)
            && forall p | p in s.pools :: PoolAmong(es, p, who) <= s.pools[p].native
  {
    hide Entries, PoolAmong, NativeGrants, Round, Mul;
    var gs := NativeGrants(s, poolOrder);
    var es := Entries(s, lpOrder, rate, gs).value;
    NativeGrantsAt(s, poolOrder);
    EntriesWithinGrants(s, lpOrder, rate, gs, "", who);
    forall p | p in s.pools ensures PoolAmong(es, p, who) <= s.pools[p].native {
      EntriesWithinGrants(s, lpOrder, rate, gs, p, who);
      if i :| 0 <= i < |gs| && gs[i].symbol == p {
      }
    }
  }

  /** A solvent module account covers everything allotted. */
  lemma AllotmentsCovered(s: State, es: seq<Entry>, who: set<Address>)
    requires Surplus(s, NATIVE) >= 0
    requires (forall e | e in es :: e.symbol in s.pools) && forall p | p in s.pools :: PoolAmong(es, p, who) <= s.pools[p].native
    ensures AmountAmong(es, who) <= Balance(s.reserve, NATIVE)
  {
    hide Sum, PoolAmong, AmountAmong;
    TotalsAgree(es, s.pools.Keys, who);
    var a, b := Holdings(s.pools), PoolTotals(es, s.pools.Keys, who);
    var c := map p | p in a :: a[p] - b[p];
    SumMinus(a, b, c);
    SumNonNegative(c);
  }

  /** The totals left after backing out: what was actually paid, pool by pool. */
  lemma TotalsAfterBackOut(s: State, lpOrder: seq<LpKey>, es: seq<Entry>, blocked: set<Address>, p: Symbol)
    requires p in s.pools && Holders(s, lpOrder, p) != []
    ensures var all := Addresses(es);
            Debited(GrantTotals(s, lpOrder, es), es, all * blocked)[p] == PoolAmong(es, p, all - blocked)
  {
    var all := Addresses(es);
    AmongSplit(es, p, all - blocked, all * blocked);
    assert all - blocked + all * blocked == all;
  }

  /** A pool with no providers in the walk has no entries. */
  lemma {:induction false} NoHoldersNoEntries(s: State, lpOrder: seq<LpKey>, rate: Fraction, grants: seq<Grant>, p: Symbol, who: set<Address>)
    requires Entries(s, lpOrder, rate, grants).Ok? && Holders(s, lpOrder, p) == []
    ensures PoolAmong(Entries(s, lpOrder, rate, grants).value, p, who) == 0
  {
    hide Holders, Round, Mul, Allot;
    if grants != [] {
      var g := grants[0];
      NoHoldersNoEntries(s, lpOrder, rate, grants[1..], p, who);
      AmongConcat(GrantEntries(s, lpOrder, rate, g).value, Entries(s, lpOrder, rate, grants[1..]).value, p, who);
      if g.symbol != p && g.symbol in s.pools && Holders(s, lpOrder, g.symbol) != [] {
        var furyPd := Mul(rate, g.depth * ONE);
        AllotWithinCap(g.symbol, furyPd, Round(furyPd), s.pools[g.symbol].units, Holders(s, lpOrder, g.symbol), 0, p, who);
      }
    }
  }

  /** The state a distribution reaches, with no order in it. */
  ghost predicate PaidOut(s: State, t: State, es: seq<Entry>, blocked: set<Address>) {
    var paid := Addresses(es) - blocked;
    && t.lps == s.lps && t.bucket == s.bucket
    && AmountAmong(es, paid) <= Balance(s.reserve, NATIVE)
    && t.reserve == s.reserve[NATIVE := Balance(s.reserve, NATIVE) - AmountAmong(es, paid)]
    && t.users == Credited(s.users, es, paid)
    && t.pools.Keys == s.pools.Keys
    && (forall p | p in s.pools :: PoolAmong(es, p, paid) <= s.pools[p].native
                                   && t.pools[p] == s.pools[p].(native := s.pools[p].native - PoolAmong(es, p, paid)))
  }

  /**
   In a solvent state the distribution reaches one and the same state whatever the order of the LP map and
   whichever providers the bank refuses: each accepted provider gets its total, each pool gives up exactly
   what its providers were paid, and no removal fails.
   */
  lemma DistributionOutcome(s: State, blocked: set<Address>, rate: Fraction,
                            poolOrder: seq<Symbol>, lpOrder: seq<LpKey>, payOrder: seq<Address>, es: seq<Entry>)
    requires Surplus(s, NATIVE) >= 0 && Distinct(poolOrder)
    requires Entries(s, lpOrder, rate, NativeGrants(s, poolOrder)) == Ok(es) && WalksAll(es, payOrder)
    ensures ProviderDistribution(s, blocked, rate, poolOrder, lpOrder, payOrder).Ok?
    ensures PaidOut(s, ProviderDistribution(s, blocked, rate, poolOrder, lpOrder, payOrder).value, es, blocked)
  {
    hide Entries, PoolAmong, AmountAmong, Surplus, PayEach, Credited, NativeGrants, Holders, Addresses;
    var all := Addresses(es);
    AllotmentsWithinBalances(s, rate, poolOrder, lpOrder, all);
    AllotmentsWithinBalances(s, rate, poolOrder, lpOrder, all - blocked);
    AllotmentsCovered(s, es, all);
    var purse := Purse(Balance(s.reserve, NATIVE), s.users, GrantTotals(s, lpOrder, es));
    PayEachSettles(purse, blocked, es, payOrder);
    var paid := PayEach(purse, blocked, es, payOrder);
    hide Debited, GrantTotals, Reduced;
    assert Reduced(s.pools, paid.pools).Keys == s.pools.Keys by { hide *; ReducedKeys(s.pools, paid.pools); }
    forall p | p in s.pools
      ensures Reduced(s.pools, paid.pools)[p] == s.pools[p].(native := s.pools[p].native - PoolAmong(es, p, all - blocked))
    {
      ReducedAt(s, blocked, rate, NativeGrants(s, poolOrder), lpOrder, es, p);
    }
  }

  lemma ReducedKeys(pools: map<Symbol, Pool>, totals: map<Symbol, int>)
    ensures Reduced(pools, totals).Keys == pools.Keys
  {
  }

  lemma ReducedAt(s: State, blocked: set<Address>, rate: Fraction, grants: seq<Grant>, lpOrder: seq<LpKey>, es: seq<Entry>, p: Symbol)
    requires Entries(s, lpOrder, rate, grants) == Ok(es)
    requires p in s.pools && PoolAmong(es, p, Addresses(es) - blocked) <= s.pools[p].native
    ensures var after := Reduced(s.pools, Debited(GrantTotals(s, lpOrder, es), es, Addresses(es) * blocked));
            p in after
            && after[p] == s.pools[p].(native := s.pools[p].native - PoolAmong(es, p, Addresses(es) - blocked))
  {
    hide Entries, PoolAmong, Addresses, Holders;
    if Holders(s, lpOrder, p) != [] {
      TotalsAfterBackOut(s, lpOrder, es, blocked, p);
    } else {
      NoHoldersNoEntries(s, lpOrder, rate, grants, p, Addresses(es) - blocked);
    }
  }

  /** What leaves the module account leaves the pools' records with it. */
  lemma PaidOutSurplus(s: State, t: State, es: seq<Entry>, blocked: set<Address>, denom: Symbol)
    requires PaidOut(s, t, es, blocked) && forall e | e in es :: e.symbol in s.pools
    ensures Surplus(t, denom) == Surplus(s, denom)
  {
    hide Sum, PoolAmong, AmountAmong, Credited, Addresses;
    if denom == NATIVE {
      var paid := Addresses(es) - blocked;
      TotalsAgree(es, s.pools.Keys, paid);
      SumMinus(Holdings(s.pools), PoolTotals(es, s.pools.Keys, paid), Holdings(t.pools));
    }
  }

  lemma DistributionSurplus(s: State, blocked: set<Address>, rate: Fraction,
                            poolOrder: seq<Symbol>, lpOrder: seq<LpKey>, payOrder: seq<Address>, denom: Symbol)
    requires WellFormed(s) && Surplus(s, NATIVE) >= 0 && Distinct(poolOrder)
    requires ProviderDistribution(s, blocked, rate, poolOrder, lpOrder, payOrder).Ok?
    requires WalksAll(Entries(s, lpOrder, rate, NativeGrants(s, poolOrder)).value, payOrder)
    ensures var t := ProviderDistribution(s, blocked, rate, poolOrder, lpOrder, payOrder).value;
            WellFormed(t) && Surplus(t, denom) == Surplus(s, denom)
  {
    hide Entries, PoolAmong, AmountAmong, Surplus, PayEach, NativeGrants, Credited, Addresses;
    var es := Entries(s, lpOrder, rate, NativeGrants(s, poolOrder)).value;
    var t := ProviderDistribution(s, blocked, rate, poolOrder, lpOrder, payOrder).value;
    DistributionOutcome(s, blocked, rate, poolOrder, lpOrder, payOrder, es);
    AllotmentsWithinBalances(s, rate, poolOrder, lpOrder, {});
    PaidOutSurplus(s, t, es, blocked, denom);
  }
}
