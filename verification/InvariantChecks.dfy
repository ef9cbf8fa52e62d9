/** The run-time checks of the ledger invariants: each loop reports a breach exactly when there is one. */
module InvariantChecks {
  import opened Distribution
  import opened Ledger
  import opened Runs
  import opened Solvency
  import opened Types
  import opened Units = UnitsCheck
  import Sums

  /** What is left of a map once some keys have been visited. */
  ghost predicate Unvisited<K(!new), V>(rest: map<K, V>, all: map<K, V>, order: seq<K>, i: nat) {
    i <= |order| && Distinct(order) && (forall k :: k in rest <==> k in order[i..]) && (forall k | k in rest :: k in all && rest[k] == all[k])
  }

  lemma VisitFirst<K(!new), V>(all: map<K, V>, order: seq<K>)
    requires Distinct(order) && Members(order) == all.Keys
    ensures Unvisited(all, all, order, 0)
  {
    assert order[0..] == order;
    forall k ensures k in all <==> k in order { assert k in Members(order) <==> k in order; }
  }

  lemma VisitNext<K(!new), V>(rest: map<K, V>, all: map<K, V>, order: seq<K>, i: nat)
    requires Unvisited(rest, all, order, i) && i < |order|
    ensures order[i] in rest && rest[order[i]] == all[order[i]] && Unvisited(rest - {order[i]}, all, order, i + 1)
  {
    assert order[i..] == [order[i]] + order[i + 1..];
    assert order[i] in order[i..];
    assert order[i] !in order[i + 1..];
  }

  lemma VisitedAll<K(!new), V>(rest: map<K, V>, all: map<K, V>, order: seq<K>)
    requires Unvisited(rest, all, order, |order|)
    ensures rest == map[]
  {
  }

  /** BalanceModuleAccountCheck. */
  method BalanceModuleAccountCheck(s: State, poolOrder: seq<Symbol>) returns (broken: bool)
    requires WellFormed(s) && Distinct(poolOrder) && Members(poolOrder) == s.pools.Keys
    ensures !broken <==> Surplus(s, NATIVE) == 0 && forall p | p in s.pools :: Surplus(s, p) == 0
  {
    hide Unvisited;
    var balances, custody := 0, 0;
    ghost var rest := s.pools;
    VisitFirst(s.pools, poolOrder);
    for i := 0 to |poolOrder|
      invariant Unvisited(rest, s.pools, poolOrder, i)
      invariant balances + custody + Recorded(rest, NATIVE) == Recorded(s.pools, NATIVE)
      invariant forall j | 0 <= j < i :: Surplus(s, poolOrder[j]) == 0
    {
      hide Sums.Sum, Holdings;
      var p := poolOrder[i];
      assert p in Members(poolOrder);
      VisitNext(rest, s.pools, poolOrder, i);
      DropPoolRecorded(rest, p, NATIVE);
      rest := rest - {p};
      balances := balances + s.pools[p].native;
      custody := custody + s.pools[p].nativeCustody;
      if s.pools[p].external + s.pools[p].externalCustody != Balance(s.reserve, p) { return true; }
    }
    VisitedAll(rest, s.pools, poolOrder);
    NothingRecorded();
    forall p | p in s.pools ensures Surplus(s, p) == 0 { assert p in Members(poolOrder); }
    broken := balances + custody != Balance(s.reserve, NATIVE);
  }

  lemma NothingRecorded()
    ensures Recorded(map[], NATIVE) == 0
  {
    assert Holdings(map[]) == map[];
  }

  /** The inner loop of UnitsCheck: the units of one asset's providers. */
  method TotalProviderUnits(s: State, lpOrder: seq<LpKey>, symbol: Symbol) returns (total: nat)
    requires Distinct(lpOrder) && Members(lpOrder) == s.lps.Keys
    ensures total == UnitsOf(s.lps, symbol)
  {
    hide Unvisited, UnitsOf;
    total := 0;
    ghost var rest := s.lps;
    VisitFirst(s.lps, lpOrder);
    for i := 0 to |lpOrder|
      invariant Unvisited(rest, s.lps, lpOrder, i)
      invariant total + UnitsOf(rest, symbol) == UnitsOf(s.lps, symbol)
    {
      var k := lpOrder[i];
      assert k in Members(lpOrder);
      VisitNext(rest, s.lps, lpOrder, i);
      DropHeld(rest, k, symbol);
      rest := rest - {k};
      if k.symbol == symbol {
        total := total + s.lps[k].units;
      }
    }
    VisitedAll(rest, s.lps, lpOrder);
    NoneHeld(rest, symbol);
  }

  /** UnitsCheck. */
  method UnitsCheck(s: State, poolOrder: seq<Symbol>, lpOrder: seq<LpKey>) returns (broken: bool)
    requires ListsStore(s, poolOrder, lpOrder)
    ensures !broken <==> forall p | p in s.pools :: s.pools[p].units == UnitsOf(s.lps, p)
  {
    hide UnitsOf;
    for i := 0 to |poolOrder|
      invariant forall j | 0 <= j < i :: poolOrder[j] in s.pools && s.pools[poolOrder[j]].units == UnitsOf(s.lps, poolOrder[j])
    {
      assert poolOrder[i] in Members(poolOrder);
      var total := TotalProviderUnits(s, lpOrder, poolOrder[i]);
      if s.pools[poolOrder[i]].units != total { return true; }
    }
    forall p | p in s.pools ensures s.pools[p].units == UnitsOf(s.lps, p) { assert p in Members(poolOrder); }
    return false;
  }
}
