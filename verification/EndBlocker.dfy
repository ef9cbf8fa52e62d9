/**
 The end of a block as the keeper runs it: the maps of a distribution filled pool by pool, then walked in
 whatever order the map yields its keys.
 */
module EndBlocker {
  import opened Decimal
  import opened Distribution
  import opened DistributionSolvency
  import opened Guarantees
  import opened Keeper
  import opened Ledger
  import opened Payouts
  import opened Runs
  import opened Types
  import Solvency
  import UnitsCheck

  // ---------- Partitions ----------

  ghost predicate IsPartition(m: map<Symbol, seq<Holder>>, s: State, lpOrder: seq<LpKey>) {
    forall p :: if p in m then m[p] != [] && m[p] == Holders(s, lpOrder, p) else Holders(s, lpOrder, p) == []
  }

  lemma {:induction false} HoldersSnoc(s: State, lpOrder: seq<LpKey>, k: LpKey, symbol: Symbol)
    ensures Holders(s, lpOrder + [k], symbol)
         == if k in s.lps && k.symbol == symbol then Holders(s, lpOrder, symbol) + [Holder(k.address, s.lps[k].units)]
            else Holders(s, lpOrder, symbol)
  {
    if lpOrder == [] {
      assert lpOrder + [k] == [k] && [k][1..] == [];
    } else {
      HoldersSnoc(s, lpOrder[1..], k, symbol);
      assert (lpOrder + [k])[1..] == lpOrder[1..] + [k];
    }
  }

  lemma PartitionNext(m: map<Symbol, seq<Holder>>, s: State, lpOrder: seq<LpKey>, k: LpKey)
    requires IsPartition(m, s, lpOrder) && k in s.lps
    ensures IsPartition(m[k.symbol := (if k.symbol in m then m[k.symbol] else []) + [Holder(k.address, s.lps[k].units)]],
                        s, lpOrder + [k])
  {
    hide Holders;
    forall p ensures Holders(s, lpOrder + [k], p)
                  == if k.symbol == p then Holders(s, lpOrder, p) + [Holder(k.address, s.lps[k].units)] else Holders(s, lpOrder, p) {
      HoldersSnoc(s, lpOrder, k, p);
    }
  }

  /** partitionLPsbyAsset. */
  method PartitionProviders(s: State, lpOrder: seq<LpKey>) returns (m: map<Symbol, seq<Holder>>)
    requires Members(lpOrder) == s.lps.Keys
    ensures IsPartition(m, s, lpOrder)
  {
    hide Holders;
    m := map[];
    assert IsPartition(map[], s, lpOrder[..0]) by { NoHolders(s); }
    for i := 0 to |lpOrder|
      invariant IsPartition(m, s, lpOrder[..i])
    {
      var k := lpOrder[i];
      assert k in Members(lpOrder);
      PartitionNext(m, s, lpOrder[..i], k);
      assert lpOrder[..i + 1] == lpOrder[..i] + [k];
      var lp := Holder(k.address, s.lps[k].units);
      if k.symbol !in m {
        m := m[k.symbol := [lp]];
        assert [] + [lp] == [lp];
      } else {
        m := m[k.symbol := m[k.symbol] + [lp]];
      }
    }
    assert lpOrder[..|lpOrder|] == lpOrder;
  }

  lemma NoHolders(s: State)
    ensures forall p :: Holders(s, [], p) == []
  {
  }

  // ---------- Filling the maps ----------

  /** One pool's share of the walk; false when the pool has no providers. */
  method CollectGrant(s: State, partitions: map<Symbol, seq<Holder>>, ghost lpOrder: seq<LpKey>, rate: Fraction, g: Grant, p: Payouts)
    returns (r: Result<bool>)
    requires IsPartition(partitions, s, lpOrder) && g.symbol in s.pools && p.Valid()
    modifies p
    ensures p.Valid()
    ensures match GrantEntries(s, lpOrder, rate, g)
            case Err(e) => r == Err(e)
            case Ok(es) =>
              && r == Ok(Holders(s, lpOrder, g.symbol) != [])
              && p.entries == old(p.entries) + es
              && p.poolFury == (if Holders(s, lpOrder, g.symbol) != [] then old(p.poolFury)[g.symbol := Total(es)] else old(p.poolFury))
  {
    hide Holders, Round, Mul, Allot, Total;
    if g.symbol !in partitions {
      assert p.entries == p.entries + [];
      return Ok(false);
    }
    var units := s.pools[g.symbol].units;
    if units == 0 { return Err(PanicArithmetic); }
    var total := p.CollectProviderDistribution(g.symbol, g.depth, rate, units, partitions[g.symbol]);
    p.poolFury := p.poolFury[g.symbol := total];
    return Ok(true);
  }

  /** The pool totals agree with the entries recorded so far. */
  ghost predicate Tallied(fury: map<Symbol, int>, es: seq<Entry>) {
    forall q :: PoolTotal(es, q) == if q in fury then fury[q] else 0
  }

  lemma TalliedNext(s: State, lpOrder: seq<LpKey>, rate: Fraction, g: Grant, fury: map<Symbol, int>, es: seq<Entry>)
    requires Tallied(fury, es) && g.symbol !in fury && g.symbol in s.pools && GrantEntries(s, lpOrder, rate, g).Ok?
    ensures var more := GrantEntries(s, lpOrder, rate, g).value;
            Tallied(if Holders(s, lpOrder, g.symbol) != [] then fury[g.symbol := Total(more)] else fury, es + more)
  {
    hide Holders, Round, Mul, Allot, Total, PoolTotal;
    var more := GrantEntries(s, lpOrder, rate, g).value;
    var holders := Holders(s, lpOrder, g.symbol);
    if holders == [] {
      assert es + more == es;
    } else {
      var furyPd := Mul(rate, g.depth * ONE);
      forall q ensures PoolTotal(es + more, q) == PoolTotal(es, q) + if q == g.symbol then Total(more) else 0 {
        PoolTotalConcat(es, more, q);
        AllotTotal(g.symbol, furyPd, Round(furyPd), s.pools[g.symbol].units, holders, q);
      }
    }
  }

  lemma EntriesFrom(s: State, lpOrder: seq<LpKey>, rate: Fraction, poolOrder: seq<Symbol>, i: nat)
    requires i < |poolOrder| && poolOrder[i] in s.pools
    ensures var g := Grant(poolOrder[i], s.pools[poolOrder[i]].native);
            Entries(s, lpOrder, rate, NativeGrants(s, poolOrder[i..]))
            == match GrantEntries(s, lpOrder, rate, g)
               case Err(e) => Err(e)
               case Ok(first) =>
                 match Entries(s, lpOrder, rate, NativeGrants(s, poolOrder[i + 1..]))
                 case Err(e) => Err(e)
                 case Ok(rest) => Ok(first + rest)
  {
    hide GrantEntries;
    assert poolOrder[i..][0] == poolOrder[i] && poolOrder[i..][1..] == poolOrder[i + 1..];
    var g := Grant(poolOrder[i], s.pools[poolOrder[i]].native);
    var rest := NativeGrants(s, poolOrder[i + 1..]);
    assert NativeGrants(s, poolOrder[i..]) == [g] + rest;
    assert ([g] + rest)[1..] == rest;
  }

  /** What is left of the walk completes what has been recorded. */
  ghost predicate Completes(spec: Result<seq<Entry>>, es: seq<Entry>, rest: Result<seq<Entry>>) {
    match rest
    case Ok(more) => spec == Ok(es + more)
    case Err(e) => spec == Err(e)
  }

  method CollectProviderDistributions(s: State, poolOrder: seq<Symbol>, lpOrder: seq<LpKey>, rate: Fraction) returns (r: Result<()>, p: Payouts)
    requires ListsStore(s, poolOrder, lpOrder)
    ensures fresh(p) && p.Valid()
    ensures match Entries(s, lpOrder, rate, NativeGrants(s, poolOrder))
            case Err(e) => r == Err(e)
            case Ok(es) => r.Ok? && p.entries == es && p.poolFury == GrantTotals(s, lpOrder, es)
  {
    hide Entries, NativeGrants, GrantEntries, Tallied, IsPartition, Total, Holders;
    p := new Payouts();
    var partitions := PartitionProviders(s, lpOrder);
    ghost var spec := Entries(s, lpOrder, rate, NativeGrants(s, poolOrder));
    StartCollecting(spec);
    assert poolOrder[0..] == poolOrder;
    for i := 0 to |poolOrder|
      invariant p.Valid() && Tallied(p.poolFury, p.entries)
      invariant Completes(spec, p.entries, Entries(s, lpOrder, rate, NativeGrants(s, poolOrder[i..])))
      invariant forall q :: q in p.poolFury <==> q in poolOrder[..i] && Holders(s, lpOrder, q) != []
    {
      assert poolOrder[i] in Members(poolOrder);
      assert poolOrder[i] !in poolOrder[..i];
      var g := Grant(poolOrder[i], s.pools[poolOrder[i]].native);
      EntriesFrom(s, lpOrder, rate, poolOrder, i);
      ghost var es := p.entries;
      if GrantEntries(s, lpOrder, rate, g).Ok? {
        TalliedNext(s, lpOrder, rate, g, p.poolFury, es);
      }
      var _ :- CollectGrant(s, partitions, lpOrder, rate, g, p);
      assert poolOrder[..i + 1] == poolOrder[..i] + [poolOrder[i]];
      ghost var rest := Entries(s, lpOrder, rate, NativeGrants(s, poolOrder[i + 1..]));
      if rest.Ok? {
        assert es + (GrantEntries(s, lpOrder, rate, g).value + rest.value) == p.entries + rest.value;
      }
    }
    DoneCollecting(s, lpOrder, rate, poolOrder, p.entries, p.poolFury);
    r := Ok(());
  }

  lemma StartCollecting(spec: Result<seq<Entry>>)
    ensures Completes(spec, [], spec) && Tallied(map[], [])
  {
    if spec.Ok? { assert [] + spec.value == spec.value; }
  }

  lemma DoneCollecting(s: State, lpOrder: seq<LpKey>, rate: Fraction, poolOrder: seq<Symbol>, es: seq<Entry>, fury: map<Symbol, int>)
    requires Members(poolOrder) == s.pools.Keys && Tallied(fury, es)
    requires forall q :: q in fury <==> q in poolOrder[..|poolOrder|] && Holders(s, lpOrder, q) != []
    ensures Entries(s, lpOrder, rate, NativeGrants(s, poolOrder[|poolOrder|..])) == Ok([]) && es + [] == es
    ensures fury == GrantTotals(s, lpOrder, es)
  {
    hide Holders, PoolAmong;
    assert poolOrder[..|poolOrder|] == poolOrder;
    forall q ensures q in fury <==> q in s.pools && Holders(s, lpOrder, q) != [] {
      assert q in Members(poolOrder) <==> q in poolOrder;
    }
  }

  // ---------- Paying ----------

  /** The native side of the bank and the pool totals, as one value. */
  ghost function PurseOf(k: Keeper, p: Payouts): Purse
    reads k`reserve, k`users, p`poolFury
  {
    Purse(Balance(k.reserve, NATIVE), k.users, p.poolFury)
  }

  /** Only the native balance may differ. */
  ghost predicate SameButNative(a: map<Symbol, nat>, b: map<Symbol, nat>) {
    NATIVE in b && b == a[NATIVE := b[NATIVE]]
  }

  lemma SameButNativeTwice(a: map<Symbol, nat>, b: map<Symbol, nat>, c: map<Symbol, nat>)
    requires SameButNative(a, b) && SameButNative(b, c)
    ensures SameButNative(a, c)
  {
  }

  lemma SameButNativeAgain(a: map<Symbol, nat>, b: map<Symbol, nat>)
    requires SameButNative(a, b)
    ensures SameButNative(b, b)
  {
  }

  lemma Touched(a: map<Symbol, nat>)
    ensures var b := a[NATIVE := Balance(a, NATIVE)]; SameButNative(a, b) && SameButNative(b, b) && Balance(b, NATIVE) == Balance(a, NATIVE)
  {
  }

  lemma NativeOnly(a: map<Symbol, nat>, b: map<Symbol, nat>)
    requires SameButNative(a, b)
    ensures b == a[NATIVE := Balance(b, NATIVE)]
  {
  }

  /** One turn of the loop: the provider is paid, or its entries are backed out. */
  method TransferOne(k: Keeper, p: Payouts, blocked: set<Address>, who: Address)
    requires p.Valid() && who in p.lpFury && SameButNative(k.reserve, k.reserve)
    modifies k`users, k`reserve, p`poolFury
    ensures PurseOf(k, p) == PayOne(old(PurseOf(k, p)), blocked, p.entries, who)
    ensures SameButNative(old(k.reserve), k.reserve)
  {
    hide AmountAmong, EntriesOf, BackOut, Addresses;
    var sent := k.SendFromModuleToAccount(blocked, who, NATIVE, p.lpFury[who]);
    if sent.Err? {
      p.TakeBack(p.lpPools[who]);
    }
  }

  /** Each provider is either waiting or has had its turn. */
  ghost predicate Walked(order: seq<Address>, waiting: set<Address>, all: set<Address>) {
    Distinct(order) && waiting !! Members(order) && waiting + Members(order) == all
  }

  lemma WalkedNext(order: seq<Address>, waiting: set<Address>, all: set<Address>, who: Address)
    requires Walked(order, waiting, all) && who in waiting
    ensures Walked(order + [who], waiting - {who}, all)
  {
    assert Members(order + [who]) == Members(order) + {who};
    assert who !in Members(order);
  }

  /** TransferProviderDistributionGeneric: the map is walked in any order, which `order` records. */
  method Transfer(k: Keeper, p: Payouts, blocked: set<Address>) returns (ghost order: seq<Address>)
    requires p.Valid()
    modifies k`users, k`reserve, p`poolFury
    ensures WalksAll(p.entries, order)
    ensures var purse := PayEach(old(PurseOf(k, p)), blocked, p.entries, order);
            && k.users == purse.users && p.poolFury == purse.pools
            && k.reserve == old(k.reserve)[NATIVE := purse.reserve]
  {
    hide PayEach, PayOne, AmountAmong, Addresses, Walked, LpTotals, LpEntries, SameButNative;
    order := [];
    ghost var es, start := p.entries, PurseOf(k, p);
    // An account that has never held the coin holds none of it.
    k.reserve := k.reserve[NATIVE := Balance(k.reserve, NATIVE)];
    Touched(old(k.reserve));
    var waiting := p.lpFury.Keys;
    KeysOfTotals(es);
    NobodyPaid(start, blocked, es, waiting);
    while waiting != {}
      invariant Walked(order, waiting, Addresses(es))
      invariant SameButNative(old(k.reserve), k.reserve) && SameButNative(k.reserve, k.reserve)
      invariant PurseOf(k, p) == PayEach(start, blocked, es, order)
      invariant waiting <= p.lpFury.Keys
      decreases |waiting|
    {
      var who :| who in waiting;
      WalkedNext(order, waiting, Addresses(es), who);
      PayEachSnoc(start, blocked, es, order, who);
      waiting := waiting - {who};
      ghost var before := k.reserve;
      TransferOne(k, p, blocked, who);
      SameButNativeTwice(old(k.reserve), before, k.reserve);
      SameButNativeAgain(before, k.reserve);
      order := order + [who];
    }
    EverybodyWalked(order, Addresses(es));
    NativeOnly(old(k.reserve), k.reserve);
  }

  lemma EverybodyWalked(order: seq<Address>, all: set<Address>)
    requires Walked(order, {}, all)
    ensures Distinct(order) && Members(order) == all
  {
  }

  lemma NobodyPaid(p: Purse, blocked: set<Address>, es: seq<Entry>, all: set<Address>)
    ensures PayEach(p, blocked, es, []) == p && Walked([], all, all)
  {
  }

  /** The loop over the pool totals, in any order: RemoveFuryFromPool for each. */
  method RemoveFuryFromPools(k: Keeper, totals: map<Symbol, int>)
    modifies k`pools
    ensures k.pools == Reduced(old(k.pools), totals)
  {
    var waiting := totals.Keys;
    ghost var reduced := Reduced(k.pools, totals);
    while waiting != {}
      invariant waiting <= totals.Keys
      invariant k.pools.Keys == old(k.pools).Keys
      invariant forall q | q in k.pools :: k.pools[q] == if q in waiting then old(k.pools)[q] else reduced[q]
      decreases |waiting|
    {
      var symbol :| symbol in waiting;
      waiting := waiting - {symbol};
      var amount := totals[symbol];
      if symbol in k.pools {
        var pool := k.pools[symbol];
        if 0 <= amount && !(pool.native < amount) {
          k.pools := k.pools[symbol := pool.(native := pool.native - amount)];
        }
      }
    }
  }

  /**
   ProviderDistributionPolicyRun. Whatever order the maps are walked in, a solvent module reaches one and the
   same state: see DistributionSolvency.PaidOut.
   */
  method ProviderDistributionPolicyRun(k: Keeper, blocked: set<Address>, rate: Fraction, poolOrder: seq<Symbol>, lpOrder: seq<LpKey>)
    returns (r: Result<()>, ghost payOrder: seq<Address>)
    requires ListsStore(k.Store(), poolOrder, lpOrder)
    modifies k
    ensures var e := DistributeToProviders(blocked, rate, poolOrder, lpOrder, payOrder);
            ValidEvent(old(k.Store()), e) && k.Store() == Step(old(k.Store()), e)
    ensures var es := Entries(old(k.Store()), lpOrder, rate, NativeGrants(old(k.Store()), poolOrder));
            && (r.Ok? <==> es.Ok?)
            && (r.Ok? && Solvency.Surplus(old(k.Store()), NATIVE) >= 0 ==> PaidOut(old(k.Store()), k.Store(), es.value, blocked))
    ensures old(k.Valid()) ==> k.Valid()
  {
    hide Entries, NativeGrants, PayEach, GrantTotals, Reduced, WalksAll, Solvency.Surplus, PaidOut, Sound;
    ghost var s := k.Store();
    payOrder := [];
    var collected, p := CollectProviderDistributions(k.Store(), poolOrder, lpOrder, rate);
    r := collected;
    if r.Ok? {
      payOrder := Transfer(k, p, blocked);
      RemoveFuryFromPools(k, p.poolFury);
      if Solvency.Surplus(s, NATIVE) >= 0 {
        DistributionOutcome(s, blocked, rate, poolOrder, lpOrder, payOrder, p.entries);
      }
    }
    if Sound(s) { DistributionSound(s, DistributeToProviders(blocked, rate, poolOrder, lpOrder, payOrder)); }
  }

  lemma DistributionSound(s: State, e: Event)
    requires Sound(s) && ValidEvent(s, e) && e.DistributeToProviders?
    ensures Sound(Step(s, e))
  {
    hide Step, ValidEvent, UnitsCheck.UnitsMatch, Solvency.Surplus, Attempt;
    assert StrandedBy(s, e) == 0;
    BlockSound(s, e);
  }
}
