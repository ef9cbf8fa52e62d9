/**
 Paying native asset out to liquidity providers: how much each is allotted, and the unordered loop that
 pays them and backs failed payments out of the pools' totals.
 */
module Distribution {
  import opened Decimal
  import opened Ledger
  import opened Sums
  import opened Types

  /** One provider's allotment from one pool. */
  datatype Entry = Entry(address: Address, symbol: Symbol, amount: nat)

  /** An amount of native asset to be shared among one pool's providers. */
  datatype Grant = Grant(symbol: Symbol, depth: nat)

  datatype Holder = Holder(address: Address, units: nat)

  // ---------- Allotting ----------

  /** CalcProviderDistributionAmount. */
  function ProviderAmount(furyPd: nat, poolUnits: nat, units: nat): nat
    requires poolUnits > 0
  {
    Round(Mul(Quo(units * ONE, poolUnits * ONE), furyPd))
  }

  /** A provider's share is the grant times its part of the units, off by one unit and 10^-18 of the grant. */
  lemma ProviderAmountNear(furyPd: nat, poolUnits: nat, units: nat)
    requires poolUnits > 0
    ensures Near(ProviderAmount(furyPd, poolUnits, units) * poolUnits * ONE * ONE, units * furyPd * ONE,
                 poolUnits * ONE * ONE + poolUnits * furyPd)
  {
    hide Quo, Round;
    var P, D := poolUnits, furyPd;
    var q := Quo(units * ONE, P * ONE);
    QuoNear(units * ONE, P * ONE);
    assert q * (P * ONE) == q * P * ONE;
    ShareNear(q, P, units, D, Mul(q, D), ProviderAmount(D, P, units));
  }

  lemma ShareNear(q: nat, P: nat, units: nat, D: nat, m: nat, x: nat)
    requires Near(q * P, units * ONE, P) && m == Round(q * D) && x == Round(m)
    ensures Near(x * P * ONE * ONE, units * D * ONE, P * ONE * ONE + P * D)
  {
    hide Round;
    var exact := q * D;
    NearScaled(q * P, units * ONE, P, D);
    assert Near(x * ONE * ONE, exact, ONE * ONE) by { TwoRounds(exact); }
    NearScaled(x * ONE * ONE, exact, ONE * ONE, P);
    assert q * P * D == exact * P && x * ONE * ONE * P == x * P * ONE * ONE;
    assert units * ONE * D == units * D * ONE && ONE * ONE * P == P * ONE * ONE;
  }

  /** Rounding twice moves a number by less than one unit of the second rounding. */
  lemma TwoRounds(n: nat)
    ensures Near(Round(Round(n)) * ONE * ONE, n, ONE * ONE)
  {
    hide Round;
    var m := Round(n);
    assert 2 * n <= 2 * m * ONE + ONE && 2 * m * ONE <= 2 * n + ONE;
    assert 2 * m <= 2 * Round(m) * ONE + ONE && 2 * Round(m) * ONE <= 2 * m + ONE;
  }

  /** The loop of CollectProviderDistribution: each share rounded, the last ones cut so the total stays within cap. */
  function Allot(symbol: Symbol, furyPd: nat, cap: nat, poolUnits: nat, holders: seq<Holder>, total: nat): seq<Entry>
    requires poolUnits > 0 && total <= cap
  {
    if holders == [] then []
    else
      var share := ProviderAmount(furyPd, poolUnits, holders[0].units);
      var amount := if total + share > cap then cap - total else share;
      [Entry(holders[0].address, symbol, amount)] + Allot(symbol, furyPd, cap, poolUnits, holders[1..], total + amount)
  }

  /** partitionLPsbyAsset: the providers of one pool, in store order. */
  function Holders(s: State, lpOrder: seq<LpKey>, symbol: Symbol): seq<Holder> {
    if lpOrder == [] then []
    else
      var rest := Holders(s, lpOrder[1..], symbol);
      var k := lpOrder[0];
      if k in s.lps && k.symbol == symbol then [Holder(k.address, s.lps[k].units)] + rest else rest
  }

  /** What one grant allots; a pool without units cannot be shared out. */
  function GrantEntries(s: State, lpOrder: seq<LpKey>, rate: Fraction, g: Grant): Result<seq<Entry>> {
    var holders := Holders(s, lpOrder, g.symbol);
    if holders == [] || g.symbol !in s.pools then Ok([])
    else if s.pools[g.symbol].units == 0 then Err(PanicArithmetic)
    else
      var furyPd := Mul(rate, g.depth * ONE);
      Ok(Allot(g.symbol, furyPd, Round(furyPd), s.pools[g.symbol].units, holders, 0))
  }

  /** CollectProviderDistributions, over the pools in store order. */
  function Entries(s: State, lpOrder: seq<LpKey>, rate: Fraction, grants: seq<Grant>): Result<seq<Entry>> {
    if grants == [] then Ok([])
    else
      var first :- GrantEntries(s, lpOrder, rate, grants[0]);
      var rest :- Entries(s, lpOrder, rate, grants[1..]);
      Ok(first + rest)
  }

  // ---------- Totals ----------

  function Addresses(es: seq<Entry>): set<Address> {
    set e | e in es :: e.address
  }

  /** The total allotted to a set of providers. */
  function AmountAmong(es: seq<Entry>, who: set<Address>): nat {
    if es == [] then 0
    else (if es[0].address in who then es[0].amount else 0) + AmountAmong(es[1..], who)
  }

  /** The part of it that comes from one pool. */
  function PoolAmong(es: seq<Entry>, symbol: Symbol, who: set<Address>): nat {
    if es == [] then 0
    else (if es[0].symbol == symbol && es[0].address in who then es[0].amount else 0) + PoolAmong(es[1..], symbol, who)
  }

  /** The entries of one provider: its value in the LP-to-pools map. */
  function EntriesOf(es: seq<Entry>, address: Address): seq<Entry> {
    if es == [] then []
    else if es[0].address == address then [es[0]] + EntriesOf(es[1..], address)
    else EntriesOf(es[1..], address)
  }

  lemma {:induction false} AmongConcat(xs: seq<Entry>, ys: seq<Entry>, symbol: Symbol, who: set<Address>)
    ensures AmountAmong(xs + ys, who) == AmountAmong(xs, who) + AmountAmong(ys, who)
    ensures PoolAmong(xs + ys, symbol, who) == PoolAmong(xs, symbol, who) + PoolAmong(ys, symbol, who)
  {
    if xs == [] {
      assert xs + ys == ys;
    } else {
      AmongConcat(xs[1..], ys, symbol, who);
      assert (xs + ys)[1..] == xs[1..] + ys;
    }
  }

  lemma {:induction false} AmongSplit(es: seq<Entry>, symbol: Symbol, a: set<Address>, b: set<Address>)
    requires a !! b
    ensures AmountAmong(es, a + b) == AmountAmong(es, a) + AmountAmong(es, b)
    ensures PoolAmong(es, symbol, a + b) == PoolAmong(es, symbol, a) + PoolAmong(es, symbol, b)
  {
    if es != [] {
      AmongSplit(es[1..], symbol, a, b);
    }
  }

  /** Only providers that have entries matter. */
  lemma {:induction false} AmongRelevant(es: seq<Entry>, symbol: Symbol, a: set<Address>, b: set<Address>)
    requires forall e | e in es :: e.address in a <==> e.address in b
    ensures AmountAmong(es, a) == AmountAmong(es, b)
    ensures PoolAmong(es, symbol, a) == PoolAmong(es, symbol, b)
  {
    if es != [] {
      assert es[0] in es;
      AmongRelevant(es[1..], symbol, a, b);
    }
  }

  ghost function PoolTotals(es: seq<Entry>, pools: set<Symbol>, who: set<Address>): map<Symbol, int> {
    map p | p in pools :: PoolAmong(es, p, who)
  }

  /** One entry raises its own pool's total, if its provider counts. */
  lemma PoolTotalsCons(es: seq<Entry>, pools: set<Symbol>, who: set<Address>)
    requires es != [] && es[0].symbol in pools
    ensures var before := PoolTotals(es[1..], pools, who);
            PoolTotals(es, pools, who)
            == before[es[0].symbol := before[es[0].symbol] + if es[0].address in who then es[0].amount else 0]
  {
  }

  /** Summed over the pools, the pool totals are the providers' total. */
  lemma {:induction false} TotalsAgree(es: seq<Entry>, pools: set<Symbol>, who: set<Address>)
    requires forall e | e in es :: e.symbol in pools
    ensures Sum(PoolTotals(es, pools, who)) == AmountAmong(es, who)
  {
    hide Sum, PoolAmong;
    if es == [] {
      NoTotals(pools, who);
    } else {
      var e, rest := es[0], es[1..];
      assert e in es;
      TotalsAgree(rest, pools, who);
      var d := if e.address in who then e.amount else 0;
      var before := PoolTotals(rest, pools, who);
      PoolTotalsCons(es, pools, who);
      SumUpdate(before, e.symbol, before[e.symbol] + d);
    }
  }

  lemma NoTotals(pools: set<Symbol>, who: set<Address>)
    ensures Sum(PoolTotals([], pools, who)) == 0
  {
    hide Sum;
    SumZero(PoolTotals([], pools, who));
  }

  /** The cap: no pool is allotted more than its rounded grant. */
  lemma {:induction false} AllotWithinCap(symbol: Symbol, furyPd: nat, cap: nat, poolUnits: nat, holders: seq<Holder>, total: nat, other: Symbol, who: set<Address>)
    requires poolUnits > 0 && total <= cap
    ensures var es := Allot(symbol, furyPd, cap, poolUnits, holders, total);
            |es| == |holders|
            && (forall i | 0 <= i < |es| :: es[i].symbol == symbol && es[i].address == holders[i].address)
            && PoolAmong(es, other, who) <= (if other == symbol then cap - total else 0)
            && AmountAmong(es, who) <= cap - total
  {
    hide ProviderAmount;
    if holders != [] {
      var share := ProviderAmount(furyPd, poolUnits, holders[0].units);
      var amount := if total + share > cap then cap - total else share;
      AllotWithinCap(symbol, furyPd, cap, poolUnits, holders[1..], total + amount, other, who);
    }
  }

  lemma CapWithinDepth(rate: Fraction, depth: nat)
    ensures Round(Mul(rate, depth * ONE)) <= depth
  {
    MulLe(rate, ONE, depth * ONE);
    RoundAtMost(rate * (depth * ONE), depth * ONE);
    RoundAtMost(Mul(rate, depth * ONE), depth);
  }

  predicate DistinctGrants(grants: seq<Grant>) {
    forall i, j | 0 <= i < j < |grants| :: grants[i].symbol != grants[j].symbol
  }

  /** Every pool is allotted at most its rounded rate times depth, so at most the depth, and no other pool anything. */
  lemma {:induction false} EntriesWithinGrants(s: State, lpOrder: seq<LpKey>, rate: Fraction, grants: seq<Grant>, symbol: Symbol, who: set<Address>)
    requires Entries(s, lpOrder, rate, grants).Ok? && DistinctGrants(grants)
    ensures var es := Entries(s, lpOrder, rate, grants).value;
            && (forall e | e in es :: e.symbol in s.pools)
            && (forall i | 0 <= i < |grants| && grants[i].symbol == symbol ::
                  PoolAmong(es, symbol, who) <= Round(Mul(rate, grants[i].depth * ONE)) <= grants[i].depth)
            && ((forall i | 0 <= i < |grants| :: grants[i].symbol != symbol) ==> PoolAmong(es, symbol, who) == 0)
  {
    hide Round, Mul, Allot;
    if grants != [] {
      var g := grants[0];
      EntriesWithinGrants(s, lpOrder, rate, grants[1..], symbol, who);
      var first, rest := GrantEntries(s, lpOrder, rate, g).value, Entries(s, lpOrder, rate, grants[1..]).value;
      AmongConcat(first, rest, symbol, who);
      var holders := Holders(s, lpOrder, g.symbol);
      if holders != [] && g.symbol in s.pools {
        var furyPd := Mul(rate, g.depth * ONE);
        AllotWithinCap(g.symbol, furyPd, Round(furyPd), s.pools[g.symbol].units, holders, 0, symbol, who);
      }
      forall i | 0 <= i < |grants| ensures Round(Mul(rate, grants[i].depth * ONE)) <= grants[i].depth {
        CapWithinDepth(rate, grants[i].depth);
      }
      forall i | 1 <= i < |grants| ensures grants[i] == grants[1..][i - 1] && grants[i].symbol != g.symbol {}
    }
  }

  /** No pool that has a provider is without units. */
  predicate Divisible(s: State, lpOrder: seq<LpKey>, symbol: Symbol) {
    symbol in s.pools && Holders(s, lpOrder, symbol) != [] ==> s.pools[symbol].units > 0
  }

  /** The walk over the pools panics exactly when a granted pool has a provider and no units to divide by. */
  lemma {:induction false} EntriesExactly(s: State, lpOrder: seq<LpKey>, rate: Fraction, grants: seq<Grant>)
    ensures Entries(s, lpOrder, rate, grants).Ok? <==> forall i | 0 <= i < |grants| :: Divisible(s, lpOrder, grants[i].symbol)
    ensures Entries(s, lpOrder, rate, grants).Err? ==> Entries(s, lpOrder, rate, grants).error == PanicArithmetic
  {
    hide Holders, Mul, Round, Allot;
    if grants != [] {
      EntriesExactly(s, lpOrder, rate, grants[1..]);
      assert forall i | 0 <= i < |grants| - 1 :: grants[1..][i] == grants[i + 1];
      if forall i | 0 <= i < |grants[1..]| :: Divisible(s, lpOrder, grants[1..][i].symbol) {
        forall i | 1 <= i < |grants| ensures Divisible(s, lpOrder, grants[i].symbol) { assert grants[i] == grants[1..][i - 1]; }
      }
    }
  }

  // ---------- Paying ----------

  /** The native side of the bank and the pools' totals, as the payment loop changes them. */
  datatype Purse = Purse(reserve: nat, users: map<CoinKey, nat>, pools: map<Symbol, int>)

  /** A failed payment is taken back out of the totals of the pools it came from. */
  function BackOut(pools: map<Symbol, int>, es: seq<Entry>): map<Symbol, int> {
    if es == [] then pools
    else if es[0].symbol !in pools then BackOut(pools, es[1..])
    else BackOut(pools[es[0].symbol := pools[es[0].symbol] - es[0].amount], es[1..])
  }

  function PayOne(p: Purse, blocked: set<Address>, es: seq<Entry>, who: Address): Purse {
    var amount := AmountAmong(es, {who});
    if who in blocked || p.reserve < amount then p.(pools := BackOut(p.pools, EntriesOf(es, who)))
    else
      var k := CoinKey(who, NATIVE);
      p.(reserve := p.reserve - amount, users := p.users[k := Balance(p.users, k) + amount])
  }

  /** The loop of TransferProviderDistributionGeneric, over the LP map in some order. */
  function PayEach(p: Purse, blocked: set<Address>, es: seq<Entry>, order: seq<Address>): Purse
    decreases |order|
  {
    if order == [] then p else PayEach(PayOne(p, blocked, es, order[0]), blocked, es, order[1..])
  }

  function Credited(users: map<CoinKey, nat>, es: seq<Entry>, who: set<Address>): map<CoinKey, nat> {
    map k | k in users.Keys + (set a | a in who :: CoinKey(a, NATIVE)) ::
      Balance(users, k) + (if k.denom == NATIVE && k.owner in who then AmountAmong(es, {k.owner}) else 0)
  }

  function Debited(pools: map<Symbol, int>, es: seq<Entry>, who: set<Address>): map<Symbol, int> {
    map p | p in pools :: pools[p] - PoolAmong(es, p, who)
  }

  /** The outcome of the loop, without a loop: everyone the bank accepts is paid, everyone else is backed out. */
  function Settled(p: Purse, blocked: set<Address>, es: seq<Entry>, who: set<Address>): Purse
    requires AmountAmong(es, who - blocked) <= p.reserve
  {
    Purse(p.reserve - AmountAmong(es, who - blocked),
          Credited(p.users, es, who - blocked),
          Debited(p.pools, es, who * blocked))
  }

  lemma {:induction false} BackOutAt(pools: map<Symbol, int>, es: seq<Entry>, who: Address, p: Symbol)
    requires p in pools
    ensures var after := BackOut(pools, EntriesOf(es, who));
            after.Keys == pools.Keys && after[p] == pools[p] - PoolAmong(es, p, {who})
  {
    if es != [] {
      var e := es[0];
      assert e.address == who ==> EntriesOf(es, who)[1..] == EntriesOf(es[1..], who);
      if e.address == who && e.symbol in pools {
        BackOutAt(pools[e.symbol := pools[e.symbol] - e.amount], es[1..], who, p);
      } else {
        BackOutAt(pools, es[1..], who, p);
      }
    }
  }

  lemma {:induction false} BackOutEmpty(es: seq<Entry>)
    ensures BackOut(map[], es) == map[]
  {
    if es != [] { BackOutEmpty(es[1..]); }
  }

  lemma BackOutDebits(pools: map<Symbol, int>, es: seq<Entry>, who: Address)
    ensures BackOut(pools, EntriesOf(es, who)) == Debited(pools, es, {who})
  {
    hide BackOut, EntriesOf, PoolAmong;
    BackOutEmpty(EntriesOf(es, who));
    forall p | p in pools
      ensures BackOut(pools, EntriesOf(es, who)).Keys == pools.Keys
      ensures BackOut(pools, EntriesOf(es, who))[p] == pools[p] - PoolAmong(es, p, {who})
    {
      BackOutAt(pools, es, who, p);
    }
    if pools == map[] { assert Debited(pools, es, {who}) == map[]; }
  }

  predicate Distinct<T(==)>(order: seq<T>) {
    forall i, j | 0 <= i < j < |order| :: order[i] != order[j]
  }

  function Members<T>(order: seq<T>): set<T> {
    set x | x in order
  }

  lemma CreditedKeys(users: map<CoinKey, nat>, es: seq<Entry>, who: set<Address>, k: CoinKey)
    ensures k in Credited(users, es, who) <==> k in users || (k.denom == NATIVE && k.owner in who)
  {
    if k.denom == NATIVE && k.owner in who { assert k == CoinKey(k.owner, NATIVE); }
  }

  lemma CreditedStep(users: map<CoinKey, nat>, es: seq<Entry>, who: Address, rest: set<Address>)
    requires who !in rest
    ensures var k := CoinKey(who, NATIVE);
            Credited(users[k := Balance(users, k) + AmountAmong(es, {who})], es, rest) == Credited(users, es, rest + {who})
  {
    hide AmountAmong;
    var k := CoinKey(who, NATIVE);
    var users' := users[k := Balance(users, k) + AmountAmong(es, {who})];
    var before, after := Credited(users', es, rest), Credited(users, es, rest + {who});
    forall c ensures c in before <==> c in after {
      CreditedKeys(users', es, rest, c);
      CreditedKeys(users, es, rest + {who}, c);
    }
    forall c | c in before ensures before[c] == after[c] {
      if c != k && c.denom == NATIVE { assert c.owner != who; }
    }
  }

  lemma DebitedStep(pools: map<Symbol, int>, es: seq<Entry>, who: Address, rest: set<Address>)
    requires who !in rest
    ensures Debited(Debited(pools, es, {who}), es, rest) == Debited(pools, es, rest + {who})
  {
    forall p | p in pools ensures PoolAmong(es, p, rest + {who}) == PoolAmong(es, p, rest) + PoolAmong(es, p, {who}) {
      AmongSplit(es, p, rest, {who});
    }
  }

  /** One turn of the loop, in the closed form. */
  lemma SettledStep(p: Purse, blocked: set<Address>, es: seq<Entry>, who: Address, rest: set<Address>)
    requires who !in rest && AmountAmong(es, rest + {who}) <= p.reserve
    ensures AmountAmong(es, rest + {who} - blocked) <= p.reserve
    ensures var q := PayOne(p, blocked, es, who);
            AmountAmong(es, rest) <= q.reserve && AmountAmong(es, rest - blocked) <= q.reserve
            && Settled(q, blocked, es, rest) == Settled(p, blocked, es, rest + {who})
  {
    hide AmountAmong, BackOut, EntriesOf, Credited, Debited;
    AmongSplit(es, "", rest, {who});
    AmongSplit(es, "", rest - blocked, rest * blocked);
    assert rest - blocked + rest * blocked == rest;
    if who in blocked {
      BackOutDebits(p.pools, es, who);
      DebitedStep(p.pools, es, who, rest * blocked);
      assert (rest + {who}) * blocked == rest * blocked + {who};
      assert rest + {who} - blocked == rest - blocked;
    } else {
      AmongSplit(es, "", rest - blocked, {who});
      CreditedStep(p.users, es, who, rest - blocked);
      assert rest + {who} - blocked == rest - blocked + {who};
      assert (rest + {who}) * blocked == rest * blocked;
    }
  }

  /** The loop pays the same whatever the order of the LP map, as long as the module covers the total. */
  lemma {:induction false} PayEachSettles(p: Purse, blocked: set<Address>, es: seq<Entry>, order: seq<Address>)
    requires Distinct(order) && AmountAmong(es, Members(order)) <= p.reserve
    ensures AmountAmong(es, Members(order) - blocked) <= p.reserve
    ensures PayEach(p, blocked, es, order) == Settled(p, blocked, es, Members(order))
    decreases |order|
  {
    hide AmountAmong, PayOne, Settled;
    if order == [] {
      NothingSettled(p, blocked, es);
      assert Members(order) == {};
    } else {
      var rest := order[1..];
      assert Members(order) == Members(rest) + {order[0]};
      SettledStep(p, blocked, es, order[0], Members(rest));
      PayEachSettles(PayOne(p, blocked, es, order[0]), blocked, es, rest);
    }
  }

  lemma {:induction false} AmongNobody(es: seq<Entry>, symbol: Symbol)
    ensures AmountAmong(es, {}) == 0 == PoolAmong(es, symbol, {})
  {
    if es != [] { AmongNobody(es[1..], symbol); }
  }

  lemma NothingSettled(p: Purse, blocked: set<Address>, es: seq<Entry>)
    ensures AmountAmong(es, {} - blocked) <= p.reserve && Settled(p, blocked, es, {}) == p
  {
    AmongNobody(es, "");
    assert {} - blocked == {} && {} * blocked == {};
    forall q | q in p.pools ensures PoolAmong(es, q, {}) == 0 { AmongNobody(es, q); }
    assert Debited(p.pools, es, {}) == p.pools;
    assert Credited(p.users, es, {}) == p.users;
  }

  // ---------- The provider distribution of a block ----------

  function NativeGrants(s: State, poolOrder: seq<Symbol>): seq<Grant> {
    if poolOrder == [] then []
    else
      var rest := NativeGrants(s, poolOrder[1..]);
      if poolOrder[0] in s.pools then [Grant(poolOrder[0], s.pools[poolOrder[0]].native)] + rest else rest
  }

  /** The pool totals before any payment fails: pools without providers have none. */
  function GrantTotals(s: State, lpOrder: seq<LpKey>, es: seq<Entry>): map<Symbol, int> {
    map p | p in s.pools && Holders(s, lpOrder, p) != [] :: PoolAmong(es, p, Addresses(es))
  }

  /** RemoveFuryFromPool for every pool total: a pool that holds too little is left alone. */
  function Reduced(pools: map<Symbol, Pool>, totals: map<Symbol, int>): map<Symbol, Pool> {
    map p | p in pools ::
      if p in totals && 0 <= totals[p] <= pools[p].native then pools[p].(native := pools[p].native - totals[p]) else pools[p]
  }

  /** ProviderDistributionPolicyRun: pools and providers in store order, the LP map in the order `payOrder`. */
  function ProviderDistribution(s: State, blocked: set<Address>, rate: Fraction,
                                poolOrder: seq<Symbol>, lpOrder: seq<LpKey>, payOrder: seq<Address>): Result<State>
  {
    var es :- Entries(s, lpOrder, rate, NativeGrants(s, poolOrder));
    var purse := PayEach(Purse(Balance(s.reserve, NATIVE), s.users, GrantTotals(s, lpOrder, es)), blocked, es, payOrder);
    Ok(s.(reserve := s.reserve[NATIVE := purse.reserve], users := purse.users, pools := Reduced(s.pools, purse.pools)))
  }

  lemma {:induction false} NativeGrantsCover(s: State, poolOrder: seq<Symbol>, p: Symbol)
    requires p in s.pools && p in poolOrder
    ensures exists i :: 0 <= i < |NativeGrants(s, poolOrder)| && NativeGrants(s, poolOrder)[i].symbol == p
  {
    var gs := NativeGrants(s, poolOrder);
    if poolOrder[0] == p {
      assert gs[0].symbol == p;
    } else {
      NativeGrantsCover(s, poolOrder[1..], p);
      var rest := NativeGrants(s, poolOrder[1..]);
      var i :| 0 <= i < |rest| && rest[i].symbol == p;
      assert gs == rest || gs[i + 1] == rest[i];
    }
  }

  /** A provider distribution goes through exactly when no pool has a provider and no units. */
  lemma DistributesExactly(s: State, blocked: set<Address>, rate: Fraction,
                           poolOrder: seq<Symbol>, lpOrder: seq<LpKey>, payOrder: seq<Address>)
    requires Members(poolOrder) == s.pools.Keys
    ensures ProviderDistribution(s, blocked, rate, poolOrder, lpOrder, payOrder).Ok?
       <==> forall p | p in s.pools :: Divisible(s, lpOrder, p)
    ensures var r := ProviderDistribution(s, blocked, rate, poolOrder, lpOrder, payOrder); r.Err? ==> r.error == PanicArithmetic
  {
    hide Entries, PayEach, NativeGrants, Reduced, GrantTotals, Holders;
    var gs := NativeGrants(s, poolOrder);
    EntriesExactly(s, lpOrder, rate, gs);
    forall p | p in s.pools ensures exists i :: 0 <= i < |gs| && gs[i].symbol == p {
      assert p in Members(poolOrder);
      NativeGrantsCover(s, poolOrder, p);
    }
    if forall i | 0 <= i < |gs| :: Divisible(s, lpOrder, gs[i].symbol) {
      forall p | p in s.pools ensures Divisible(s, lpOrder, p) {
        var i :| 0 <= i < |gs| && gs[i].symbol == p;
      }
    }
  }
}
