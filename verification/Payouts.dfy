/**
 The three maps of a distribution, filled in place while the pools are walked: each provider's total, each
 provider's entries, and each pool's total.
 */
module Payouts {
  import opened Decimal
  import opened Distribution
  import opened Ledger
  import opened Types

  // ---------- What the maps hold ----------

  function LpTotals(es: seq<Entry>): map<Address, nat> {
    map a | a in Addresses(es) :: AmountAmong(es, {a})
  }

  function LpEntries(es: seq<Entry>): map<Address, seq<Entry>> {
    map a | a in Addresses(es) :: EntriesOf(es, a)
  }

  lemma KeysOfTotals(es: seq<Entry>)
    ensures LpTotals(es).Keys == Addresses(es) == LpEntries(es).Keys
  {
  }

  /** All that is taken from one pool. */
  function PoolTotal(es: seq<Entry>, symbol: Symbol): nat {
    PoolAmong(es, symbol, Addresses(es))
  }

  lemma {:induction false} EntriesOfSnoc(es: seq<Entry>, e: Entry, a: Address)
    ensures EntriesOf(es + [e], a) == if e.address == a then EntriesOf(es, a) + [e] else EntriesOf(es, a)
  {
    if es == [] {
      assert es + [e] == [e] && [e][1..] == [];
    } else {
      EntriesOfSnoc(es[1..], e, a);
      assert (es + [e])[1..] == es[1..] + [e];
    }
  }

  lemma AddressesSnoc(es: seq<Entry>, e: Entry)
    ensures Addresses(es + [e]) == Addresses(es) + {e.address}
  {
    assert forall x :: x in es + [e] <==> x in es || x == e;
    forall a | a in Addresses(es) + {e.address} ensures a in Addresses(es + [e]) {
      if a == e.address { assert e in es + [e]; }
    }
  }

  lemma {:induction false} NotAmong(es: seq<Entry>, a: Address)
    requires a !in Addresses(es)
    ensures AmountAmong(es, {a}) == 0 && EntriesOf(es, a) == []
  {
    if es != [] {
      assert es[0] in es && forall e | e in es[1..] :: e in es;
      NotAmong(es[1..], a);
    }
  }

  lemma AmountSnoc(es: seq<Entry>, e: Entry, a: Address)
    ensures AmountAmong(es + [e], {a}) == AmountAmong(es, {a}) + (if e.address == a then e.amount else 0)
  {
    AmongConcat(es, [e], "", {a});
    assert [e][1..] == [];
  }

  lemma CreditedTotals(es: seq<Entry>, e: Entry)
    ensures LpTotals(es + [e])
         == LpTotals(es)[e.address := Balance(LpTotals(es), e.address) + e.amount]
  {
    hide AmountAmong, Addresses;
    AddressesSnoc(es, e);
    if e.address !in Addresses(es) { NotAmong(es, e.address); }
    forall a ensures AmountAmong(es + [e], {a}) == AmountAmong(es, {a}) + (if e.address == a then e.amount else 0) {
      AmountSnoc(es, e, a);
    }
  }

  lemma CreditedEntries(es: seq<Entry>, e: Entry)
    ensures LpEntries(es + [e])
         == LpEntries(es)[e.address := (if e.address in LpEntries(es) then LpEntries(es)[e.address] else []) + [e]]
  {
    hide EntriesOf, Addresses;
    AddressesSnoc(es, e);
    if e.address !in Addresses(es) { NotAmong(es, e.address); }
    forall a ensures EntriesOf(es + [e], a) == if e.address == a then EntriesOf(es, a) + [e] else EntriesOf(es, a) {
      EntriesOfSnoc(es, e, a);
    }
  }

  // ---------- Totals ----------

  function Total(es: seq<Entry>): nat {
    if es == [] then 0 else es[0].amount + Total(es[1..])
  }

  /** A provider's total is the sum of its entries, pool by pool. */
  lemma {:induction false} TotalIsSumOfEntries(es: seq<Entry>, a: Address)
    ensures AmountAmong(es, {a}) == Total(EntriesOf(es, a))
  {
    if es != [] {
      TotalIsSumOfEntries(es[1..], a);
      if es[0].address == a {
        assert EntriesOf(es, a)[1..] == EntriesOf(es[1..], a);
      }
    }
  }

  lemma {:induction false} PoolAmongAll(es: seq<Entry>, symbol: Symbol, who: set<Address>)
    requires forall i | 0 <= i < |es| :: es[i].symbol == symbol && es[i].address in who
    ensures PoolAmong(es, symbol, who) == Total(es)
  {
    if es != [] { PoolAmongAll(es[1..], symbol, who); }
  }

  lemma PoolTotalConcat(xs: seq<Entry>, ys: seq<Entry>, symbol: Symbol)
    ensures PoolTotal(xs + ys, symbol) == PoolTotal(xs, symbol) + PoolTotal(ys, symbol)
  {
    hide PoolAmong;
    var all := Addresses(xs + ys);
    AmongConcat(xs, ys, symbol, all);
    forall e | e in xs ensures e.address in all && e.address in Addresses(xs) { assert e in xs + ys; }
    forall e | e in ys ensures e.address in all && e.address in Addresses(ys) { assert e in xs + ys; }
    AmongRelevant(xs, symbol, all, Addresses(xs));
    AmongRelevant(ys, symbol, all, Addresses(ys));
  }

  /** What the providers would get with no cap. */
  function Shares(furyPd: nat, poolUnits: nat, holders: seq<Holder>): nat
    requires poolUnits > 0
  {
    if holders == [] then 0 else ProviderAmount(furyPd, poolUnits, holders[0].units) + Shares(furyPd, poolUnits, holders[1..])
  }

  /** Nobody is allotted more than its share, and together they are allotted their shares up to the cap. */
  lemma {:induction false} AllotsSharesUpToCap(symbol: Symbol, furyPd: nat, cap: nat, poolUnits: nat, holders: seq<Holder>, total: nat)
    requires poolUnits > 0 && total <= cap
    ensures var es := Allot(symbol, furyPd, cap, poolUnits, holders, total);
            var shares := Shares(furyPd, poolUnits, holders);
            && Total(es) == (if shares <= cap - total then shares else cap - total)
            && |es| == |holders|
            && forall i | 0 <= i < |es| :: es[i].amount <= ProviderAmount(furyPd, poolUnits, holders[i].units)
  {
    hide ProviderAmount;
    if holders != [] {
      var share := ProviderAmount(furyPd, poolUnits, holders[0].units);
      var amount := if total + share > cap then cap - total else share;
      AllotsSharesUpToCap(symbol, furyPd, cap, poolUnits, holders[1..], total + amount);
      var es := Allot(symbol, furyPd, cap, poolUnits, holders, total);
      assert es[1..] == Allot(symbol, furyPd, cap, poolUnits, holders[1..], total + amount);
    }
  }

  /** The entries of one pool's allotment: all for that pool, and their total. */
  lemma AllotTotal(symbol: Symbol, furyPd: nat, cap: nat, poolUnits: nat, holders: seq<Holder>, other: Symbol)
    requires poolUnits > 0
    ensures var es := Allot(symbol, furyPd, cap, poolUnits, holders, 0);
            PoolTotal(es, other) == if other == symbol then Total(es) else 0
  {
    hide Allot, PoolAmong, Total;
    var es := Allot(symbol, furyPd, cap, poolUnits, holders, 0);
    AllotWithinCap(symbol, furyPd, cap, poolUnits, holders, 0, other, Addresses(es));
    if other == symbol {
      forall i | 0 <= i < |es| ensures es[i].address in Addresses(es) { assert es[i] in es; }
      PoolAmongAll(es, symbol, Addresses(es));
    }
  }

  class Payouts {
    var lpFury: map<Address, nat>
    var lpPools: map<Address, seq<Entry>>
    var poolFury: map<Symbol, int>
    ghost var entries: seq<Entry>

    ghost predicate Valid()
      reads this
    {
      lpFury == LpTotals(entries) && lpPools == LpEntries(entries)
    }

    constructor ()
      ensures Valid() && entries == [] && poolFury == map[]
    {
      lpFury, lpPools, poolFury, entries := map[], map[], map[], [];
    }

    /** The end of the loop body of CollectProviderDistribution. */
    method Credit(address: Address, symbol: Symbol, amount: nat)
      requires Valid()
      modifies this`lpFury, this`lpPools, this`entries
      ensures Valid() && entries == old(entries) + [Entry(address, symbol, amount)]
    {
      hide LpTotals, LpEntries;
      var elem := Entry(address, symbol, amount);
      CreditedTotals(entries, elem);
      CreditedEntries(entries, elem);
      var global := if address in lpFury then lpFury[address] else 0;
      lpFury := lpFury[address := global + amount];
      if address !in lpPools {
        lpPools := lpPools[address := [elem]];
        assert [] + [elem] == [elem];
      } else {
        lpPools := lpPools[address := lpPools[address] + [elem]];
      }
      entries := entries + [elem];
    }

    method CollectProviderDistribution(symbol: Symbol, depth: nat, rate: Fraction, poolUnits: nat, holders: seq<Holder>) returns (total: nat)
      requires Valid() && poolUnits > 0
      modifies this`lpFury, this`lpPools, this`entries
      ensures Valid()
      ensures var furyPd := Mul(rate, depth * ONE);
              var es := Allot(symbol, furyPd, Round(furyPd), poolUnits, holders, 0);
              entries == old(entries) + es && total == Total(es) <= Round(furyPd)
    {
      hide Round, Mul, ProviderAmount, LpTotals, LpEntries, Allot, Total;
      total := 0;
      var furyPd := Mul(rate, depth * ONE);
      var cap := Round(furyPd);
      ghost var es := Allot(symbol, furyPd, cap, poolUnits, holders, 0);
      assert holders[0..] == holders;
      for i := 0 to |holders|
        invariant Valid() && total <= cap
        invariant old(entries) + es == entries + Allot(symbol, furyPd, cap, poolUnits, holders[i..], total)
        invariant Total(es) == total + Total(Allot(symbol, furyPd, cap, poolUnits, holders[i..], total))
      {
        ghost var was := total;
        var share := ProviderAmount(furyPd, poolUnits, holders[i].units);
        total := total + share;
        if total > cap {
          share := cap - (total - share);
          total := cap;
        }
        AllotNext(symbol, furyPd, cap, poolUnits, holders, i, was, share, total);
        ghost var rest := Allot(symbol, furyPd, cap, poolUnits, holders[i + 1..], total);
        ghost var elem := Entry(holders[i].address, symbol, share);
        assert entries + ([elem] + rest) == entries + [elem] + rest;
        Credit(holders[i].address, symbol, share);
      }
      AllotDone(symbol, furyPd, cap, poolUnits, holders, total);
    }

    /** Failed payments taken back out of the pools' totals. */
    method TakeBack(es: seq<Entry>)
      modifies this`poolFury
      ensures poolFury == BackOut(old(poolFury), es)
    {
      assert es[0..] == es;
      for i := 0 to |es|
        invariant BackOut(old(poolFury), es) == BackOut(poolFury, es[i..])
      {
        assert es[i..][0] == es[i] && es[i..][1..] == es[i + 1..];
        if es[i].symbol in poolFury {
          poolFury := poolFury[es[i].symbol := poolFury[es[i].symbol] - es[i].amount];
        }
      }
    }
  }

  lemma AllotNext(symbol: Symbol, furyPd: nat, cap: nat, poolUnits: nat, holders: seq<Holder>, i: nat, was: nat, share: nat, total: nat)
    requires poolUnits > 0 && was <= cap && i < |holders|
    requires var whole := ProviderAmount(furyPd, poolUnits, holders[i].units);
             share == (if was + whole > cap then cap - was else whole) && total == was + share
    ensures var rest := Allot(symbol, furyPd, cap, poolUnits, holders[i + 1..], total);
            var all := Allot(symbol, furyPd, cap, poolUnits, holders[i..], was);
            all == [Entry(holders[i].address, symbol, share)] + rest && Total(all) == share + Total(rest)
  {
    hide ProviderAmount;
    assert holders[i..][0] == holders[i] && holders[i..][1..] == holders[i + 1..];
  }

  lemma AllotDone(symbol: Symbol, furyPd: nat, cap: nat, poolUnits: nat, holders: seq<Holder>, total: nat)
    requires poolUnits > 0 && total <= cap
    ensures var none := Allot(symbol, furyPd, cap, poolUnits, holders[|holders|..], total); none == [] && Total(none) == 0
  {
  }

  // ---------- The payment loop ----------

  lemma {:induction false} PayEachSnoc(p: Purse, blocked: set<Address>, es: seq<Entry>, order: seq<Address>, who: Address)
    ensures PayEach(p, blocked, es, order + [who]) == PayOne(PayEach(p, blocked, es, order), blocked, es, who)
    decreases |order|
  {
    hide PayOne;
    if order == [] {
      assert order + [who] == [who] && [who][1..] == [];
    } else {
      PayEachSnoc(PayOne(p, blocked, es, order[0]), blocked, es, order[1..], who);
      assert (order + [who])[1..] == order[1..] + [who];
    }
  }

  /**
   However the payments go, a pool's total never falls below what is still to be paid from it, so the unsigned
   subtraction in the back-out cannot underflow.
   */
  lemma {:induction false} TotalsNeverUnderflow(p: Purse, blocked: set<Address>, es: seq<Entry>, order: seq<Address>, symbol: Symbol)
    requires Distinct(order) && symbol in p.pools && p.pools[symbol] >= PoolAmong(es, symbol, Members(order))
    ensures var q := PayEach(p, blocked, es, order); symbol in q.pools && q.pools[symbol] >= 0
    decreases |order|
  {
    hide PoolAmong, BackOut, EntriesOf, AmountAmong;
    if order != [] {
      var who, rest := order[0], order[1..];
      assert Members(order) == Members(rest) + {who};
      AmongSplit(es, symbol, Members(rest), {who});
      BackOutDebits(p.pools, es, who);
      TotalsNeverUnderflow(PayOne(p, blocked, es, who), blocked, es, rest, symbol);
    }
  }

  /** Who is paid what does not depend on the pools' totals. */
  lemma {:induction false} PayEachFrame(p: Purse, q: Purse, blocked: set<Address>, es: seq<Entry>, order: seq<Address>)
    requires p.reserve == q.reserve && p.users == q.users
    ensures PayEach(p, blocked, es, order).reserve == PayEach(q, blocked, es, order).reserve
    ensures PayEach(p, blocked, es, order).users == PayEach(q, blocked, es, order).users
    decreases |order|
  {
    hide AmountAmong, BackOut, EntriesOf;
    if order != [] {
      PayEachFrame(PayOne(p, blocked, es, order[0]), PayOne(q, blocked, es, order[0]), blocked, es, order[1..]);
    }
  }
}
