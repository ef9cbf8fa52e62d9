/** How much of a pool's grant reaches its providers: all of it, up to the roundings. */
module Allotments {
  import opened Decimal
  import opened Distribution
  import opened Ledger
  import opened Payouts
  import opened Types
  import opened UnitsCheck
  import Withdrawals

  function HolderUnits(holders: seq<Holder>): nat {
    if holders == [] then 0 else holders[0].units + HolderUnits(holders[1..])
  }

  /** The holders of a pool are its listed providers, each with its own units. */
  lemma {:induction false} HoldersAre(s: State, lpOrder: seq<LpKey>, symbol: Symbol, h: Holder)
    ensures h in Holders(s, lpOrder, symbol) <==>
              LpKey(symbol, h.address) in lpOrder && LpKey(symbol, h.address) in s.lps && s.lps[LpKey(symbol, h.address)].units == h.units
  {
    if lpOrder != [] {
      HoldersAre(s, lpOrder[1..], symbol, h);
      assert LpKey(symbol, h.address) in lpOrder <==> LpKey(symbol, h.address) == lpOrder[0] || LpKey(symbol, h.address) in lpOrder[1..];
    }
  }

  /** Leaving out a provider that is not listed changes nothing. */
  lemma {:induction false} HoldersFrame(s: State, lpOrder: seq<LpKey>, symbol: Symbol, key: LpKey)
    requires key !in lpOrder
    ensures Holders(s.(lps := s.lps - {key}), lpOrder, symbol) == Holders(s, lpOrder, symbol)
  {
    if lpOrder != [] {
      assert lpOrder[0] in lpOrder && key !in lpOrder[1..];
      HoldersFrame(s, lpOrder[1..], symbol, key);
    }
  }

  /** The holders of a pool hold the units of its providers. */
  lemma {:induction false} HoldersHold(s: State, lpOrder: seq<LpKey>, symbol: Symbol)
    requires Distinct(lpOrder) && Members(lpOrder) == s.lps.Keys
    ensures HolderUnits(Holders(s, lpOrder, symbol)) == UnitsOf(s.lps, symbol)
    decreases |lpOrder|
  {
    hide UnitsOf;
    if lpOrder == [] {
      NoneHeld(s.lps, symbol);
    } else {
      var k, rest := lpOrder[0], lpOrder[1..];
      assert k in Members(lpOrder) && k !in rest;
      var t := s.(lps := s.lps - {k});
      assert Members(rest) == t.lps.Keys by {
        forall x | x in s.lps && x != k ensures x in rest { assert x in Members(lpOrder); }
        forall x | x in rest ensures x in s.lps && x != k { assert x in Members(lpOrder); }
      }
      HoldersHold(t, rest, symbol);
      HoldersFrame(s, rest, symbol, k);
      DropHeld(s.lps, k, symbol);
    }
  }

  /** The shares of n holders fall short of their units' part of the grant by one unit and 10^-18 of the grant each. */
  lemma {:induction false} SharesAtLeast(D: nat, P: nat, holders: seq<Holder>, shares: nat, units: nat, n: nat)
    requires P > 0 && shares == Shares(D, P, holders) && units == HolderUnits(holders) && n == |holders|
    ensures shares * (P * ONE * ONE) + n * (P * ONE * ONE + P * D) >= units * (D * ONE)
    decreases |holders|
  {
    hide ProviderAmount;
    if holders != [] {
      var h, rest := holders[0], holders[1..];
      var x, shares1, units1 := ProviderAmount(D, P, h.units), Shares(D, P, rest), HolderUnits(rest);
      SharesAtLeast(D, P, rest, shares1, units1, n - 1);
      ProviderAmountNear(D, P, h.units);
      SharesStep(x, shares1, h.units, units1, n - 1, P * ONE * ONE, P * ONE * ONE + P * D, D * ONE, P, D);
    }
  }

  lemma SharesStep(x: nat, shares1: nat, units: nat, units1: nat, n1: nat, K: nat, E: nat, M: nat, P: nat, D: nat)
    requires K == P * ONE * ONE && M == D * ONE
    requires Near(x * P * ONE * ONE, units * D * ONE, E) && shares1 * K + n1 * E >= units1 * M
    ensures (x + shares1) * K + (n1 + 1) * E >= (units + units1) * M
  {
    assert x * P * ONE * ONE == x * K && units * D * ONE == units * M;
    assert (x + shares1) * K == x * K + shares1 * K && (n1 + 1) * E == n1 * E + E && (units + units1) * M == units * M + units1 * M;
  }

  /** With all the units held, the allotment, capped or not, falls short of the grant by no more than that. */
  lemma AllotsNearlyAll(symbol: Symbol, D: nat, P: nat, holders: seq<Holder>, total: nat, n: nat)
    requires P > 0 && HolderUnits(holders) == P && n == |holders| > 0
    requires total == Total(Allot(symbol, D, Round(D), P, holders, 0))
    ensures total * (ONE * ONE) + n * (ONE * ONE + D) >= D * ONE
  {
    hide Allot, Round, Total;
    AllotsSharesUpToCap(symbol, D, Round(D), P, holders, 0);
    var shares := Shares(D, P, holders);
    SharesAtLeast(D, P, holders, shares, P, n);
    if shares <= Round(D) {
      SharesCancel(shares, n, P, D);
    } else {
      CapNearGrant(D, n);
    }
  }

  lemma SharesCancel(shares: nat, n: nat, P: nat, D: nat)
    requires P > 0 && shares * (P * ONE * ONE) + n * (P * ONE * ONE + P * D) >= P * (D * ONE)
    ensures shares * (ONE * ONE) + n * (ONE * ONE + D) >= D * ONE
  {
    var lhs := shares * (ONE * ONE) + n * (ONE * ONE + D);
    assert shares * (P * ONE * ONE) == shares * (ONE * ONE) * P;
    assert n * (P * ONE * ONE + P * D) == n * (ONE * ONE + D) * P;
    assert lhs * P == shares * (ONE * ONE) * P + n * (ONE * ONE + D) * P;
    assert P * (D * ONE) == D * ONE * P;
    Withdrawals.CancelUnits(D * ONE, lhs, P);
  }

  lemma CapNearGrant(D: nat, n: nat)
    requires n > 0
    ensures Round(D) * (ONE * ONE) + n * (ONE * ONE + D) >= D * ONE
  {
    hide Round;
    MulLe(1, n, ONE * ONE + D);
    assert 2 * D <= 2 * Round(D) * ONE + ONE;
  }

  /** Nothing else is entered for a pool that is not granted anything. */
  lemma {:induction false} NoGrantNoTotal(s: State, lpOrder: seq<LpKey>, rate: Fraction, grants: seq<Grant>, symbol: Symbol)
    requires Entries(s, lpOrder, rate, grants).Ok? && forall i | 0 <= i < |grants| :: grants[i].symbol != symbol
    ensures PoolTotal(Entries(s, lpOrder, rate, grants).value, symbol) == 0
  {
    hide Allot, Round, Mul, Holders, PoolTotal;
    if grants == [] {
      NoTotal(symbol);
    } else {
      NoGrantNoTotal(s, lpOrder, rate, grants[1..], symbol);
      GrantTotal(s, lpOrder, rate, grants[0], symbol);
      PoolTotalConcat(GrantEntries(s, lpOrder, rate, grants[0]).value, Entries(s, lpOrder, rate, grants[1..]).value, symbol);
    }
  }

  lemma NoTotal(symbol: Symbol)
    ensures PoolTotal([], symbol) == 0
  {
  }

  /** One grant's entries are for its own pool. */
  lemma GrantTotal(s: State, lpOrder: seq<LpKey>, rate: Fraction, g: Grant, symbol: Symbol)
    requires GrantEntries(s, lpOrder, rate, g).Ok?
    ensures PoolTotal(GrantEntries(s, lpOrder, rate, g).value, symbol)
         == if g.symbol == symbol then Total(GrantEntries(s, lpOrder, rate, g).value) else 0
  {
    hide Allot, Round, Mul, Holders, PoolTotal;
    var holders := Holders(s, lpOrder, g.symbol);
    if holders == [] || g.symbol !in s.pools {
      NoTotal(symbol);
    } else {
      var furyPd := Mul(rate, g.depth * ONE);
      AllotTotal(g.symbol, furyPd, Round(furyPd), s.pools[g.symbol].units, holders, symbol);
    }
  }

  /** A pool's total is the total of its one grant. */
  lemma {:induction false} PoolTotalOfGrant(s: State, lpOrder: seq<LpKey>, rate: Fraction, grants: seq<Grant>, i: nat)
    requires Entries(s, lpOrder, rate, grants).Ok? && DistinctGrants(grants) && i < |grants|
    ensures GrantEntries(s, lpOrder, rate, grants[i]).Ok?
    ensures PoolTotal(Entries(s, lpOrder, rate, grants).value, grants[i].symbol) == Total(GrantEntries(s, lpOrder, rate, grants[i]).value)
    decreases |grants|
  {
    hide GrantEntries, PoolTotal, Total;
    var g, rest := grants[0], grants[1..];
    PoolTotalConcat(GrantEntries(s, lpOrder, rate, g).value, Entries(s, lpOrder, rate, rest).value, grants[i].symbol);
    GrantTotal(s, lpOrder, rate, g, grants[i].symbol);
    forall j | 0 <= j < |rest| ensures rest[j] == grants[j + 1] {}
    if i == 0 {
      NoGrantNoTotal(s, lpOrder, rate, rest, g.symbol);
    } else {
      PoolTotalOfGrant(s, lpOrder, rate, rest, i - 1);
    }
  }

  /**
   Where the units agree with the providers', a pool's providers are allotted the rate times its grant, less at most one
   unit and 10^-18 of that for each of them; never more, by Distribution.EntriesWithinGrants.
   */
  lemma EntriesNearlyAll(s: State, lpOrder: seq<LpKey>, rate: Fraction, grants: seq<Grant>, es: seq<Entry>, i: nat, n: nat)
    requires Entries(s, lpOrder, rate, grants) == Ok(es) && DistinctGrants(grants) && i < |grants|
    requires UnitsMatch(s) && Distinct(lpOrder) && Members(lpOrder) == s.lps.Keys
    requires grants[i].symbol in s.pools && n == |Holders(s, lpOrder, grants[i].symbol)| && n > 0
    ensures PoolTotal(es, grants[i].symbol) * (ONE * ONE) + n * (ONE * ONE + rate * grants[i].depth) >= rate * grants[i].depth * ONE
  {
    hide Entries, Allot, Round, Holders, PoolTotal, Total, UnitsOf;
    var g := grants[i];
    var holders, P, D := Holders(s, lpOrder, g.symbol), s.pools[g.symbol].units, rate * g.depth;
    PoolTotalOfGrant(s, lpOrder, rate, grants, i);
    HoldersHold(s, lpOrder, g.symbol);
    assert rate * (g.depth * ONE) == D * ONE;
    RoundExact(D);
    AllotsNearlyAll(g.symbol, D, P, holders, Total(Allot(g.symbol, D, Round(D), P, holders, 0)), n);
  }
}
