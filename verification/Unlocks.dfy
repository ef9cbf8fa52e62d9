/**
 Unlock records: a provider asks for units to be unlocked, waits out the lock period, and spends the
 records when it removes liquidity.
 */
module Unlocks {

  datatype Unlock = Unlock(height: int, units: nat)

  /** Units still recorded, in all and among the requests made by a given height. */
  function Outstanding(us: seq<Unlock>): nat {
    if us == [] then 0 else us[0].units + Outstanding(us[1..])
  }

  function OutstandingBy(us: seq<Unlock>, height: int): nat {
    if us == [] then 0
    else (if us[0].height <= height then us[0].units else 0) + OutstandingBy(us[1..], height)
  }

  /** A record is neither spent nor automatically cancelled. */
  predicate Live(u: Unlock, now: int, lock: nat, cancel: nat) {
    now < u.height + lock + cancel && u.units != 0
  }

  /** PruneUnlockRecords. */
  function Pruned(us: seq<Unlock>, now: int, lock: nat, cancel: nat): seq<Unlock> {
    if us == [] then []
    else if Live(us[0], now, lock, cancel) then [us[0]] + Pruned(us[1..], now, lock, cancel)
    else Pruned(us[1..], now, lock, cancel)
  }

  function NonZero(us: seq<Unlock>): seq<Unlock> {
    if us == [] then []
    else if us[0].units != 0 then [us[0]] + NonZero(us[1..])
    else NonZero(us[1..])
  }

  predicate Matured(u: Unlock, now: int, lock: nat, any: bool) {
    any || u.height + lock <= now
  }

  /** The records after spending need units from the matured ones in order, and the units that were not there. */
  function Spent(us: seq<Unlock>, need: nat, now: int, lock: nat, any: bool): (seq<Unlock>, nat) {
    if us == [] then ([], need)
    else if !Matured(us[0], now, lock, any) then
      var (rest, left) := Spent(us[1..], need, now, lock, any);
      ([us[0]] + rest, left)
    else if need > us[0].units then
      var (rest, left) := Spent(us[1..], need - us[0].units, now, lock, any);
      ([us[0].(units := 0)] + rest, left)
    else ([us[0].(units := us[0].units - need)] + us[1..], 0)
  }

  /** Spending takes from the records exactly what it does not report as missing. */
  lemma {:induction false} SpentTotal(us: seq<Unlock>, need: nat, now: int, lock: nat, any: bool)
    ensures var (vs, left) := Spent(us, need, now, lock, any);
            left <= need && |vs| == |us| && Outstanding(vs) + need == Outstanding(us) + left
  {
    if us != [] && Matured(us[0], now, lock, any) {
      if need > us[0].units { SpentTotal(us[1..], need - us[0].units, now, lock, any); }
    } else if us != [] {
      SpentTotal(us[1..], need, now, lock, any);
    }
  }

  /** Without `any`, everything spent was requested at least a lock period ago. */
  lemma {:induction false} SpentMatured(us: seq<Unlock>, need: nat, now: int, lock: nat, height: int)
    requires height >= now - lock
    ensures var (vs, left) := Spent(us, need, now, lock, false);
            OutstandingBy(vs, height) + need == OutstandingBy(us, height) + left
  {
    if us != [] && Matured(us[0], now, lock, false) {
      if need > us[0].units { SpentMatured(us[1..], need - us[0].units, now, lock, height); }
    } else if us != [] {
      SpentMatured(us[1..], need, now, lock, height);
    }
  }

  lemma {:induction false} SpentNoMore(us: seq<Unlock>, need: nat, now: int, lock: nat, any: bool, height: int)
    ensures OutstandingBy(Spent(us, need, now, lock, any).0, height) <= OutstandingBy(us, height)
  {
    if us != [] && Matured(us[0], now, lock, any) {
      if need > us[0].units { SpentNoMore(us[1..], need - us[0].units, now, lock, any, height); }
    } else if us != [] {
      SpentNoMore(us[1..], need, now, lock, any, height);
    }
  }

  /** Nothing is missing while a matured record still holds units. */
  lemma {:induction false} SpentExhausts(us: seq<Unlock>, need: nat, now: int, lock: nat, any: bool)
    requires forall i | 0 <= i < |us| :: Matured(us[i], now, lock, any)
    ensures var (vs, left) := Spent(us, need, now, lock, any); left > 0 ==> Outstanding(vs) == 0
  {
    if us != [] && need > us[0].units {
      SpentExhausts(us[1..], need - us[0].units, now, lock, any);
    }
  }

  predicate RequestedBy(us: seq<Unlock>, now: int) {
    forall i | 0 <= i < |us| :: us[i].height <= now
  }

  lemma {:induction false} SpentHeights(us: seq<Unlock>, need: nat, now: int, lock: nat, any: bool, at: int)
    requires RequestedBy(us, at)
    ensures RequestedBy(Spent(us, need, now, lock, any).0, at)
  {
    if us != [] {
      assert RequestedBy(us[1..], at);
      if !Matured(us[0], now, lock, any) {
        SpentHeights(us[1..], need, now, lock, any, at);
      } else if need > us[0].units {
        SpentHeights(us[1..], need - us[0].units, now, lock, any, at);
      }
    }
  }

  lemma {:induction false} PrunedNoMore(us: seq<Unlock>, now: int, lock: nat, cancel: nat, height: int, at: int)
    ensures Outstanding(Pruned(us, now, lock, cancel)) <= Outstanding(us)
    ensures OutstandingBy(Pruned(us, now, lock, cancel), height) <= OutstandingBy(us, height)
    ensures RequestedBy(us, at) ==> RequestedBy(Pruned(us, now, lock, cancel), at)
  {
    if us != [] {
      PrunedNoMore(us[1..], now, lock, cancel, height, at);
      assert RequestedBy(us, at) ==> RequestedBy(us[1..], at) && us[0].height <= at;
      if Live(us[0], now, lock, cancel) {
        assert Pruned(us, now, lock, cancel)[1..] == Pruned(us[1..], now, lock, cancel);
      }
    }
  }

  lemma {:induction false} NonZeroSame(us: seq<Unlock>, height: int, at: int)
    ensures Outstanding(NonZero(us)) == Outstanding(us)
    ensures OutstandingBy(NonZero(us), height) == OutstandingBy(us, height)
    ensures RequestedBy(us, at) ==> RequestedBy(NonZero(us), at)
  {
    if us != [] {
      NonZeroSame(us[1..], height, at);
      assert RequestedBy(us, at) ==> RequestedBy(us[1..], at) && us[0].height <= at;
      if us[0].units != 0 {
        assert NonZero(us)[1..] == NonZero(us[1..]);
      }
    }
  }

  lemma {:induction false} OutstandingAppend(us: seq<Unlock>, u: Unlock, height: int)
    ensures Outstanding(us + [u]) == Outstanding(us) + u.units
    ensures OutstandingBy(us + [u], height) == OutstandingBy(us, height) + (if u.height <= height then u.units else 0)
  {
    if us == [] {
      assert us + [u] == [u];
    } else {
      OutstandingAppend(us[1..], u, height);
      assert (us + [u])[1..] == us[1..] + [u];
    }
  }

  /** Units requested after one height and by another. */
  function OutstandingWithin(us: seq<Unlock>, after: int, until: int): nat {
    if us == [] then 0
    else (if after < us[0].height <= until then us[0].units else 0) + OutstandingWithin(us[1..], after, until)
  }

  /** Pruning drops exactly what was requested a lock and a cancel period ago or earlier. */
  lemma {:induction false} PrunedExactly(us: seq<Unlock>, now: int, lock: nat, cancel: nat, until: int)
    ensures OutstandingBy(Pruned(us, now, lock, cancel), until) == OutstandingWithin(us, now - lock - cancel, until)
  {
    if us != [] {
      PrunedExactly(us[1..], now, lock, cancel, until);
      if Live(us[0], now, lock, cancel) {
        assert Pruned(us, now, lock, cancel)[1..] == Pruned(us[1..], now, lock, cancel);
      }
    }
  }

  /** Something is missing only once every matured record is empty. */
  lemma {:induction false} SpentAllMatured(us: seq<Unlock>, need: nat, now: int, lock: nat)
    ensures var (vs, left) := Spent(us, need, now, lock, false);
            left > 0 ==> OutstandingBy(vs, now - lock) == 0
  {
    if us != [] && !Matured(us[0], now, lock, false) {
      SpentAllMatured(us[1..], need, now, lock);
    } else if us != [] && need > us[0].units {
      SpentAllMatured(us[1..], need - us[0].units, now, lock);
    }
  }

  /** Spending succeeds exactly when the matured records hold enough. */
  lemma SpentExactly(us: seq<Unlock>, need: nat, now: int, lock: nat)
    ensures Spent(us, need, now, lock, false).1 == 0 <==> need <= OutstandingBy(us, now - lock)
  {
    hide Spent, OutstandingBy;
    SpentMatured(us, need, now, lock, now - lock);
    SpentAllMatured(us, need, now, lock);
  }

  // ---------- Emptied records ----------

  /** Some record is listed with nothing left in it. */
  predicate Emptied(us: seq<Unlock>) {
    exists i | 0 <= i < |us| :: us[i].units == 0
  }

  /** The units of the first record a removal may spend, or -1 when there is none. */
  function FirstMatured(us: seq<Unlock>, now: int, lock: nat): int {
    if us == [] then -1
    else if Matured(us[0], now, lock, false) then us[0].units
    else FirstMatured(us[1..], now, lock)
  }

  lemma EmptiedCons(u: Unlock, us: seq<Unlock>)
    ensures Emptied([u] + us) <==> u.units == 0 || Emptied(us)
  {
    var all := [u] + us;
    if u.units == 0 { assert all[0].units == 0; }
    if i :| 0 <= i < |us| && us[i].units == 0 { assert all[i + 1].units == 0; }
    if i :| 0 <= i < |all| && all[i].units == 0 { assert i > 0 ==> us[i - 1].units == 0; }
  }

  /** Spending leaves an emptied record exactly when it asks for at least all of the first matured one. */
  lemma {:induction false} SpentEmpties(us: seq<Unlock>, need: nat, now: int, lock: nat)
    requires !Emptied(us)
    ensures Emptied(Spent(us, need, now, lock, false).0) <==> 0 <= FirstMatured(us, now, lock) <= need
  {
    if us != [] {
      var u, rest := us[0], us[1..];
      assert us == [u] + rest;
      EmptiedCons(u, rest);
      if !Matured(u, now, lock, false) {
        SpentEmpties(rest, need, now, lock);
        EmptiedCons(u, Spent(rest, need, now, lock, false).0);
      } else if need > u.units {
        EmptiedCons(u.(units := 0), Spent(rest, need - u.units, now, lock, false).0);
      } else {
        EmptiedCons(u.(units := u.units - need), rest);
      }
    }
  }

  /** Pruning leaves no emptied record. */
  lemma {:induction false} PrunedNoneEmptied(us: seq<Unlock>, now: int, lock: nat, cancel: nat)
    ensures !Emptied(Pruned(us, now, lock, cancel))
  {
    if us != [] {
      PrunedNoneEmptied(us[1..], now, lock, cancel);
      if Live(us[0], now, lock, cancel) { EmptiedCons(us[0], Pruned(us[1..], now, lock, cancel)); }
    }
  }

  // ---------- Which records are spent ----------

  /** Units requested after a height. */
  function OutstandingAfter(us: seq<Unlock>, after: int): nat {
    if us == [] then 0 else (if us[0].height > after then us[0].units else 0) + OutstandingAfter(us[1..], after)
  }

  /** What pruning leaves was requested less than a lock and a cancel period ago. */
  lemma {:induction false} PrunedAfter(us: seq<Unlock>, now: int, lock: nat, cancel: nat)
    ensures Outstanding(Pruned(us, now, lock, cancel)) == OutstandingAfter(us, now - lock - cancel)
  {
    if us != [] {
      PrunedAfter(us[1..], now, lock, cancel);
      if Live(us[0], now, lock, cancel) {
        assert Pruned(us, now, lock, cancel)[1..] == Pruned(us[1..], now, lock, cancel);
      }
    }
  }

  function MaturedUnits(us: seq<Unlock>, now: int, lock: nat, any: bool): nat {
    if us == [] then 0
    else (if Matured(us[0], now, lock, any) then us[0].units else 0) + MaturedUnits(us[1..], now, lock, any)
  }

  /** What the first record leaves to be asked of the others. */
  function StillAsked(u: Unlock, need: nat, now: int, lock: nat, any: bool): nat {
    if !Matured(u, now, lock, any) then need else if need > u.units then need - u.units else 0
  }

  lemma SpentHead(us: seq<Unlock>, need: nat, now: int, lock: nat, any: bool)
    requires us != []
    ensures var asked := StillAsked(us[0], need, now, lock, any);
            var first := if Matured(us[0], now, lock, any) then us[0].(units := us[0].units - (need - asked)) else us[0];
            Spent(us, need, now, lock, any).0 == [first] + Spent(us[1..], asked, now, lock, any).0
  {
    SpendsNothing(us[1..], now, lock, any);
  }

  lemma MaturedCons(u: Unlock, us: seq<Unlock>, now: int, lock: nat, any: bool, k: nat)
    requires 0 < k <= |us| + 1
    ensures MaturedUnits(([u] + us)[..k], now, lock, any)
         == (if Matured(u, now, lock, any) then u.units else 0) + MaturedUnits(us[..k - 1], now, lock, any)
  {
    assert ([u] + us)[..k][0] == u && ([u] + us)[..k][1..] == us[..k - 1];
  }

  /**
   Records are spent in the order they were made: up to any record, the matured ones have lost what was asked for, or
   all they had if that is less.
   */
  lemma {:induction false} SpentInOrder(us: seq<Unlock>, need: nat, now: int, lock: nat, any: bool, k: nat)
    requires k <= |us|
    ensures var vs, have := Spent(us, need, now, lock, any).0, MaturedUnits(us[..k], now, lock, any);
            |vs| == |us| && MaturedUnits(vs[..k], now, lock, any) == (if have <= need then 0 else have - need)
  {
    hide Spent, MaturedUnits;
    if us == [] {
      NothingMatured(need, now, lock, any);
    } else {
      var u, rest, asked := us[0], us[1..], StillAsked(us[0], need, now, lock, any);
      SpentHead(us, need, now, lock, any);
      SpentInOrder(rest, asked, now, lock, any, if k > 0 then k - 1 else 0);
      var vs := Spent(us, need, now, lock, any).0;
      assert us == [u] + rest && vs == [vs[0]] + Spent(rest, asked, now, lock, any).0;
      if k > 0 {
        MaturedCons(u, rest, now, lock, any, k);
        MaturedCons(vs[0], Spent(rest, asked, now, lock, any).0, now, lock, any, k);
      } else {
        NothingMatured(need, now, lock, any);
        assert us[..0] == [] && vs[..0] == [];
      }
    }
  }

  lemma NothingMatured(need: nat, now: int, lock: nat, any: bool)
    ensures MaturedUnits([], now, lock, any) == 0 && Spent([], need, now, lock, any).0 == []
  {
  }

  /** Spending keeps every height, and every record that has not matured. */
  lemma {:induction false} SpentKeeps(us: seq<Unlock>, need: nat, now: int, lock: nat, any: bool)
    ensures var vs := Spent(us, need, now, lock, any).0;
            && |vs| == |us|
            && (forall i | 0 <= i < |us| :: vs[i].height == us[i].height && (!Matured(us[i], now, lock, any) ==> vs[i] == us[i]))
  {
    hide Spent;
    if us == [] {
      NothingMatured(need, now, lock, any);
    } else {
      SpentHead(us, need, now, lock, any);
      SpentKeeps(us[1..], StillAsked(us[0], need, now, lock, any), now, lock, any);
    }
  }

  lemma {:induction false} SpendsNothing(us: seq<Unlock>, now: int, lock: nat, any: bool)
    ensures Spent(us, 0, now, lock, any) == (us, 0)
  {
    if us != [] {
      SpendsNothing(us[1..], now, lock, any);
      assert us[0].(units := us[0].units - 0) == us[0] && [us[0]] + us[1..] == us;
    }
  }
}
