/**
 Unlock records as the keeper holds them: a provider read from the store carries pointers to its records, and
 spending them through one copy of the provider is seen through every other copy.
 */
module UnlockRecords {
  import opened Unlocks

  class Record {
    const height: int
    var units: nat

    constructor (u: Unlock)
      ensures height == u.height && units == u.units
    {
      height, units := u.height, u.units;
    }

    function Value(): Unlock
      reads this
    {
      Unlock(height, units)
    }
  }

  function Values(rs: seq<Record>): seq<Unlock>
    reads rs
  {
    seq(|rs|, i requires 0 <= i < |rs| reads rs => rs[i].Value())
  }

  /** No record is listed twice. */
  ghost predicate Apart(rs: seq<Record>) {
    forall i, j | 0 <= i < j < |rs| :: rs[i] != rs[j]
  }

  /** Unmarshalling: every read of the store makes its own records. */
  method Load(us: seq<Unlock>) returns (rs: seq<Record>)
    ensures fresh(rs) && Apart(rs) && Values(rs) == us
  {
    rs := [];
    for i := 0 to |us|
      invariant fresh(rs) && Apart(rs) && |rs| == i
      invariant forall j | 0 <= j < i :: rs[j].Value() == us[j]
    {
      var r := new Record(us[i]);
      rs := rs + [r];
    }
  }

  lemma {:induction false} PrunedSnoc(us: seq<Unlock>, u: Unlock, now: int, lock: nat, cancel: nat)
    ensures Pruned(us + [u], now, lock, cancel)
         == Pruned(us, now, lock, cancel) + (if Live(u, now, lock, cancel) then [u] else [])
  {
    if us == [] {
      assert us + [u] == [u] && [u][1..] == [];
    } else {
      PrunedSnoc(us[1..], u, now, lock, cancel);
      assert (us + [u])[1..] == us[1..] + [u];
    }
  }

  lemma {:induction false} NonZeroSnoc(us: seq<Unlock>, u: Unlock)
    ensures NonZero(us + [u]) == NonZero(us) + (if u.units != 0 then [u] else [])
  {
    if us == [] {
      assert us + [u] == [u] && [u][1..] == [];
    } else {
      NonZeroSnoc(us[1..], u);
      assert (us + [u])[1..] == us[1..] + [u];
    }
  }

  /** When pruning drops nothing, nothing changes. */
  lemma {:induction false} PrunedWhole(us: seq<Unlock>, now: int, lock: nat, cancel: nat)
    ensures |Pruned(us, now, lock, cancel)| <= |us|
    ensures |Pruned(us, now, lock, cancel)| == |us| ==> Pruned(us, now, lock, cancel) == us
  {
    if us != [] {
      PrunedWhole(us[1..], now, lock, cancel);
      assert us == [us[0]] + us[1..];
    }
  }

  /** PruneUnlockRecords: keeps pointers to the very records it was given. */
  method PruneRecords(rs: seq<Record>, now: int, lock: nat, cancel: nat) returns (kept: seq<Record>)
    requires Apart(rs)
    ensures Apart(kept) && (forall r | r in kept :: r in rs)
    ensures Values(kept) == Pruned(Values(rs), now, lock, cancel)
  {
    kept := [];
    ghost var all := Values(rs);
    for i := 0 to |rs|
      invariant Apart(kept) && (forall r | r in kept :: r in rs[..i])
      invariant Values(kept) == Pruned(all[..i], now, lock, cancel)
    {
      PrunedSnoc(all[..i], all[i], now, lock, cancel);
      assert all[..i + 1] == all[..i] + [all[i]];
      if now >= rs[i].height + lock + cancel || rs[i].units == 0 {
        continue;
      }
      assert rs[i] !in rs[..i];
      kept := kept + [rs[i]];
    }
    assert all[..|rs|] == all;
  }

  /** The records left once the empty ones are dropped. */
  method DropEmpty(rs: seq<Record>) returns (kept: seq<Record>)
    ensures Values(kept) == NonZero(Values(rs))
  {
    kept := [];
    ghost var all := Values(rs);
    for i := 0 to |rs|
      invariant Values(kept) == NonZero(all[..i])
    {
      NonZeroSnoc(all[..i], all[i]);
      assert all[..i + 1] == all[..i] + [all[i]];
      if rs[i].units == 0 {
        continue;
      }
      kept := kept + [rs[i]];
    }
    assert all[..|rs|] == all;
  }

  /** One turn of the loop: the record at i, and what remains to be spent after it. */
  lemma SpentAt(us: seq<Unlock>, i: nat, left: nat, now: int, lock: nat, any: bool)
    requires i <= |us|
    ensures var (vs, missing) := Spent(us[i..], left, now, lock, any);
            if i == |us| then vs == [] && missing == left
            else if !Matured(us[i], now, lock, any) then
              var next := Spent(us[i + 1..], left, now, lock, any); vs == [us[i]] + next.0 && missing == next.1
            else if left > us[i].units then
              var next := Spent(us[i + 1..], left - us[i].units, now, lock, any);
              vs == [us[i].(units := 0)] + next.0 && missing == next.1
            else vs == [us[i].(units := us[i].units - left)] + us[i + 1..] && missing == 0
  {
    if i < |us| { assert us[i..][1..] == us[i + 1..]; }
  }

  lemma {:induction false} OutstandingFrom(us: seq<Unlock>, i: nat)
    requires i < |us|
    ensures Outstanding(us[i..]) == us[i].units + Outstanding(us[i + 1..])
  {
    assert us[i..][1..] == us[i + 1..];
  }

  /** The sum UnlockLiquidity compares with the provider's units. */
  method TotalUnits(rs: seq<Record>) returns (total: nat)
    ensures total == Outstanding(Values(rs))
  {
    total := 0;
    ghost var all := Values(rs);
    assert all[0..] == all;
    for i := 0 to |rs|
      invariant total + Outstanding(all[i..]) == Outstanding(all)
    {
      OutstandingFrom(all, i);
      total := total + rs[i].units;
    }
  }

  /** A write through one pointer. */
  method SetUnits(rs: seq<Record>, i: nat, units: nat)
    requires Apart(rs) && i < |rs|
    modifies rs[i]
    ensures Values(rs) == old(Values(rs))[i := old(rs[i].Value()).(units := units)]
  {
    rs[i].units := units;
  }

  /** How far the loop has come: records before i are as spending leaves them, the others untouched. */
  ghost predicate SpentTo(spent: (seq<Unlock>, nat), all: seq<Unlock>, now: seq<Unlock>, i: nat, rest: (seq<Unlock>, nat)) {
    i <= |all| == |now| && now[i..] == all[i..] && spent.0 == now[..i] + rest.0 && spent.1 == rest.1
  }

  lemma SpentToNext(spent: (seq<Unlock>, nat), all: seq<Unlock>, now: seq<Unlock>, i: nat, rest: (seq<Unlock>, nat), u: Unlock, next: (seq<Unlock>, nat))
    requires SpentTo(spent, all, now, i, rest) && i < |all|
    requires rest.0 == [u] + next.0 && rest.1 == next.1
    ensures now[i] == all[i] && SpentTo(spent, all, now[i := u], i + 1, next)
  {
    assert now[i..][0] == all[i..][0];
    assert now[i := u][..i + 1] == now[..i] + [u];
    assert now[..i] + ([u] + next.0) == now[..i] + [u] + next.0;
    assert now[i := u][i + 1..] == now[i..][1..] == all[i..][1..] == all[i + 1..];
  }

  /** The loop of UseUnlockedLiquidity, emptying records through the pointers it was given. */
  method UseRecords(rs: seq<Record>, need: nat, now: int, lock: nat, any: bool) returns (left: nat)
    requires Apart(rs)
    modifies rs
    ensures (Values(rs), left) == Spent(old(Values(rs)), need, now, lock, any)
  {
    hide Spent, SpentTo;
    left := need;
    ghost var all := Values(rs);
    ghost var spent := Spent(all, need, now, lock, any);
    SpentStart(all, spent);
    for i := 0 to |rs|
      invariant SpentTo(spent, all, Values(rs), i, Spent(all[i..], left, now, lock, any))
    {
      ghost var rest := Spent(all[i..], left, now, lock, any);
      SpentAt(all, i, left, now, lock, any);
      SpentHere(spent, all, Values(rs), i, rest);
      if any || rs[i].height + lock <= now {
        if left > rs[i].units {
          left := left - rs[i].units;
          SpentToNext(spent, all, Values(rs), i, rest, all[i].(units := 0), Spent(all[i + 1..], left, now, lock, any));
          SetUnits(rs, i, 0);
        } else {
          var units := rs[i].units - left;
          SpentToNext(spent, all, Values(rs), i, rest, all[i].(units := units), (all[i + 1..], 0));
          SetUnits(rs, i, units);
          left := 0;
          SpentDone(spent, all, Values(rs), i + 1);
          return;
        }
      } else {
        SpentToNext(spent, all, Values(rs), i, rest, all[i], Spent(all[i + 1..], left, now, lock, any));
        assert Values(rs)[i := all[i]] == Values(rs);
      }
    }
    SpentAt(all, |rs|, left, now, lock, any);
    SpentEnd(spent, all, Values(rs), left, Spent(all[|rs|..], left, now, lock, any));
  }

  lemma SpentStart(all: seq<Unlock>, spent: (seq<Unlock>, nat))
    ensures all[0..] == all && SpentTo(spent, all, all, 0, spent)
  {
  }

  lemma SpentHere(spent: (seq<Unlock>, nat), all: seq<Unlock>, now: seq<Unlock>, i: nat, rest: (seq<Unlock>, nat))
    requires SpentTo(spent, all, now, i, rest) && i < |all|
    ensures i < |now| && now[i] == all[i]
  {
    assert now[i..][0] == all[i..][0];
  }

  lemma SpentDone(spent: (seq<Unlock>, nat), all: seq<Unlock>, now: seq<Unlock>, i: nat)
    requires i <= |all| && SpentTo(spent, all, now, i, (all[i..], 0))
    ensures spent == (now, 0)
  {
    assert now[..i] + now[i..] == now;
  }

  lemma SpentEnd(spent: (seq<Unlock>, nat), all: seq<Unlock>, now: seq<Unlock>, left: nat, rest: (seq<Unlock>, nat))
    requires SpentTo(spent, all, now, |all|, rest) && rest == ([], left)
    ensures spent == (now, left)
  {
    assert now[..|all|] + [] == now;
  }
}
