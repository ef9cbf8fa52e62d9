/** What the unlock records guarantee over whole runs: never more than is held, never before its time. */
module UnlockSafety {
  import opened Distribution
  import opened Ledger
  import opened LiquidityAdds
  import opened Runs
  import opened Swaps
  import opened Types
  import opened Unlocks
  import opened UnitsCheck
  import Rewards
  import Withdrawals

  // ---------- Which provider a step touches ----------

  /** What a step makes of one provider: kept, rewritten or deleted. */
  function At(s: State, key: LpKey): Provider {
    if key in s.lps then s.lps[key] else Provider(0, [])
  }

  /** The provider a removal message speaks for. */
  predicate RemovesFor(e: Event, key: LpKey) {
    e.Deliver? && (e.msg.MsgRemoveLiquidity? || e.msg.MsgRemoveLiquidityUnits?) && LpKey(e.msg.symbol, e.msg.who) == key
  }

  lemma SwapSameProviders(s: State, env: Env, who: Address, sent: Symbol, received: Symbol, amount: nat, least: nat)
    requires Swap(s, env, who, sent, received, amount, least).Ok?
    ensures Swap(s, env, who, sent, received, amount, least).value.lps == s.lps
  {
    hide SwapOne, SwapUpdates, SwapPrice;
  }

  lemma CreatePoolProvider(s: State, env: Env, who: Address, symbol: Symbol, native: nat, external: nat)
    requires CreatePool(s, env, who, symbol, native, external).Ok?
    ensures exists units: nat :: CreatePool(s, env, who, symbol, native, external).value.lps
                                 == s.lps[LpKey(symbol, who) := Provider(units, [])]
  {
    hide PoolUnits, CollectBoth;
    var q := PoolUnits(0, 0, 0, native, external, env.Fee(NATIVE), env.Fee(symbol), env.rate).value;
    CollectBothKeeps(s, who, symbol, native, external);
    assert CreatePool(s, env, who, symbol, native, external).value.lps == s.lps[LpKey(symbol, who) := Provider(q.lpUnits, [])];
  }

  lemma AddLiquidityProvider(s: State, env: Env, who: Address, symbol: Symbol, native: nat, external: nat)
    requires AddLiquidity(s, env, who, symbol, native, external).Ok?
    ensures var key := LpKey(symbol, who);
            exists units: nat :: units >= At(s, key).units
                                 && AddLiquidity(s, env, who, symbol, native, external).value.lps
                                    == s.lps[key := At(s, key).(units := units)]
  {
    hide PoolUnits, AddSwaps, CollectBoth;
    var pool, key := s.pools[symbol], LpKey(symbol, who);
    var q := PoolUnits(pool.units, pool.NativeDepth(), pool.ExternalDepth(), native, external,
                       env.Fee(NATIVE), env.Fee(symbol), env.rate).value;
    CollectBothKeeps(s.(bucket := AddSwaps(s, env, symbol, pool, q).value), who, symbol, native, external);
    assert AddLiquidity(s, env, who, symbol, native, external).value.lps
        == s.lps[key := At(s, key).(units := At(s, key).units + q.lpUnits)];
  }

  lemma RemovedProvider(s: State, blocked: set<Address>, key: LpKey, out: Withdrawals.Payout, unlocks: seq<Unlock>)
    requires key in s.lps && key.symbol in s.pools && Removed(s, blocked, key, out, unlocks).Ok?
    ensures Removed(s, blocked, key, out, unlocks).value.lps
         == if out.unitsLeft == 0 then s.lps - {key} else s.lps[key := Provider(out.unitsLeft, unlocks)]
  {
    hide PayBoth;
    var pool, lp := s.pools[key.symbol], s.lps[key];
    var s1 := PutPool(s, key.symbol, pool.(units := pool.units - lp.units + out.unitsLeft,
                                           native := pool.native - out.native, external := pool.external - out.external));
    PayBothKeeps(s1, blocked, key.address, key.symbol, out.native, out.external);
  }

  // ---------- Never more than is held ----------

  predicate BackedBy(lp: Provider, now: int) {
    Outstanding(lp.unlocks) <= lp.units && RequestedBy(lp.unlocks, now)
  }

  predicate Backed(s: State, now: int) {
    forall k | k in s.lps :: BackedBy(s.lps[k], now)
  }

  lemma BackedLater(s: State, now: int, later: int)
    requires Backed(s, now) && now <= later
    ensures Backed(s, later)
  {
    hide Outstanding;
    forall k | k in s.lps ensures BackedBy(s.lps[k], later) {
      assert BackedBy(s.lps[k], now);
    }
  }

  /** With no lock period every record has matured, so removing more than they hold exhausts them. */
  lemma RemainderBacked(lp: Provider, env: Env, unitsLeft: nat)
    requires BackedBy(lp, env.height) && unitsLeft <= lp.units
    requires SpendUnlocked(LivePruned(lp, env), lp.units - unitsLeft, env, false).Ok?
    ensures BackedBy(Provider(unitsLeft, SpendUnlocked(LivePruned(lp, env), lp.units - unitsLeft, env, false).value), env.height)
  {
    hide Spent, Pruned, Outstanding, OutstandingBy;
    var need, live := lp.units - unitsLeft, LivePruned(lp, env);
    PrunedNoMore(lp.unlocks, env.height, env.lockPeriod, env.cancelPeriod, 0, env.height);
    SpentTotal(live, need, env.height, env.lockPeriod, false);
    SpentHeights(live, need, env.height, env.lockPeriod, false, env.height);
    if env.lockPeriod == 0 {
      SpentExhausts(live, need, env.height, env.lockPeriod, false);
    }
  }

  lemma RemovePaidBacked(s: State, env: Env, key: LpKey, out: Withdrawals.Payout)
    requires Backed(s, env.height) && key in s.lps && key.symbol in s.pools && RemovePaid(s, env, key, out).Ok?
    ensures Backed(RemovePaid(s, env, key, out).value, env.height)
  {
    hide SpendUnlocked, LivePruned, Removed, BackedBy;
    var lp := s.lps[key];
    var unlocks := SpendUnlocked(LivePruned(lp, env), lp.units - out.unitsLeft, env, false).value;
    RemovedProvider(s, env.blocked, key, out, unlocks);
    RemainderBacked(lp, env, out.unitsLeft);
  }

  lemma UnlockBacked(s: State, env: Env, who: Address, symbol: Symbol, units: nat)
    requires Backed(s, env.height) && UnlockLiquidity(s, env, who, symbol, units).Ok?
    ensures Backed(UnlockLiquidity(s, env, who, symbol, units).value, env.height)
  {
    hide Pruned, Outstanding;
    var lp := s.lps[LpKey(symbol, who)];
    PrunedNoMore(lp.unlocks, env.height, env.lockPeriod, env.cancelPeriod, 0, env.height);
    OutstandingAppend(LivePruned(lp, env), Unlock(env.height, units), 0);
  }

  lemma CancelBacked(s: State, env: Env, who: Address, symbol: Symbol, units: nat)
    requires Backed(s, env.height) && CancelUnlock(s, env, who, symbol, units).Ok?
    ensures Backed(CancelUnlock(s, env, who, symbol, units).value, env.height)
  {
    hide Pruned, Spent, NonZero, Outstanding, OutstandingBy;
    var lp := s.lps[LpKey(symbol, who)];
    var live := LivePruned(lp, env);
    PrunedNoMore(lp.unlocks, env.height, env.lockPeriod, env.cancelPeriod, 0, env.height);
    SpentTotal(live, units, env.height, env.lockPeriod, true);
    SpentHeights(live, units, env.height, env.lockPeriod, true, env.height);
    NonZeroSame(Spent(live, units, env.height, env.lockPeriod, true).0, 0, env.height);
  }

  lemma HandleBacked(s: State, env: Env, m: Msg)
    requires Backed(s, env.height) && Handle(s, env, m).Ok?
    ensures Backed(Handle(s, env, m).value, env.height)
  {
    hide CreatePool, AddLiquidity, Swap, RemovePaid, Decommission, Withdrawals.FromUnits, Withdrawals.FromBasisPoints,
         UnlockLiquidity, CancelUnlock, Outstanding;
    match m
    case MsgCreatePool(who, symbol, native, external) =>
      NoneOutstanding(0);
      CreatePoolProvider(s, env, who, symbol, native, external);
    case MsgAddLiquidity(who, symbol, native, external) =>
      NoneOutstanding(0);
      AddLiquidityProvider(s, env, who, symbol, native, external);
    case MsgSwap(who, sent, received, amount, least) => SwapSameProviders(s, env, who, sent, received, amount, least);
    case MsgRemoveLiquidity(who, symbol, wBasis, asymmetry) =>
      var pool, lp := s.pools[symbol], s.lps[LpKey(symbol, who)];
      RemovePaidBacked(s, env, LpKey(symbol, who),
                       Withdrawals.FromBasisPoints(pool.units, pool.NativeDepth(), pool.ExternalDepth(), lp.units, wBasis).value);
    case MsgRemoveLiquidityUnits(who, symbol, units) =>
      var pool, lp := s.pools[symbol], s.lps[LpKey(symbol, who)];
      RemovePaidBacked(s, env, LpKey(symbol, who),
                       Withdrawals.FromUnits(pool.units, pool.NativeDepth(), pool.ExternalDepth(), lp.units, units).value);
    case MsgUnlockLiquidity(who, symbol, units) => UnlockBacked(s, env, who, symbol, units);
    case MsgCancelUnlock(who, symbol, units) => CancelBacked(s, env, who, symbol, units);
    case MsgDecommission(who, symbol, order) => DecommissionProviders(s, env, who, symbol, order);
  }

  lemma NoneOutstanding(height: int)
    ensures Outstanding([]) == 0 && OutstandingBy([], height) == 0
  {
  }

  lemma DecommissionProviders(s: State, env: Env, who: Address, symbol: Symbol, order: seq<Address>)
    requires Decommission(s, env, who, symbol, order).Ok?
    ensures Decommission(s, env, who, symbol, order).value.lps == s.lps - Refunded(symbol, order)
  {
    hide RefundAll;
    var pool := s.pools[symbol];
    RefundAllDrops(s, env.blocked, symbol, pool, order, Remaining(pool.units, pool.native, pool.external));
  }

  lemma QuietSameProviders(s: State, e: Event)
    requires !e.Deliver?
    ensures Step(s, e).lps == s.lps
  {
    hide Entries, PayEach, NativeGrants, GrantTotals, Rewards.BlockGrants, Rewards.Topped, Rewards.Unheld, Rewards.GrantSum;
  }

  /** The chain's height after an event; heights never go back. */
  function Later(now: int, e: Event): int {
    if e.Deliver? then e.env.height else now
  }

  ghost predicate InOrder(now: int, events: seq<Event>)
    decreases |events|
  {
    events == [] || (now <= Later(now, events[0]) && InOrder(Later(now, events[0]), events[1..]))
  }

  function LastHeight(now: int, events: seq<Event>): int
    decreases |events|
  {
    if events == [] then now else LastHeight(Later(now, events[0]), events[1..])
  }

  lemma StepBacked(s: State, e: Event, now: int)
    requires Backed(s, now) && now <= Later(now, e)
    ensures Backed(Step(s, e), Later(now, e))
  {
    hide Handle, Outstanding;
    BackedLater(s, now, Later(now, e));
    if e.Deliver? {
      if Attempt(s, e).Ok? { HandleBacked(s, e.env, e.msg); }
    } else {
      QuietSameProviders(s, e);
    }
  }

  /** In every reachable state no provider has more units waiting to be unlocked than it holds. */
  lemma {:induction false} RecordsBackedOverRuns(s: State, events: seq<Event>, now: int)
    requires Backed(s, now) && InOrder(now, events)
    ensures Backed(Run(s, events), LastHeight(now, events))
    decreases |events|
  {
    hide Step, Backed;
    if events != [] {
      StepBacked(s, events[0], now);
      RecordsBackedOverRuns(Step(s, events[0]), events[1..], Later(now, events[0]));
    }
  }

  // ---------- Never before its time ----------

  /** Units a step's removal message took from a provider. */
  function Taken(s: State, e: Event, key: LpKey): int {
    if RemovesFor(e, key) then At(s, key).units - At(Step(s, e), key).units else 0
  }

  /** Units a step's unlock request asked for, if made by a height. */
  function Asked(s: State, e: Event, key: LpKey, until: int): nat {
    if e.Deliver? && e.msg.MsgUnlockLiquidity? && LpKey(e.msg.symbol, e.msg.who) == key && Attempt(s, e).Ok? && e.env.height <= until
    then e.msg.units else 0
  }

  function TakenOver(s: State, events: seq<Event>, key: LpKey): int
    decreases |events|
  {
    if events == [] then 0 else Taken(s, events[0], key) + TakenOver(Step(s, events[0]), events[1..], key)
  }

  function AskedOver(s: State, events: seq<Event>, key: LpKey, until: int): nat
    decreases |events|
  {
    if events == [] then 0 else Asked(s, events[0], key, until) + AskedOver(Step(s, events[0]), events[1..], key, until)
  }

  function Waiting(s: State, key: LpKey, until: int): nat {
    OutstandingBy(At(s, key).unlocks, until)
  }

  lemma RemovePaidWaiting(s: State, env: Env, at: LpKey, out: Withdrawals.Payout, key: LpKey, until: int)
    requires env.lockPeriod > 0 && until >= env.height - env.lockPeriod
    requires at in s.lps && at.symbol in s.pools && RemovePaid(s, env, at, out).Ok?
    ensures var t := RemovePaid(s, env, at, out).value;
            (if at == key then At(s, key).units - At(t, key).units else 0) + Waiting(t, key, until) <= Waiting(s, key, until)
  {
    hide Spent, Pruned, Outstanding, OutstandingBy, Removed;
    var lp := s.lps[at];
    var need, live := lp.units - out.unitsLeft, LivePruned(lp, env);
    PrunedNoMore(lp.unlocks, env.height, env.lockPeriod, env.cancelPeriod, until, 0);
    SpentMatured(live, need, env.height, env.lockPeriod, until);
    NoneOutstanding(until);
    RemovedProvider(s, env.blocked, at, out, SpendUnlocked(live, need, env, false).value);
  }

  lemma UnlockWaiting(s: State, env: Env, who: Address, symbol: Symbol, units: nat, key: LpKey, until: int)
    requires UnlockLiquidity(s, env, who, symbol, units).Ok?
    ensures Waiting(UnlockLiquidity(s, env, who, symbol, units).value, key, until)
         <= Waiting(s, key, until) + (if LpKey(symbol, who) == key && env.height <= until then units else 0)
  {
    hide Pruned, Outstanding, OutstandingBy;
    var lp := s.lps[LpKey(symbol, who)];
    PrunedNoMore(lp.unlocks, env.height, env.lockPeriod, env.cancelPeriod, until, 0);
    OutstandingAppend(LivePruned(lp, env), Unlock(env.height, units), until);
  }

  lemma CancelWaiting(s: State, env: Env, who: Address, symbol: Symbol, units: nat, key: LpKey, until: int)
    requires CancelUnlock(s, env, who, symbol, units).Ok?
    ensures Waiting(CancelUnlock(s, env, who, symbol, units).value, key, until) <= Waiting(s, key, until)
  {
    hide Pruned, Spent, NonZero, Outstanding, OutstandingBy;
    var lp := s.lps[LpKey(symbol, who)];
    var live := LivePruned(lp, env);
    PrunedNoMore(lp.unlocks, env.height, env.lockPeriod, env.cancelPeriod, until, 0);
    SpentNoMore(live, units, env.height, env.lockPeriod, true, until);
    NonZeroSame(Spent(live, units, env.height, env.lockPeriod, true).0, until, 0);
  }

  /** Messages that neither unlock, cancel nor remove never add to what is waiting. */
  lemma OtherWaiting(s: State, env: Env, m: Msg, key: LpKey, until: int)
    requires Handle(s, env, m).Ok?
    requires m.MsgCreatePool? || m.MsgAddLiquidity? || m.MsgSwap? || m.MsgDecommission?
    ensures Waiting(Handle(s, env, m).value, key, until) <= Waiting(s, key, until)
  {
    hide CreatePool, AddLiquidity, Swap, Decommission, OutstandingBy;
    NoneOutstanding(until);
    match m
    case MsgCreatePool(who, symbol, native, external) => CreatePoolProvider(s, env, who, symbol, native, external);
    case MsgAddLiquidity(who, symbol, native, external) => AddLiquidityProvider(s, env, who, symbol, native, external);
    case MsgSwap(who, sent, received, amount, least) => SwapSameProviders(s, env, who, sent, received, amount, least);
    case MsgDecommission(who, symbol, order) => DecommissionProviders(s, env, who, symbol, order);
  }

  lemma RemovalWaiting(s: State, env: Env, m: Msg, key: LpKey, until: int)
    requires Handle(s, env, m).Ok? && (m.MsgRemoveLiquidity? || m.MsgRemoveLiquidityUnits?)
    requires env.lockPeriod > 0 && until >= env.height - env.lockPeriod
    ensures var t := Handle(s, env, m).value;
            (if LpKey(m.symbol, m.who) == key then At(s, key).units - At(t, key).units else 0) + Waiting(t, key, until)
            <= Waiting(s, key, until)
  {
    hide RemovePaid, Withdrawals.FromUnits, Withdrawals.FromBasisPoints, Waiting;
    var pool, lp := s.pools[m.symbol], s.lps[LpKey(m.symbol, m.who)];
    if m.MsgRemoveLiquidity? {
      RemovePaidWaiting(s, env, LpKey(m.symbol, m.who),
                        Withdrawals.FromBasisPoints(pool.units, pool.NativeDepth(), pool.ExternalDepth(), lp.units, m.wBasis).value, key, until);
    } else {
      RemovePaidWaiting(s, env, LpKey(m.symbol, m.who),
                        Withdrawals.FromUnits(pool.units, pool.NativeDepth(), pool.ExternalDepth(), lp.units, m.units).value, key, until);
    }
  }

  lemma StepWaiting(s: State, e: Event, key: LpKey, until: int)
    requires e.Deliver? ==> e.env.lockPeriod > 0 && until >= e.env.height - e.env.lockPeriod
    ensures Taken(s, e, key) + Waiting(Step(s, e), key, until) <= Asked(s, e, key, until) + Waiting(s, key, until)
  {
    hide CreatePool, AddLiquidity, Swap, RemoveLiquidity, RemoveLiquidityUnits, UnlockLiquidity, CancelUnlock, Decommission, OutstandingBy;
    if !e.Deliver? {
      QuietSameProviders(s, e);
    } else if Attempt(s, e).Ok? {
      match e.msg
      case MsgRemoveLiquidity(_, _, _, _) => RemovalWaiting(s, e.env, e.msg, key, until);
      case MsgRemoveLiquidityUnits(_, _, _) => RemovalWaiting(s, e.env, e.msg, key, until);
      case MsgUnlockLiquidity(who, symbol, units) => UnlockWaiting(s, e.env, who, symbol, units, key, until);
      case MsgCancelUnlock(who, symbol, units) => CancelWaiting(s, e.env, who, symbol, units, key, until);
      case _ => OtherWaiting(s, e.env, e.msg, key, until);
    }
  }

  /** Every message of a run is handled under one lock period, by a given height. */
  predicate LockedRun(events: seq<Event>, lock: nat, height: int) {
    forall i | 0 <= i < |events| :: events[i].Deliver? ==> events[i].env.lockPeriod == lock && events[i].env.height <= height
  }

  /**
   With a fixed lock period, by any height a provider has removed no more than it asked to unlock at least a
   lock period before, counting what was already waiting when the run began.
   */
  lemma {:induction false} RemovalsWaitOutTheLock(s: State, events: seq<Event>, key: LpKey, lock: nat, height: int)
    requires lock > 0 && LockedRun(events, lock, height)
    ensures TakenOver(s, events, key) + Waiting(Run(s, events), key, height - lock)
         <= AskedOver(s, events, key, height - lock) + Waiting(s, key, height - lock)
    decreases |events|
  {
    hide Step, Taken, Asked, Waiting;
    if events != [] {
      assert events[0].Deliver? ==> events[0].env.lockPeriod == lock && events[0].env.height <= height;
      StepWaiting(s, events[0], key, height - lock);
      RemovalsWaitOutTheLock(Step(s, events[0]), events[1..], key, lock, height);
    }
  }

  /** A provider that starts with no records removes only what it asked for in time. */
  lemma RemovedAtMostRequested(s: State, events: seq<Event>, key: LpKey, lock: nat, height: int)
    requires lock > 0 && LockedRun(events, lock, height) && At(s, key).unlocks == []
    ensures TakenOver(s, events, key) <= AskedOver(s, events, key, height - lock)
  {
    RemovalsWaitOutTheLock(s, events, key, lock, height);
  }

  /**
   The records let a removal through exactly when there is no lock period, or when enough was requested at
   least a lock period ago and not so long ago that it was cancelled.
   */
  lemma RemovalAllowedExactly(lp: Provider, env: Env, need: nat)
    ensures SpendUnlocked(LivePruned(lp, env), need, env, false).Ok?
       <==> env.lockPeriod == 0
            || need <= OutstandingWithin(lp.unlocks, env.height - env.lockPeriod - env.cancelPeriod, env.height - env.lockPeriod)
  {
    hide Spent, Pruned, OutstandingBy, OutstandingWithin;
    SpentExactly(LivePruned(lp, env), need, env.height, env.lockPeriod);
    PrunedExactly(lp.unlocks, env.height, env.lockPeriod, env.cancelPeriod, env.height - env.lockPeriod);
  }

  /**
   UseUnlockedLiquidity is described as dropping the records it empties, but a removal stores the caller's list:
   the provider that is left keeps an emptied record exactly when the removal took at least all of the first
   matured record.
   */
  lemma RemovalKeepsEmptied(s: State, env: Env, key: LpKey, out: Withdrawals.Payout)
    requires key in s.lps && key.symbol in s.pools && RemovePaid(s, env, key, out).Ok? && out.unitsLeft > 0
    ensures var t := RemovePaid(s, env, key, out).value;
            var removed := s.lps[key].units - out.unitsLeft;
            key in t.lps && t.lps[key].units == out.unitsLeft
            && (Emptied(t.lps[key].unlocks) <==> 0 <= FirstMatured(LivePruned(s.lps[key], env), env.height, env.lockPeriod) <= removed)
  {
    hide Spent, Pruned, Removed, Emptied, FirstMatured;
    var lp := s.lps[key];
    var need, live := lp.units - out.unitsLeft, LivePruned(lp, env);
    PrunedNoneEmptied(lp.unlocks, env.height, env.lockPeriod, env.cancelPeriod);
    SpentEmpties(live, need, env.height, env.lockPeriod);
    RemovedProvider(s, env.blocked, key, out, SpendUnlocked(live, need, env, false).value);
  }

  /** A cancellation, which stores the list UseUnlockedLiquidity built, never leaves one. */
  lemma CancelDropsEmptied(s: State, env: Env, who: Address, symbol: Symbol, units: nat)
    requires CancelUnlock(s, env, who, symbol, units).Ok?
    ensures var key := LpKey(symbol, who);
            var t := CancelUnlock(s, env, who, symbol, units).value;
            key in t.lps && !Emptied(t.lps[key].unlocks)
  {
    hide Spent, Pruned, NonZero;
    var lp := s.lps[LpKey(symbol, who)];
    NonZeroNoneEmptied(SpendUnlocked(LivePruned(lp, env), units, env, true).value);
  }

  lemma {:induction false} NonZeroNoneEmptied(us: seq<Unlock>)
    ensures !Emptied(NonZero(us))
  {
    if us != [] {
      NonZeroNoneEmptied(us[1..]);
      if us[0].units != 0 { EmptiedCons(us[0], NonZero(us[1..])); }
    }
  }

  // ---------- Requests and cancellations ----------

  /** The height by which a record has been cancelled at this block. */
  function Expired(env: Env): int {
    env.height - env.lockPeriod - env.cancelPeriod
  }

  /**
   A request is recorded exactly when it fits in the provider's units beside what it still has waiting. Of every
   height, what was waiting stays and the request is added at this one; nothing else changes.
   */
  lemma RequestsExactly(s: State, env: Env, who: Address, symbol: Symbol, units: nat)
    ensures var r, key := UnlockLiquidity(s, env, who, symbol, units), LpKey(symbol, who);
            && (r.Ok? <==> key in s.lps && OutstandingAfter(s.lps[key].unlocks, Expired(env)) + units <= s.lps[key].units)
            && (r.Ok? ==>
                  && key in r.value.lps && r.value == s.(lps := s.lps[key := r.value.lps[key]]) && r.value.lps[key].units == s.lps[key].units
                  && Outstanding(r.value.lps[key].unlocks) == OutstandingAfter(s.lps[key].unlocks, Expired(env)) + units
                  && forall until :: OutstandingBy(r.value.lps[key].unlocks, until)
                                     == OutstandingWithin(s.lps[key].unlocks, Expired(env), until) + (if env.height <= until then units else 0))
  {
    hide Pruned, Outstanding, OutstandingBy, OutstandingWithin, OutstandingAfter;
    var key := LpKey(symbol, who);
    if key in s.lps {
      var lp := s.lps[key];
      var live, request := LivePruned(lp, env), Unlock(env.height, units);
      PrunedAfter(lp.unlocks, env.height, env.lockPeriod, env.cancelPeriod);
      OutstandingAppend(live, request, 0);
      forall until ensures OutstandingBy(live + [request], until)
                        == OutstandingWithin(lp.unlocks, Expired(env), until) + (if env.height <= until then units else 0)
      {
        PrunedExactly(lp.unlocks, env.height, env.lockPeriod, env.cancelPeriod, until);
        OutstandingAppend(live, request, until);
      }
    }
  }

  /**
   A cancellation goes through exactly when there is no lock period or that much is waiting, and takes off what was
   cancelled, or all there was.
   */
  lemma CancelsExactly(s: State, env: Env, who: Address, symbol: Symbol, units: nat)
    ensures var r, key := CancelUnlock(s, env, who, symbol, units), LpKey(symbol, who);
            && (r.Ok? <==> key in s.lps && (env.lockPeriod == 0 || units <= OutstandingAfter(s.lps[key].unlocks, Expired(env))))
            && (r.Ok? ==>
                  var waiting := OutstandingAfter(s.lps[key].unlocks, Expired(env));
                  && key in r.value.lps && r.value == s.(lps := s.lps[key := r.value.lps[key]]) && r.value.lps[key].units == s.lps[key].units
                  && Outstanding(r.value.lps[key].unlocks) == if units <= waiting then waiting - units else 0)
  {
    hide Pruned, Spent, NonZero, Outstanding, OutstandingAfter;
    var key := LpKey(symbol, who);
    if key in s.lps {
      var lp := s.lps[key];
      var live := LivePruned(lp, env);
      PrunedAfter(lp.unlocks, env.height, env.lockPeriod, env.cancelPeriod);
      SpentTotal(live, units, env.height, env.lockPeriod, true);
      SpentExhausts(live, units, env.height, env.lockPeriod, true);
      NonZeroSame(Spent(live, units, env.height, env.lockPeriod, true).0, 0, 0);
    }
  }

  /**
   A removal takes exactly the units removed off what was waiting, or all of it where there is no lock period, and
   leaves every request younger than the lock period as it was.
   */
  lemma RemovalSpends(s: State, env: Env, key: LpKey, out: Withdrawals.Payout, until: int)
    requires key in s.lps && key.symbol in s.pools && RemovePaid(s, env, key, out).Ok? && out.unitsLeft > 0
    requires RequestedBy(s.lps[key].unlocks, env.height)
    ensures var t, lp := RemovePaid(s, env, key, out).value, s.lps[key];
            && key in t.lps && out.unitsLeft <= lp.units
            && var waiting, removed := OutstandingAfter(lp.unlocks, Expired(env)), lp.units - out.unitsLeft;
            && Outstanding(t.lps[key].unlocks) == (if removed <= waiting then waiting - removed else 0)
            && OutstandingWithin(t.lps[key].unlocks, env.height - env.lockPeriod, until)
               == OutstandingWithin(lp.unlocks, env.height - env.lockPeriod, until)
  {
    hide Spent, Pruned, Removed, Outstanding, OutstandingAfter, OutstandingBy, OutstandingWithin, RequestedBy;
    var lp := s.lps[key];
    var need, live := lp.units - out.unitsLeft, LivePruned(lp, env);
    RemovedProvider(s, env.blocked, key, out, SpendUnlocked(live, need, env, false).value);
    PrunedAfter(lp.unlocks, env.height, env.lockPeriod, env.cancelPeriod);
    PrunedNoMore(lp.unlocks, env.height, env.lockPeriod, env.cancelPeriod, 0, env.height);
    SpentTotal(live, need, env.height, env.lockPeriod, false);
    if env.lockPeriod == 0 { SpentExhaustsOld(live, need, env.height); }
    SpentKeepsYoung(live, need, env.height, env.lockPeriod, until);
    PrunedKeepsYoung(lp.unlocks, env.height, env.lockPeriod, env.cancelPeriod, until);
  }

  lemma SpentExhaustsOld(us: seq<Unlock>, need: nat, now: int)
    requires RequestedBy(us, now)
    ensures var (vs, left) := Spent(us, need, now, 0, false); left > 0 ==> Outstanding(vs) == 0
  {
    hide Spent, Outstanding;
    SpentExhausts(us, need, now, 0, false);
  }

  lemma {:induction false} SpentKeepsYoung(us: seq<Unlock>, need: nat, now: int, lock: nat, until: int)
    ensures OutstandingWithin(Spent(us, need, now, lock, false).0, now - lock, until) == OutstandingWithin(us, now - lock, until)
  {
    hide Spent;
    if us == [] {
      NothingMatured(need, now, lock, false);
    } else {
      SpentHead(us, need, now, lock, false);
      SpentKeepsYoung(us[1..], StillAsked(us[0], need, now, lock, false), now, lock, until);
    }
  }

  lemma {:induction false} PrunedKeepsYoung(us: seq<Unlock>, now: int, lock: nat, cancel: nat, until: int)
    ensures OutstandingWithin(Pruned(us, now, lock, cancel), now - lock, until) == OutstandingWithin(us, now - lock, until)
  {
    if us != [] {
      PrunedKeepsYoung(us[1..], now, lock, cancel, until);
      if Live(us[0], now, lock, cancel) {
        assert Pruned(us, now, lock, cancel)[1..] == Pruned(us[1..], now, lock, cancel);
      }
    }
  }
}
