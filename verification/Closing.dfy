/**
 Closing a pool: when the refunds go through, and what they leave. Each provider is paid its share of the depths
 the pool had at the start, rounded to 18 decimals and truncated, so the refunds need not add up to the balances.
 */
module Closing {
  import opened Decimal
  import opened Distribution
  import opened Ledger
  import opened Runs
  import opened Solvency
  import opened Types
  import opened UnitsCheck
  import opened Withdrawals
  import RateLimit
  import Sums

  /** What one side owes a provider of u of the P units. */
  function Due(P: nat, D: nat, u: nat): nat {
    match Share(D, P, u * ONE)
    case Ok(share) => share / ONE
    case Err(_) => 0
  }

  lemma AllUnitsClaimed(u: nat)
    ensures Claimed(u, MAX_WBASIS) == u * ONE
  {
    hide Quo;
    QuoSelf(MAX_WBASIS * ONE);
    QuoByOne(u * ONE);
  }

  /** CalculateAllAssetsForLP: both sides' dues, and no units left. */
  lemma FullPayout(P: nat, N: nat, A: nat, u: nat)
    requires 0 < u <= P
    ensures FromBasisPoints(P, N, A, u, MAX_WBASIS) == Ok(Payout(Due(P, N, u), Due(P, A, u), 0))
    ensures Due(P, N, u) <= N && Due(P, A, u) <= A
  {
    hide Claimed, Share;
    AllUnitsClaimed(u);
    MulLe(u, P, ONE);
    ShareWithinDepth(N, P, u * ONE);
    ShareWithinDepth(A, P, u * ONE);
  }

  // ---------- One provider ----------

  /** A share against D u / P, through its two quotients. */
  lemma ShareBounds(D: nat, P: nat, u: nat, share: nat)
    requires 0 < u <= P && Share(D, P, u * ONE) == Ok(share)
    ensures (share - 1) * (P * (ONE - 1)) <= D * ONE * ONE * u
    ensures D * ONE * ONE * u <= (share + 1) * (P * (ONE + 1))
  {
    hide Quo;
    var q := Quo(P * ONE, u * ONE);
    QuoNear(P * ONE, u * ONE);
    assert q * (u * ONE) == q * u * ONE;
    QuoNear(D * ONE, q);
    ShareLinear(D * ONE * ONE, P, u, q, q * u, share);
  }

  lemma ShareLinear(X: nat, P: nat, u: nat, q: nat, qu: int, share: nat)
    requires 0 < u <= P && qu == q * u && Near(qu, P * ONE, u) && Near(share * q, X, q)
    ensures (share - 1) * (P * (ONE - 1)) <= X * u <= (share + 1) * (P * (ONE + 1))
  {
    NearScaled(share * q, X, q, u);
    assert share * q * u == share * qu;
    Between(X * u, qu, share, P * (ONE - 1), P * (ONE + 1));
  }

  lemma Between(target: nat, step: int, share: nat, lo: nat, hi: int)
    requires Near(share * step, target, step) && lo <= step <= hi
    ensures (share - 1) * lo <= target <= (share + 1) * hi
  {
    MulLe(step, hi, share + 1);
    assert step * (share + 1) == share * step + step && hi * (share + 1) == (share + 1) * hi;
    if share >= 1 {
      MulLe(lo, step, share - 1);
      assert step * (share - 1) == share * step - step && lo * (share - 1) == (share - 1) * lo;
    } else {
      assert (share - 1) * lo <= 0;
    }
  }

  lemma DueBounds(P: nat, D: nat, u: nat)
    requires 0 < u <= P
    ensures (Due(P, D, u) * ONE - 1) * (P * (ONE - 1)) <= D * ONE * ONE * u
    ensures D * ONE * ONE * u <= (Due(P, D, u) * ONE + ONE + 1) * (P * (ONE + 1))
  {
    hide Share;
    MulLe(u, P, ONE);
    ShareWithinDepth(D, P, u * ONE);
    var share := Share(D, P, u * ONE).value;
    var due := Due(P, D, u);
    assert due * ONE <= share < due * ONE + ONE;
    ShareBounds(D, P, u, share);
    MulLe(due * ONE - 1, share - 1, P * (ONE - 1));
    MulLe(share + 1, due * ONE + ONE + 1, P * (ONE + 1));
  }

  // ---------- All providers ----------

  function UnitsListed(lps: map<LpKey, Provider>, symbol: Symbol, order: seq<Address>): nat {
    if order == [] then 0
    else (if LpKey(symbol, order[0]) in lps then lps[LpKey(symbol, order[0])].units else 0) + UnitsListed(lps, symbol, order[1..])
  }

  /** What one side owes all the listed providers. */
  function DueAll(lps: map<LpKey, Provider>, symbol: Symbol, P: nat, D: nat, order: seq<Address>): nat {
    if order == [] then 0
    else
      (if LpKey(symbol, order[0]) in lps then Due(P, D, lps[LpKey(symbol, order[0])].units) else 0)
      + DueAll(lps, symbol, P, D, order[1..])
  }

  /** Every listed provider exists and has units, none more than the pool. */
  predicate Shareholders(lps: map<LpKey, Provider>, symbol: Symbol, P: nat, order: seq<Address>) {
    && Distinct(order)
    && (forall i | 0 <= i < |order| :: LpKey(symbol, order[i]) in lps && 0 < lps[LpKey(symbol, order[i])].units <= P)
  }

  lemma ShareholdersRest(lps: map<LpKey, Provider>, symbol: Symbol, P: nat, order: seq<Address>)
    requires Shareholders(lps, symbol, P, order) && order != []
    ensures Shareholders(lps, symbol, P, order[1..]) && Shareholders(lps - {LpKey(symbol, order[0])}, symbol, P, order[1..])
  {
    forall i | 0 <= i < |order[1..]| ensures order[1..][i] == order[i + 1] != order[0] {}
  }

  lemma {:induction false} DueAllBounds(lps: map<LpKey, Provider>, symbol: Symbol, P: nat, D: nat, order: seq<Address>, n: nat, due: nat, units: nat)
    requires Shareholders(lps, symbol, P, order)
    requires n == |order| && due == DueAll(lps, symbol, P, D, order) && units == UnitsListed(lps, symbol, order)
    ensures (due * ONE - n) * (P * (ONE - 1)) <= D * ONE * ONE * units
    ensures D * ONE * ONE * units <= (due * ONE + n * (ONE + 1)) * (P * (ONE + 1))
    decreases |order|
  {
    hide Due;
    if order != [] {
      var u := lps[LpKey(symbol, order[0])].units;
      ShareholdersRest(lps, symbol, P, order);
      var due1, units1 := DueAll(lps, symbol, P, D, order[1..]), UnitsListed(lps, symbol, order[1..]);
      DueAllBounds(lps, symbol, P, D, order[1..], n - 1, due1, units1);
      DueBounds(P, D, u);
      BoundsAdd(Due(P, D, u), due1, n - 1, P * (ONE - 1), P * (ONE + 1), D * ONE * ONE, u, units1);
    }
  }

  lemma BoundsAdd(due: nat, due1: nat, n1: nat, lo: int, hi: int, X: nat, u: nat, units1: nat)
    requires (due * ONE - 1) * lo <= X * u && X * u <= (due * ONE + ONE + 1) * hi
    requires (due1 * ONE - n1) * lo <= X * units1 && X * units1 <= (due1 * ONE + n1 * (ONE + 1)) * hi
    ensures ((due + due1) * ONE - (n1 + 1)) * lo <= X * (u + units1)
    ensures X * (u + units1) <= ((due + due1) * ONE + (n1 + 1) * (ONE + 1)) * hi
  {
    var a, b := due * ONE - 1, due1 * ONE - n1;
    assert (a + b) * lo == a * lo + b * lo;
    var c, d := due * ONE + ONE + 1, due1 * ONE + n1 * (ONE + 1);
    assert (c + d) * hi == c * hi + d * hi;
    assert X * (u + units1) == X * u + X * units1;
    assert (n1 + 1) * (ONE + 1) == n1 * (ONE + 1) + ONE + 1;
  }

  /** The listed units of all an asset's providers are the units its providers hold. */
  lemma {:induction false} ListedUnits(lps: map<LpKey, Provider>, symbol: Symbol, order: seq<Address>)
    requires Distinct(order) && forall i | 0 <= i < |order| :: LpKey(symbol, order[i]) in lps
    requires forall k | k in lps && k.symbol == symbol :: k.address in order
    ensures UnitsListed(lps, symbol, order) == UnitsOf(lps, symbol)
    decreases |order|
  {
    hide UnitsOf;
    if order == [] {
      NoneHeld(lps, symbol);
    } else {
      var key := LpKey(symbol, order[0]);
      var rest := lps - {key};
      forall i | 0 <= i < |order[1..]| ensures LpKey(symbol, order[1..][i]) in rest { assert order[1..][i] == order[i + 1]; }
      forall k | k in rest && k.symbol == symbol ensures k.address in order[1..] {
        assert k.address in order && k.address != order[0];
      }
      ListedUnits(rest, symbol, order[1..]);
      DropHeld(lps, key, symbol);
      UnitsListedFrame(lps, key, symbol, order[1..]);
    }
  }

  lemma {:induction false} UnitsListedFrame(lps: map<LpKey, Provider>, key: LpKey, symbol: Symbol, order: seq<Address>)
    requires forall i | 0 <= i < |order| :: LpKey(symbol, order[i]) != key
    ensures UnitsListed(lps - {key}, symbol, order) == UnitsListed(lps, symbol, order)
  {
    if order != [] { UnitsListedFrame(lps, key, symbol, order[1..]); }
  }

  lemma {:induction false} DueAllFrame(lps: map<LpKey, Provider>, key: LpKey, symbol: Symbol, P: nat, D: nat, order: seq<Address>)
    requires forall i | 0 <= i < |order| :: LpKey(symbol, order[i]) != key
    ensures DueAll(lps - {key}, symbol, P, D, order) == DueAll(lps, symbol, P, D, order)
  {
    hide Due;
    if order != [] { DueAllFrame(lps, key, symbol, P, D, order[1..]); }
  }

  // ---------- The refund loop ----------

  /** Nobody to be refunded is refused by the bank. */
  predicate NoneBlocked(blocked: set<Address>, order: seq<Address>) {
    forall i | 0 <= i < |order| :: order[i] !in blocked
  }

  /** The module account holds what the pool still has. */
  predicate Covers(s: State, symbol: Symbol, left: Remaining) {
    left.native <= Balance(s.reserve, NATIVE) && left.external <= Balance(s.reserve, symbol)
  }

  /** One refund succeeds exactly when the pool still has both dues. */
  lemma RefundExactly(s: State, blocked: set<Address>, symbol: Symbol, pool: Pool, who: Address, left: Remaining, n: nat, e: nat)
    requires symbol != NATIVE && who !in blocked && Covers(s, symbol, left)
    requires LpKey(symbol, who) in s.lps && 0 < s.lps[LpKey(symbol, who)].units <= pool.units
    requires s.lps[LpKey(symbol, who)].units <= left.units
    requires n == Due(pool.units, pool.NativeDepth(), s.lps[LpKey(symbol, who)].units)
    requires e == Due(pool.units, pool.ExternalDepth(), s.lps[LpKey(symbol, who)].units)
    ensures var r := Refund(s, blocked, symbol, pool, who, left);
            && (r.Ok? <==> n <= left.native && e <= left.external)
            && (r.Ok? ==> && r.value.0.lps == s.lps - {LpKey(symbol, who)}
                          && r.value.1 == Remaining(left.units - s.lps[LpKey(symbol, who)].units, left.native - n, left.external - e)
                          && Covers(r.value.0, symbol, r.value.1))
  {
    hide FromBasisPoints, Due;
    FullPayout(pool.units, pool.NativeDepth(), pool.ExternalDepth(), s.lps[LpKey(symbol, who)].units);
  }

  /** The loop succeeds exactly when the pool has all the dues of each side, and leaves exactly the rest. */
  lemma {:induction false} RefundAllExactly(s: State, blocked: set<Address>, symbol: Symbol, pool: Pool, order: seq<Address>, left: Remaining,
                                            native: nat, external: nat, units: nat)
    requires symbol != NATIVE && NoneBlocked(blocked, order) && Covers(s, symbol, left)
    requires Shareholders(s.lps, symbol, pool.units, order)
    requires units == UnitsListed(s.lps, symbol, order) && units <= left.units
    requires native == DueAll(s.lps, symbol, pool.units, pool.NativeDepth(), order)
    requires external == DueAll(s.lps, symbol, pool.units, pool.ExternalDepth(), order)
    ensures var r := RefundAll(s, blocked, symbol, pool, order, left);
            && (r.Ok? <==> native <= left.native && external <= left.external)
            && (r.Ok? ==> r.value.1 == Remaining(left.units - units, left.native - native, left.external - external))
    decreases |order|
  {
    hide Refund, Due, Covers;
    if order != [] {
      var rest, key := order[1..], LpKey(symbol, order[0]);
      var u := s.lps[key].units;
      var n, e := Due(pool.units, pool.NativeDepth(), u), Due(pool.units, pool.ExternalDepth(), u);
      ShareholdersRest(s.lps, symbol, pool.units, order);
      forall i | 0 <= i < |rest| ensures rest[i] == order[i + 1] && LpKey(symbol, rest[i]) != key {}
      UnitsListedFrame(s.lps, key, symbol, rest);
      DueAllFrame(s.lps, key, symbol, pool.units, pool.NativeDepth(), rest);
      DueAllFrame(s.lps, key, symbol, pool.units, pool.ExternalDepth(), rest);
      RefundExactly(s, blocked, symbol, pool, order[0], left, n, e);
      var r := Refund(s, blocked, symbol, pool, order[0], left);
      if r.Ok? {
        RefundAllExactly(r.value.0, blocked, symbol, pool, rest, r.value.1, native - n, external - e, units - u);
      }
    }
  }

  // ---------- Closing ----------

  /** The pool can be closed by this signer: it exists, is small, and its providers can all be paid by the bank. */
  ghost predicate Closable(s: State, env: Env, who: Address, symbol: Symbol, order: seq<Address>) {
    && Solvent(s) && UnitsMatch(s) && Lists(s, symbol, order)
    && symbol in s.pools && who in env.admins && s.pools[symbol].native < POOL_THRESHOLD
    && NoneBlocked(env.blocked, order)
  }

  /** No listed provider has been left without units. */
  predicate HaveUnits(lps: map<LpKey, Provider>, symbol: Symbol, order: seq<Address>) {
    forall i | 0 <= i < |order| :: LpKey(symbol, order[i]) in lps ==> lps[LpKey(symbol, order[i])].units > 0
  }

  /** A provider without units has no share to divide by. */
  lemma NothingClaimed(P: nat, N: nat, A: nat, w: nat)
    requires 0 < w <= MAX_WBASIS
    ensures FromBasisPoints(P, N, A, 0, w).Err?
  {
    DenominatorAtLeastOne(w);
    ClaimedAtMost(0, w);
  }

  /** One provider without units makes the refund loop fail, whatever the state. */
  lemma {:induction false} RefundNeedsUnits(s: State, blocked: set<Address>, symbol: Symbol, pool: Pool, order: seq<Address>, left: Remaining, i: nat)
    requires Distinct(order) && i < |order| && LpKey(symbol, order[i]) in s.lps && s.lps[LpKey(symbol, order[i])].units == 0
    ensures RefundAll(s, blocked, symbol, pool, order, left).Err?
    decreases |order|
  {
    hide FromBasisPoints;
    if i == 0 {
      NothingClaimed(pool.units, pool.NativeDepth(), pool.ExternalDepth(), MAX_WBASIS);
    } else if Refund(s, blocked, symbol, pool, order[0], left).Ok? {
      var (t, rest) := Refund(s, blocked, symbol, pool, order[0], left).value;
      RefundDrops(s, blocked, symbol, pool, order[0], left);
      assert order[1..][i - 1] == order[i] != order[0];
      RefundNeedsUnits(t, blocked, symbol, pool, order[1..], rest, i - 1);
    }
  }

  /** So it keeps its pool from ever being closed. */
  lemma ZeroUnitsKeepOpen(s: State, env: Env, who: Address, symbol: Symbol, order: seq<Address>)
    requires Lists(s, symbol, order) && !HaveUnits(s.lps, symbol, order)
    ensures Decommission(s, env, who, symbol, order).Err?
  {
    hide RefundAll;
    if symbol in s.pools {
      var pool := s.pools[symbol];
      var i :| 0 <= i < |order| && LpKey(symbol, order[i]) in s.lps && s.lps[LpKey(symbol, order[i])].units == 0;
      RefundNeedsUnits(s, env.blocked, symbol, pool, order, Remaining(pool.units, pool.native, pool.external), i);
    }
  }

  /** And neither removal message gets it out: one refuses the amount, the other divides by zero. */
  lemma ZeroUnitsCannotRemove(s: State, env: Env, who: Address, symbol: Symbol, units: nat, wBasis: int, asymmetry: int)
    requires LpKey(symbol, who) in s.lps && s.lps[LpKey(symbol, who)].units == 0
    ensures RemoveLiquidityUnits(s, env, who, symbol, units).Err? && RemoveLiquidity(s, env, who, symbol, wBasis, asymmetry).Err?
  {
    hide FromBasisPoints, FromUnits, RemovePaid;
    if 0 < wBasis <= MAX_WBASIS && symbol in s.pools {
      var pool := s.pools[symbol];
      NothingClaimed(pool.units, pool.NativeDepth(), pool.ExternalDepth(), wBasis);
    }
  }

  /** A sum of non-negative units is at least each of them. */
  lemma {:induction false} ListedAtLeast(lps: map<LpKey, Provider>, symbol: Symbol, order: seq<Address>, i: nat)
    requires i < |order| && LpKey(symbol, order[i]) in lps
    ensures lps[LpKey(symbol, order[i])].units <= UnitsListed(lps, symbol, order)
  {
    if i > 0 { ListedAtLeast(lps, symbol, order[1..], i - 1); }
  }

  lemma ClosableShares(s: State, env: Env, who: Address, symbol: Symbol, order: seq<Address>)
    requires Closable(s, env, who, symbol, order)
    ensures var pool := s.pools[symbol];
            && symbol != NATIVE && UnitsListed(s.lps, symbol, order) == pool.units
            && (HaveUnits(s.lps, symbol, order) ==> Shareholders(s.lps, symbol, pool.units, order))
            && Covers(s, symbol, Remaining(pool.units, pool.native, pool.external))
  {
    hide UnitsOf, Sums.Sum;
    var pool := s.pools[symbol];
    ListedUnits(s.lps, symbol, order);
    forall i | 0 <= i < |order| ensures s.lps[LpKey(symbol, order[i])].units <= pool.units { ListedAtLeast(s.lps, symbol, order, i); }
    assert Surplus(s, symbol) >= 0 && Surplus(s, NATIVE) >= 0;
    HoldingsAtLeast(s.pools, symbol);
  }

  /** One pool's native balance is no more than all pools record. */
  lemma HoldingsAtLeast(pools: map<Symbol, Pool>, symbol: Symbol)
    requires symbol in pools
    ensures pools[symbol].native <= Recorded(pools, NATIVE)
  {
    hide Sums.Sum;
    var all := Holdings(pools);
    Sums.SumRemove(all, symbol);
    Sums.SumNonNegative(all - {symbol});
  }

  /**
   A pool is closed exactly when every provider has units and each side's dues, which anyone can add up
   beforehand, fit in its balance; what is left over is the rest.
   */
  lemma ClosesExactly(s: State, env: Env, who: Address, symbol: Symbol, order: seq<Address>)
    requires Closable(s, env, who, symbol, order)
    ensures var pool := s.pools[symbol];
            var native := DueAll(s.lps, symbol, pool.units, pool.NativeDepth(), order);
            var external := DueAll(s.lps, symbol, pool.units, pool.ExternalDepth(), order);
            && (Decommission(s, env, who, symbol, order).Ok?
                <==> HaveUnits(s.lps, symbol, order) && native <= pool.native && external <= pool.external)
            && (Decommission(s, env, who, symbol, order).Ok? ==>
                  Leftover(s, env, symbol, order) == Remaining(0, pool.native - native, pool.external - external))
  {
    hide RefundAll, DueAll, UnitsListed, Covers, Shareholders, UnitsOf, Surplus, HaveUnits;
    var pool := s.pools[symbol];
    ClosableShares(s, env, who, symbol, order);
    if HaveUnits(s.lps, symbol, order) {
      RefundAllExactly(s, env.blocked, symbol, pool, order, Remaining(pool.units, pool.native, pool.external),
                       DueAll(s.lps, symbol, pool.units, pool.NativeDepth(), order),
                       DueAll(s.lps, symbol, pool.units, pool.ExternalDepth(), order), pool.units);
    } else {
      ZeroUnitsKeepOpen(s, env, who, symbol, order);
    }
  }

  lemma DuesBounded(D: nat, P: nat, n: nat, due: nat)
    requires P > 0
    requires (due * ONE - n) * (P * (ONE - 1)) <= D * ONE * ONE * P
    requires D * ONE * ONE * P <= (due * ONE + n * (ONE + 1)) * (P * (ONE + 1))
    ensures (due * ONE - n) * (ONE - 1) <= D * ONE * ONE <= (due * ONE + n * (ONE + 1)) * (ONE + 1)
  {
    var a, b, X := (due * ONE - n) * (ONE - 1), (due * ONE + n * (ONE + 1)) * (ONE + 1), D * ONE * ONE;
    assert (due * ONE - n) * (P * (ONE - 1)) == a * P;
    assert (due * ONE + n * (ONE + 1)) * (P * (ONE + 1)) == b * P;
    if a > X { MulLe(X + 1, a, P); }
    if X > b { MulLe(b + 1, X, P); }
  }

  /** The dues of one side are at most a small depth, and leave at most one unit a provider and one more. */
  lemma DuesNearDepth(D: nat, n: nat, due: nat)
    requires (due * ONE - n) * (ONE - 1) <= D * ONE * ONE <= (due * ONE + n * (ONE + 1)) * (ONE + 1)
    ensures D + n < ONE - 1 ==> due <= D <= due + n + 1
  {
  }

  lemma SideBounded(s: State, env: Env, who: Address, symbol: Symbol, order: seq<Address>, D: nat)
    requires Closable(s, env, who, symbol, order) && HaveUnits(s.lps, symbol, order)
    ensures var due := DueAll(s.lps, symbol, s.pools[symbol].units, D, order);
            D + |order| < ONE - 1 ==> due <= D && (s.pools[symbol].units > 0 ==> D <= due + |order| + 1)
  {
    hide DueAll, UnitsListed, Shareholders, UnitsOf, Surplus, Covers, HaveUnits;
    var P, n := s.pools[symbol].units, |order|;
    ClosableShares(s, env, who, symbol, order);
    var due := DueAll(s.lps, symbol, P, D, order);
    if P > 0 {
      DueAllBounds(s.lps, symbol, P, D, order, n, due, P);
      DuesBounded(D, P, n, due);
      DuesNearDepth(D, n, due);
    } else {
      NobodyOwed(s.lps, symbol, D, order);
    }
  }

  /** A pool without units has nobody with a share. */
  lemma NobodyOwed(lps: map<LpKey, Provider>, symbol: Symbol, D: nat, order: seq<Address>)
    requires Shareholders(lps, symbol, 0, order)
    ensures DueAll(lps, symbol, 0, D, order) == 0
  {
    hide Due;
  }

  /**
   A pool that owes margin nothing, and whose balances with one for each provider are below 10^18 - 1, is closed
   exactly when every provider has units, and then at most one unit a provider and one more is left of either
   side, unless it had no units at all.
   */
  lemma SmallPoolCloses(s: State, env: Env, who: Address, symbol: Symbol, order: seq<Address>)
    requires Closable(s, env, who, symbol, order)
    requires s.pools[symbol].nativeLiabilities == 0 == s.pools[symbol].externalLiabilities
    requires s.pools[symbol].native + |order| < ONE - 1 && s.pools[symbol].external + |order| < ONE - 1
    ensures Decommission(s, env, who, symbol, order).Ok? <==> HaveUnits(s.lps, symbol, order)
    ensures var rest := Leftover(s, env, symbol, order);
            HaveUnits(s.lps, symbol, order) && s.pools[symbol].units > 0 ==>
              rest.units == 0 && rest.native <= |order| + 1 && rest.external <= |order| + 1
  {
    hide Decommission, DueAll, Leftover, Closable, HaveUnits;
    assert symbol in s.pools by { ClosablePool(s, env, who, symbol, order); }
    ClosesExactly(s, env, who, symbol, order);
    if HaveUnits(s.lps, symbol, order) {
      SideBounded(s, env, who, symbol, order, s.pools[symbol].native);
      SideBounded(s, env, who, symbol, order, s.pools[symbol].external);
    }
  }

  lemma ClosablePool(s: State, env: Env, who: Address, symbol: Symbol, order: seq<Address>)
    requires Closable(s, env, who, symbol, order)
    ensures symbol in s.pools
  {
  }

  // ---------- Who is paid ----------

  /** What closing owes a provider of u units in a denomination. */
  function DueIn(pool: Pool, symbol: Symbol, u: nat, denom: Symbol): nat {
    if denom == NATIVE then Due(pool.units, pool.native + pool.nativeLiabilities, u)
    else if denom == symbol then Due(pool.units, pool.external + pool.externalLiabilities, u)
    else 0
  }

  lemma RefundPays(s: State, blocked: set<Address>, symbol: Symbol, pool: Pool, who: Address, left: Remaining, other: Address, denom: Symbol)
    requires symbol != NATIVE && left.units <= pool.units && Refund(s, blocked, symbol, pool, who, left).Ok?
    ensures var (t, rest) := Refund(s, blocked, symbol, pool, who, left).value;
            && LpKey(symbol, who) in s.lps && t.lps == s.lps - {LpKey(symbol, who)} && rest.units <= left.units
            && RateLimit.Gained(s, t, other, denom) == if other == who then DueIn(pool, symbol, s.lps[LpKey(symbol, who)].units, denom) else 0
  {
    hide FromBasisPoints, Due;
    var u := s.lps[LpKey(symbol, who)].units;
    if u == 0 {
      NothingClaimed(pool.units, pool.NativeDepth(), pool.ExternalDepth(), MAX_WBASIS);
    } else {
      FullPayout(pool.units, pool.NativeDepth(), pool.ExternalDepth(), u);
    }
    assert CoinKey(who, symbol) != CoinKey(who, NATIVE);
  }

  lemma {:induction false} RefundAllPays(s: State, blocked: set<Address>, symbol: Symbol, pool: Pool, order: seq<Address>, left: Remaining,
                                         who: Address, denom: Symbol)
    requires symbol != NATIVE && left.units <= pool.units && Distinct(order) && RefundAll(s, blocked, symbol, pool, order, left).Ok?
    ensures var t := RefundAll(s, blocked, symbol, pool, order, left).value.0;
            if who in order then
              LpKey(symbol, who) in s.lps && RateLimit.Gained(s, t, who, denom) == DueIn(pool, symbol, s.lps[LpKey(symbol, who)].units, denom)
            else RateLimit.Gained(s, t, who, denom) == 0
    decreases |order|
  {
    hide Refund, DueIn;
    if order != [] {
      RefundPays(s, blocked, symbol, pool, order[0], left, who, denom);
      var (s1, left1) := Refund(s, blocked, symbol, pool, order[0], left).value;
      forall i, j | 0 <= i < j < |order[1..]| ensures order[1..][i] != order[1..][j] { assert order[1..][j] == order[j + 1]; }
      RefundAllPays(s1, blocked, symbol, pool, order[1..], left1, who, denom);
      assert who in order <==> who == order[0] || who in order[1..];
      assert order[0] !in order[1..];
    }
  }

  /** Every provider of the pool gains exactly its dues in every denomination, and nobody else anything. */
  ghost predicate PaysDues(s: State, t: State, symbol: Symbol)
    requires symbol in s.pools
  {
    forall who, denom ::
      RateLimit.Gained(s, t, who, denom)
      == if LpKey(symbol, who) in s.lps then DueIn(s.pools[symbol], symbol, s.lps[LpKey(symbol, who)].units, denom) else 0
  }

  /** Closing pays the dues, each near its exact share by DueBounds, and only at an administrator's word and below the threshold. */
  lemma ClosingPaysDues(s: State, env: Env, admin: Address, symbol: Symbol, order: seq<Address>)
    requires WellFormed(s) && Lists(s, symbol, order) && Decommission(s, env, admin, symbol, order).Ok?
    ensures var t := Decommission(s, env, admin, symbol, order).value;
            && admin in env.admins && symbol in s.pools && s.pools[symbol].native < POOL_THRESHOLD
            && t.pools == s.pools - {symbol} && PaysDues(s, t, symbol)
  {
    hide RefundAll, DueIn;
    var pool := s.pools[symbol];
    var left := Remaining(pool.units, pool.native, pool.external);
    RefundAllDrops(s, env.blocked, symbol, pool, order, left);
    forall who, denom
      ensures RateLimit.Gained(s, Decommission(s, env, admin, symbol, order).value, who, denom)
           == if LpKey(symbol, who) in s.lps then DueIn(pool, symbol, s.lps[LpKey(symbol, who)].units, denom) else 0
    {
      RefundAllPays(s, env.blocked, symbol, pool, order, left, who, denom);
      if who in order {
        var i :| 0 <= i < |order| && order[i] == who;
      } else {
        assert LpKey(symbol, who) !in s.lps;
      }
    }
  }
}
