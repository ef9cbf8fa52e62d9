/** Dec.Power: square-and-multiply over rounded products, and how far it is from the exact power. */
module Powers {
  import opened Decimal

  function SignedMul(a: int, b: int): int {
    var p := a * b;
    if p >= 0 then Round(p) else 0 - Round(0 - p)
  }

  /** The square-and-multiply loop of Dec.Power. */
  function PowerFrom(d: int, acc: int, i: nat): int
    decreases i
  {
    if i <= 1 then SignedMul(d, acc)
    else PowerFrom(SignedMul(d, d), if i % 2 != 0 then SignedMul(acc, d) else acc, i / 2)
  }

  function Power(d: int, n: nat): int {
    if n == 0 then ONE else PowerFrom(d, ONE, n)
  }

  function Exp(k: int, n: nat): int {
    if n == 0 then 1 else k * Exp(k, n - 1)
  }

  lemma SignedMulWhole(a: int, b: int)
    ensures SignedMul(a * ONE, b * ONE) == a * b * ONE
  {
    var p := a * b;
    assert a * ONE * (b * ONE) == p * ONE * ONE;
    if p >= 0 { RoundExact(p * ONE); } else { RoundExact(-p * ONE); }
  }

  lemma {:induction false} ExpSquare(k: int, n: nat)
    ensures Exp(k, 2 * n) == Exp(k * k, n)
  {
    if n > 0 {
      ExpSquare(k, n - 1);
      assert Exp(k, 2 * n) == k * (k * Exp(k, 2 * (n - 1)));
      assert k * (k * Exp(k, 2 * (n - 1))) == k * k * Exp(k, 2 * (n - 1));
    }
  }

  lemma ExpHalves(d: int, acc: int, i: nat)
    ensures i % 2 == 0 ==> acc * Exp(d, i) == acc * Exp(d * d, i / 2)
    ensures i % 2 == 1 ==> acc * Exp(d, i) == acc * d * Exp(d * d, i / 2)
  {
    ExpSquare(d, i / 2);
    var x := Exp(d * d, i / 2);
    if i % 2 == 1 {
      assert Exp(d, i) == d * Exp(d, 2 * (i / 2));
      assert acc * (d * x) == acc * d * x;
    }
  }

  lemma {:induction false} PowerFromWhole(d: int, acc: int, i: nat)
    requires i >= 1
    ensures PowerFrom(d * ONE, acc * ONE, i) == acc * Exp(d, i) * ONE
    decreases i
  {
    hide SignedMul;
    SignedMulWhole(d, acc);
    if i == 1 {
      assert Exp(d, 1) == d * Exp(d, 0) == d;
    } else {
      SignedMulWhole(d, d);
      SignedMulWhole(acc, d);
      ExpHalves(d, acc, i);
      PowerFromWhole(d * d, if i % 2 != 0 then acc * d else acc, i / 2);
    }
  }

  /** At a whole base no product needs rounding, and square-and-multiply is exponentiation. */
  lemma PowerOfWhole(k: int, n: nat)
    ensures Power(k * ONE, n) == Exp(k, n) * ONE
  {
    hide PowerFrom;
    if n > 0 {
      assert ONE == 1 * ONE;
      PowerFromWhole(k, 1, n);
    }
  }

  lemma SignedMulAtLeast(a: int, b: int)
    requires a >= ONE && b >= ONE
    ensures SignedMul(a, b) >= ONE
  {
    MulLe(ONE, b, a);
    MulLe(ONE, a, ONE);
    assert a * b >= ONE * ONE;
    RoundMonotone(ONE * ONE, a * b);
    RoundExact(ONE);
  }

  lemma {:induction false} PowerFromAtLeast(d: int, acc: int, i: nat)
    requires d >= ONE && acc >= ONE
    ensures PowerFrom(d, acc, i) >= ONE
    decreases i
  {
    hide SignedMul;
    SignedMulAtLeast(d, acc);
    SignedMulAtLeast(d, d);
    SignedMulAtLeast(acc, d);
    if i > 1 {
      PowerFromAtLeast(SignedMul(d, d), if i % 2 != 0 then SignedMul(acc, d) else acc, i / 2);
    }
  }

  lemma PowerAtLeastOne(d: int, n: nat)
    requires d >= ONE
    ensures Power(d, n) >= ONE
  {
    hide PowerFrom;
    PowerFromAtLeast(d, ONE, n);
  }

  // ---------- Exact powers ----------

  function RealExp(r: real, n: nat): real {
    if n == 0 then 1.0 else r * RealExp(r, n - 1)
  }

  lemma RealMulLe(a: real, b: real, k: real)
    requires a <= b && k >= 0.0
    ensures a * k <= b * k
  {
    assert (b - a) * k >= 0.0;
  }

  lemma {:induction false} RealExpNonNegative(r: real, n: nat)
    requires r >= 0.0
    ensures RealExp(r, n) >= 0.0
  {
    if n > 0 {
      RealExpNonNegative(r, n - 1);
      RealMulLe(0.0, r, RealExp(r, n - 1));
    }
  }

  lemma {:induction false} RealExpMonotone(a: real, b: real, n: nat)
    requires 0.0 <= a <= b
    ensures RealExp(a, n) <= RealExp(b, n)
  {
    if n > 0 {
      RealExpMonotone(a, b, n - 1);
      RealExpNonNegative(a, n - 1);
      RealMulLe(a, b, RealExp(a, n - 1));
      RealMulLe(RealExp(a, n - 1), RealExp(b, n - 1), b);
    }
  }

  lemma {:induction false} RealExpProduct(a: real, b: real, n: nat)
    ensures RealExp(a * b, n) == RealExp(a, n) * RealExp(b, n)
  {
    if n > 0 {
      RealExpProduct(a, b, n - 1);
      var x, y := RealExp(a, n - 1), RealExp(b, n - 1);
      assert a * b * (x * y) == a * x * (b * y);
    }
  }

  lemma {:induction false} RealExpSum(r: real, m: nat, n: nat)
    ensures RealExp(r, m + n) == RealExp(r, m) * RealExp(r, n)
  {
    if m > 0 {
      RealExpSum(r, m - 1, n);
      var x, y := RealExp(r, m - 1), RealExp(r, n);
      assert r * (x * y) == r * x * y;
    }
  }

  /** Exponents of a number above one grow, of one below one shrink. */
  lemma {:induction false} RealExpLonger(r: real, m: nat, n: nat)
    requires r >= 0.0 && m <= n
    ensures r >= 1.0 ==> RealExp(r, m) <= RealExp(r, n)
    ensures r <= 1.0 ==> RealExp(r, n) <= RealExp(r, m)
    decreases n
  {
    if m < n {
      RealExpLonger(r, m, n - 1);
      RealExpNonNegative(r, n - 1);
      if r >= 1.0 { RealMulLe(1.0, r, RealExp(r, n - 1)); } else { RealMulLe(r, 1.0, RealExp(r, n - 1)); }
    }
  }

  // ---------- Rates of one or more: a relative error ----------

  /** Half a unit of the last decimal: what one rounding can move a number of one or more, relative to it. */
  const HALF: real := 0.5 / ONE as real

  /** The least and the most that k roundings can make of one. */
  function Least(k: nat): real {
    RealExp(1.0 - HALF, k)
  }

  function Most(k: nat): real {
    RealExp(1.0 + HALF, k)
  }

  /** Between the exact value times (1 - HALF)^k and times (1 + HALF)^k. */
  ghost predicate Within(x: real, exact: real, k: nat) {
    exact * Least(k) <= x <= exact * Most(k)
  }

  lemma HalfRange()
    ensures 0.0 < HALF < 1.0 && HALF * ONE as real == 0.5
  {
  }

  /** The rounding of a product, as reals. */
  lemma RoundNearReal(p: nat)
    ensures var m, e := Round(p), ONE as real;
            2.0 * p as real <= 2.0 * (m as real * e) + e && 2.0 * (m as real * e) <= 2.0 * p as real + e
  {
    hide Round;
    var m := Round(p);
    RealMul(m, ONE);
    assert 2 * p <= 2 * (m * ONE) + ONE && 2 * (m * ONE) <= 2 * p + ONE;
  }

  lemma SignedMulNear(a: int, b: int)
    requires a >= ONE && b >= ONE
    ensures var exact := DecToRat(a) * DecToRat(b);
            exact >= 1.0 && exact - HALF <= DecToRat(SignedMul(a, b)) <= exact + HALF
  {
    hide Round, HALF;
    var p := a * b;
    MulLe(ONE, b, a);
    MulLe(ONE, a, ONE);
    RealMul(a, b);
    RealMul(ONE, ONE);
    RoundNearReal(p);
    ScaledDown(p as real, Round(p) as real, ONE as real, a as real, b as real);
  }

  lemma ScaledDown(p: real, m: real, e: real, a: real, b: real)
    requires e == ONE as real && p == a * b && p >= e * e
    requires 2.0 * p <= 2.0 * (m * e) + e && 2.0 * (m * e) <= 2.0 * p + e
    ensures var exact := a / e * (b / e); exact >= 1.0 && exact - HALF <= m / e <= exact + HALF
  {
    assert a / e * (b / e) == p / (e * e);
    assert m / e == m * e / (e * e);
    assert HALF == 0.5 * e / (e * e);
  }

  lemma StepWithin(a: int, b: int, exact: real)
    requires a >= ONE && b >= ONE && exact == DecToRat(a) * DecToRat(b)
    ensures Within(DecToRat(SignedMul(a, b)), exact, 1)
  {
    hide SignedMul, DecToRat;
    HalfRange();
    SignedMulNear(a, b);
    assert Least(1) == (1.0 - HALF) * RealExp(1.0 - HALF, 0) == 1.0 - HALF;
    assert Most(1) == (1.0 + HALF) * RealExp(1.0 + HALF, 0) == 1.0 + HALF;
    RealMulLe(1.0, exact, HALF);
    assert exact * (1.0 - HALF) == exact - exact * HALF && exact * (1.0 + HALF) == exact + exact * HALF;
  }

  lemma FactorsNonNegative(k: nat)
    ensures 0.0 <= Least(k) && 0.0 <= Most(k)
  {
    HalfRange();
    RealExpNonNegative(1.0 - HALF, k);
    RealExpNonNegative(1.0 + HALF, k);
  }

  lemma FactorsMultiply(j: nat, k: nat)
    ensures Least(j + k) == Least(j) * Least(k) && Most(j + k) == Most(j) * Most(k)
  {
    RealExpSum(1.0 - HALF, j, k);
    RealExpSum(1.0 + HALF, j, k);
  }

  lemma FactorsSpread(j: nat, k: nat)
    requires j <= k
    ensures Least(k) <= Least(j) && Most(j) <= Most(k)
  {
    HalfRange();
    RealExpLonger(1.0 - HALF, j, k);
    RealExpLonger(1.0 + HALF, j, k);
  }

  lemma Product4(a: real, b: real, c: real, d: real)
    ensures a * b * (c * d) == a * c * (b * d)
  {
  }

  lemma BothLe(a: real, x: real, b: real, y: real)
    requires 0.0 <= a <= x && 0.0 <= b <= y
    ensures 0.0 <= a * b <= x * y
  {
    RealMulLe(a, x, b);
    RealMulLe(b, y, x);
    RealMulLe(0.0, a, b);
  }

  lemma WithinNonNegative(x: real, exact: real, k: nat)
    requires Within(x, exact, k) && exact >= 0.0
    ensures 0.0 <= exact * Least(k) <= x
  {
    hide Least, Most;
    FactorsNonNegative(k);
    RealMulLe(0.0, exact, Least(k));
  }

  lemma WithinProduct(x: real, ex: real, j: nat, y: real, ey: real, k: nat, xy: real, exact: real, m: nat)
    requires Within(x, ex, j) && Within(y, ey, k) && ex >= 0.0 && ey >= 0.0
    requires xy == x * y && exact == ex * ey && m == j + k
    ensures Within(xy, exact, m)
  {
    hide Least, Most;
    WithinNonNegative(x, ex, j);
    WithinNonNegative(y, ey, k);
    FactorsMultiply(j, k);
    BothLe(ex * Least(j), x, ey * Least(k), y);
    BothLe(x, ex * Most(j), y, ey * Most(k));
    Product4(ex, Least(j), ey, Least(k));
    Product4(ex, Most(j), ey, Most(k));
  }

  lemma WithinSelf(x: real)
    ensures Within(x, x, 0)
  {
  }

  lemma {:induction false} WithinExp(x: real, ex: real, n: nat)
    requires Within(x, ex, 1) && ex >= 0.0
    ensures Within(RealExp(x, n), RealExp(ex, n), n)
  {
    hide Within, Least, Most;
    if n > 0 {
      WithinExp(x, ex, n - 1);
      RealExpNonNegative(ex, n - 1);
      WithinProduct(x, ex, 1, RealExp(x, n - 1), RealExp(ex, n - 1), n - 1, RealExp(x, n), RealExp(ex, n), n);
    } else {
      WithinSelf(RealExp(x, n));
    }
  }

  lemma WithinChain(x: real, y: real, j: nat, z: real, k: nat, m: nat)
    requires Within(x, y, j) && Within(y, z, k) && z >= 0.0 && m == j + k
    ensures Within(x, z, m)
  {
    hide Least, Most;
    FactorsNonNegative(j);
    FactorsMultiply(j, k);
    RealMulLe(z * Least(k), y, Least(j));
    RealMulLe(y, z * Most(k), Most(j));
    Associate(z, Least(k), Least(j));
    Associate(z, Most(k), Most(j));
  }

  lemma Associate(a: real, b: real, c: real)
    ensures a * b * c == a * (c * b)
  {
  }

  lemma WithinLonger(x: real, exact: real, j: nat, k: nat)
    requires Within(x, exact, j) && exact >= 0.0 && j <= k
    ensures Within(x, exact, k)
  {
    hide Least, Most;
    FactorsSpread(j, k);
    RealMulLe(Least(k), Least(j), exact);
    RealMulLe(Most(j), Most(k), exact);
  }

  /** acc d^i, split as the loop splits it: acc d^(i mod 2) times (d^2)^(i / 2). */
  lemma SplitPower(acc: real, d: real, i: nat)
    ensures (if i % 2 == 1 then acc * d else acc) * RealExp(d * d, i / 2) == acc * RealExp(d, i)
  {
    var j := i / 2;
    RealExpProduct(d, d, j);
    RealExpSum(d, j, j);
    if i % 2 == 1 {
      assert i == 1 + (j + j);
      assert RealExp(d, i) == d * RealExp(d, j + j);
      Associate(acc, d, RealExp(d, j + j));
    }
  }

  lemma DecAtLeastOne(d: int)
    requires d >= ONE
    ensures DecToRat(d) >= 1.0
  {
  }

  lemma AccumulatorWithin(d: int, acc: int, i: nat, next: int, exact: real)
    requires d >= ONE && acc >= ONE && next == if i % 2 != 0 then SignedMul(acc, d) else acc
    requires exact == if i % 2 == 1 then DecToRat(acc) * DecToRat(d) else DecToRat(acc)
    ensures next >= ONE && exact >= 0.0 && Within(DecToRat(next), exact, 1)
  {
    hide SignedMul, DecToRat, Within;
    DecAtLeastOne(acc);
    DecAtLeastOne(d);
    if i % 2 != 0 {
      SignedMulAtLeast(acc, d);
      StepWithin(acc, d, exact);
      BothLe(0.0, DecToRat(acc), 0.0, DecToRat(d));
    } else {
      WithinSelf(DecToRat(acc));
      WithinLonger(DecToRat(acc), exact, 0, 1);
    }
  }

  /** One turn of the loop adds i / 2 + 1 roundings. */
  lemma TurnWithin(d: int, acc: int, i: nat, square: int, next: int, before: real, after: real)
    requires d >= ONE && acc >= ONE && square == SignedMul(d, d) && next == if i % 2 != 0 then SignedMul(acc, d) else acc
    requires before == DecToRat(next) * RealExp(DecToRat(square), i / 2) && after == DecToRat(acc) * RealExp(DecToRat(d), i)
    ensures square >= ONE && next >= ONE && Within(before, after, 1 + i / 2)
  {
    hide SignedMul, DecToRat, Within, RealExp;
    var D, A, j := DecToRat(d), DecToRat(acc), i / 2;
    var A1, DD := if i % 2 == 1 then A * D else A, D * D;
    DecAtLeastOne(d);
    AccumulatorWithin(d, acc, i, next, A1);
    StepWithin(d, d, DD);
    SignedMulAtLeast(d, d);
    BothLe(0.0, D, 0.0, D);
    WithinExp(DecToRat(square), DD, j);
    RealExpNonNegative(DD, j);
    SplitPower(A, D, i);
    WithinProduct(DecToRat(next), A1, 1, RealExp(DecToRat(square), j), RealExp(DD, j), j, before, after, 1 + j);
  }

  lemma ExactNonNegative(d: int, acc: int, i: nat)
    requires d >= 0 && acc >= 0
    ensures DecToRat(acc) * RealExp(DecToRat(d), i) >= 0.0
  {
    RealExpNonNegative(DecToRat(d), i);
    BothLe(0.0, DecToRat(acc), 0.0, RealExp(DecToRat(d), i));
  }

  /** At most 2i roundings separate the loop from acc d^i. */
  lemma {:induction false} PowerFromWithin(d: int, acc: int, i: nat, exact: real)
    requires d >= ONE && acc >= ONE && i >= 1 && exact == DecToRat(acc) * RealExp(DecToRat(d), i)
    ensures Within(DecToRat(PowerFrom(d, acc, i)), exact, 2 * i)
    decreases i
  {
    hide SignedMul, DecToRat, Within, RealExp;
    ExactNonNegative(d, acc, i);
    if i == 1 {
      OneFactor(DecToRat(acc), DecToRat(d));
      StepWithin(d, acc, exact);
      WithinLonger(DecToRat(SignedMul(d, acc)), exact, 1, 2 * i);
    } else {
      var j := i / 2;
      var next, square := if i % 2 != 0 then SignedMul(acc, d) else acc, SignedMul(d, d);
      var before := DecToRat(next) * RealExp(DecToRat(square), j);
      TurnWithin(d, acc, i, square, next, before, exact);
      PowerFromWithin(square, next, j, before);
      var x := DecToRat(PowerFrom(square, next, j));
      WithinChain(x, before, 2 * j, exact, 1 + j, 3 * j + 1);
      WithinLonger(x, exact, 3 * j + 1, 2 * i);
    }
  }

  lemma OneFactor(a: real, d: real)
    ensures a * RealExp(d, 1) == d * a
  {
    assert RealExp(d, 1) == d * RealExp(d, 0);
  }

  /** The power of a rate of one or more is the exact power, up to a relative error of 2n half units of the last decimal. */
  lemma PowerWithin(d: int, n: nat)
    requires d >= ONE
    ensures Within(DecToRat(Power(d, n)), RealExp(DecToRat(d), n), 2 * n)
  {
    hide PowerFrom;
    assert DecToRat(ONE) == 1.0;
    if n > 0 { PowerFromWithin(d, ONE, n, RealExp(DecToRat(d), n)); }
  }

  // ---------- Rates of at most one: an absolute error ----------

  /** No further than k half units of the last decimal from the exact value. */
  ghost predicate Close(x: real, exact: real, k: nat) {
    exact - k as real * HALF <= x <= exact + k as real * HALF
  }

  predicate Unit(r: real) {
    0.0 <= r <= 1.0
  }

  lemma SignedMulUnit(a: int, b: int)
    requires 0 <= a <= ONE && 0 <= b <= ONE
    ensures a * b >= 0 && 0 <= SignedMul(a, b) <= ONE
  {
    hide Round;
    MulLe(0, a, b);
    MulLe(a, ONE, b);
    MulLe(b, ONE, ONE);
    RoundAtMost(a * b, ONE);
  }

  lemma SignedMulClose(a: int, b: int, exact: real)
    requires 0 <= a <= ONE && 0 <= b <= ONE && exact == DecToRat(a) * DecToRat(b)
    ensures 0 <= SignedMul(a, b) <= ONE && Close(DecToRat(SignedMul(a, b)), exact, 1)
  {
    hide Round, HALF;
    SignedMulUnit(a, b);
    RealMul(a, b);
    RoundNearReal(a * b);
    ScaledClose((a * b) as real, Round(a * b) as real, ONE as real, a as real, b as real);
  }

  lemma ScaledClose(p: real, m: real, e: real, a: real, b: real)
    requires e == ONE as real && p == a * b
    requires 2.0 * p <= 2.0 * (m * e) + e && 2.0 * (m * e) <= 2.0 * p + e
    ensures var exact := a / e * (b / e); exact - HALF <= m / e <= exact + HALF
  {
    assert a / e * (b / e) == p / (e * e);
    assert m / e == m * e / (e * e);
    assert HALF == 0.5 * e / (e * e);
  }

  lemma {:induction false} RealExpUnit(r: real, n: nat)
    requires Unit(r)
    ensures Unit(RealExp(r, n))
  {
    if n > 0 {
      RealExpUnit(r, n - 1);
      BothLe(0.0, r, 0.0, RealExp(r, n - 1));
      BothLe(r, 1.0, RealExp(r, n - 1), 1.0);
    }
  }

  /** Products of numbers of at most one move by no more than their factors do. */
  lemma CloseProduct(x: real, ex: real, j: nat, y: real, ey: real, k: nat, xy: real, exact: real, m: nat)
    requires Close(x, ex, j) && Close(y, ey, k) && Unit(x) && Unit(ey)
    requires xy == x * y && exact == ex * ey && m == j + k
    ensures Close(xy, exact, m)
  {
    hide HALF;
    HalfRange();
    var e, f := j as real * HALF, k as real * HALF;
    assert e >= 0.0 && f >= 0.0 && m as real * HALF == e + f;
    MovesLess(x, y - ey, f);
    MovesLess(ey, x - ex, e);
    Difference(x, y, ex, ey);
  }

  lemma Difference(x: real, y: real, ex: real, ey: real)
    ensures x * y - ex * ey == x * (y - ey) + ey * (x - ex)
  {
  }

  lemma MovesLess(u: real, d: real, e: real)
    requires Unit(u) && -e <= d <= e
    ensures -e <= u * d <= e
  {
    var back := 0.0 - d;
    MovesUp(u, d, e);
    MovesUp(u, back, e);
    assert u * d + u * back == u * (d + back);
  }

  lemma MovesUp(u: real, d: real, e: real)
    requires Unit(u) && d <= e && e >= 0.0
    ensures u * d <= e
  {
    RealMulLe(d, e, u);
    Shrinks(u, e);
  }

  lemma Shrinks(u: real, e: real)
    requires Unit(u) && e >= 0.0
    ensures e * u <= e
  {
    RealMulLe(u, 1.0, e);
    assert u * e == e * u;
  }

  lemma {:induction false} CloseExp(x: real, ex: real, n: nat)
    requires Close(x, ex, 1) && Unit(x) && Unit(ex)
    ensures Close(RealExp(x, n), RealExp(ex, n), n)
  {
    if n > 0 {
      CloseExp(x, ex, n - 1);
      RealExpUnit(ex, n - 1);
      CloseProduct(x, ex, 1, RealExp(x, n - 1), RealExp(ex, n - 1), n - 1, RealExp(x, n), RealExp(ex, n), n);
    }
  }

  lemma CloseChain(x: real, y: real, j: nat, z: real, k: nat, m: nat)
    requires Close(x, y, j) && Close(y, z, k) && m >= j + k
    ensures Close(x, z, m)
  {
    hide HALF;
    HalfRange();
    RealMulLe(j as real + k as real, m as real, HALF);
    assert (j as real + k as real) * HALF == j as real * HALF + k as real * HALF;
  }

  lemma CloseLonger(x: real, exact: real, j: nat, k: nat)
    requires Close(x, exact, j) && j <= k
    ensures Close(x, exact, k)
  {
    HalfRange();
    RealMulLe(j as real, k as real, HALF);
  }

  lemma DecUnit(d: int)
    requires 0 <= d <= ONE
    ensures Unit(DecToRat(d))
  {
  }

  lemma AccumulatorClose(d: int, acc: int, i: nat, next: int, exact: real)
    requires 0 <= d <= ONE && 0 <= acc <= ONE && next == if i % 2 != 0 then SignedMul(acc, d) else acc
    requires exact == if i % 2 == 1 then DecToRat(acc) * DecToRat(d) else DecToRat(acc)
    ensures 0 <= next <= ONE && Close(DecToRat(next), exact, 1)
  {
    hide SignedMul, DecToRat, HALF;
    if i % 2 != 0 {
      SignedMulClose(acc, d, exact);
    } else {
      HalfRange();
    }
  }

  lemma TurnClose(d: int, acc: int, i: nat, square: int, next: int, before: real, after: real)
    requires 0 <= d <= ONE && 0 <= acc <= ONE && square == SignedMul(d, d) && next == if i % 2 != 0 then SignedMul(acc, d) else acc
    requires before == DecToRat(next) * RealExp(DecToRat(square), i / 2) && after == DecToRat(acc) * RealExp(DecToRat(d), i)
    ensures 0 <= square <= ONE && 0 <= next <= ONE && Close(before, after, 1 + i / 2)
  {
    hide SignedMul, DecToRat, Close, RealExp;
    var D, A, j := DecToRat(d), DecToRat(acc), i / 2;
    var A1, DD := if i % 2 == 1 then A * D else A, D * D;
    AccumulatorClose(d, acc, i, next, A1);
    SignedMulClose(d, d, DD);
    DecUnit(d);
    DecUnit(next);
    DecUnit(square);
    BothLe(0.0, D, 0.0, D);
    BothLe(D, 1.0, D, 1.0);
    CloseExp(DecToRat(square), DD, j);
    RealExpUnit(DD, j);
    SplitPower(A, D, i);
    CloseProduct(DecToRat(next), A1, 1, RealExp(DecToRat(square), j), RealExp(DD, j), j, before, after, 1 + j);
  }

  lemma {:induction false} PowerFromClose(d: int, acc: int, i: nat, exact: real)
    requires 0 <= d <= ONE && 0 <= acc <= ONE && i >= 1 && exact == DecToRat(acc) * RealExp(DecToRat(d), i)
    ensures Close(DecToRat(PowerFrom(d, acc, i)), exact, 2 * i)
    decreases i
  {
    hide SignedMul, DecToRat, Close, RealExp;
    if i == 1 {
      OneFactor(DecToRat(acc), DecToRat(d));
      SignedMulClose(d, acc, exact);
      CloseLonger(DecToRat(SignedMul(d, acc)), exact, 1, 2 * i);
    } else {
      var j := i / 2;
      var next, square := if i % 2 != 0 then SignedMul(acc, d) else acc, SignedMul(d, d);
      var before := DecToRat(next) * RealExp(DecToRat(square), j);
      TurnClose(d, acc, i, square, next, before, exact);
      PowerFromClose(square, next, j, before);
      CloseChain(DecToRat(PowerFrom(square, next, j)), before, 2 * j, exact, 1 + j, 2 * i);
    }
  }

  /** The power of a rate between zero and one is the exact power, up to an absolute error of 2n half units of the last decimal. */
  lemma PowerClose(d: int, n: nat)
    requires 0 <= d <= ONE
    ensures Close(DecToRat(Power(d, n)), RealExp(DecToRat(d), n), 2 * n)
  {
    hide PowerFrom;
    assert DecToRat(ONE) == 1.0;
    if n > 0 { PowerFromClose(d, ONE, n, RealExp(DecToRat(d), n)); }
  }
}
