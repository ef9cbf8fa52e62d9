/**
 The two number types of the pool arithmetic: sdk.Dec, a fixed-point number held as an
 integer count of 10^-18, and big.Rat, an exact rational, held here as a `real`.
 */
module Decimal {

  const ONE: nat := 1_000_000_000_000_000_000

  /** A rate between zero and one: swap fees and distribution rates. */
  type Fraction = d: int | 0 <= d <= ONE

  /** Dec.chopPrecisionAndRound: divide by 10^18, rounding half to even. */
  function Round(n: nat): (q: nat)
    ensures 2 * n <= 2 * q * ONE + ONE && 2 * q * ONE <= 2 * n + ONE
  {
    var q, rem := n / ONE, n % ONE;
    if 2 * rem < ONE then q
    else if 2 * rem > ONE then q + 1
    else if q % 2 == 0 then q else q + 1
  }

  /** Dec.Mul on non-negative decimals. */
  function Mul(a: nat, b: nat): nat {
    Round(a * b)
  }

  /** Dec.Quo on non-negative decimals: scaled up twice, truncated, then rounded. */
  function Quo(a: nat, b: nat): nat
    requires b > 0
  {
    Round(a * ONE * ONE / b)
  }

  /** big.Rat's truncation towards zero. */
  function Trunc(r: real): int {
    if r >= 0.0 then r.Floor else -((-r).Floor)
  }

  function Abs(r: real): real {
    if r < 0.0 then -r else r
  }

  function DecToRat(d: int): real {
    d as real / ONE as real
  }

  /** Conversion to rationals respects products. */
  lemma {:induction false} RealMul(a: int, b: nat)
    ensures (a * b) as real == a as real * b as real
    decreases b
  {
    if b > 0 {
      RealMul(a, b - 1);
      assert a * b == a * (b - 1) + a;
      assert a as real * b as real == a as real * (b - 1) as real + a as real;
    }
  }

  /** Rounding to nearest is monotone and leaves whole numbers alone. */
  lemma RoundMonotone(m: nat, n: nat)
    requires m <= n
    ensures Round(m) <= Round(n)
  {
    if m / ONE == n / ONE {
      assert m % ONE <= n % ONE;
    }
  }

  /** Rounding goes to the nearest whole, and to the even one of two that are equally near. */
  lemma RoundNearestEven(n: nat, q: nat)
    ensures q == Round(n) <==>
              && 2 * n <= 2 * q * ONE + ONE && 2 * q * ONE <= 2 * n + ONE
              && (2 * n == 2 * q * ONE + ONE || 2 * q * ONE == 2 * n + ONE ==> q % 2 == 0)
  {
    var k := n / ONE;
    assert n == k * ONE + n % ONE;
    if 2 * n <= 2 * q * ONE + ONE && 2 * q * ONE <= 2 * n + ONE {
      assert q == k || q == k + 1;
    }
  }

  lemma RoundExact(n: nat)
    ensures Round(n * ONE) == n
  {
  }

  lemma RoundAtMost(n: nat, k: nat)
    requires n <= k * ONE
    ensures Round(n) <= k
  {
    RoundMonotone(n, k * ONE);
    RoundExact(k);
  }

  lemma RoundAtLeast(n: nat, k: nat)
    requires n >= k * ONE
    ensures Round(n) >= k
  {
    RoundMonotone(k * ONE, n);
    RoundExact(k);
  }

  lemma DivBounds(n: nat, b: nat)
    requires b > 0
    ensures n / b * b <= n < n / b * b + b
  {
  }

  lemma DivAtLeast(n: nat, b: nat, k: nat)
    requires b > 0 && k * b <= n
    ensures k <= n / b
  {
    DivBounds(n, b);
    if k >= n / b + 1 { MulLe(n / b + 1, k, b); }
  }

  lemma DivAtMost(n: nat, b: nat, k: nat)
    requires b > 0 && n <= k * b
    ensures n / b <= k
  {
    DivBounds(n, b);
    if n / b >= k + 1 { MulLe(k + 1, n / b, b); }
  }

  lemma MulLe(m: int, n: int, k: nat)
    requires m <= n
    ensures m * k <= n * k
  {
    assert (n - m) * k >= 0;
  }

  lemma QuoAtLeast(a: nat, b: nat, k: nat)
    requires b > 0 && k * b <= a * ONE
    ensures k <= Quo(a, b)
  {
    assert (k * ONE) * b == (k * b) * ONE;
    DivAtLeast(a * ONE * ONE, b, k * ONE);
    RoundAtLeast(a * ONE * ONE / b, k);
  }

  lemma QuoAtMost(a: nat, b: nat, k: nat)
    requires b > 0 && a * ONE <= k * b
    ensures Quo(a, b) <= k
  {
    assert (k * ONE) * b == (k * b) * ONE;
    DivAtMost(a * ONE * ONE, b, k * ONE);
    RoundAtMost(a * ONE * ONE / b, k);
  }

  /** Two integers no further apart than err. */
  predicate Near(a: int, b: int, err: int) {
    a <= b + err && b <= a + err
  }

  lemma NearScaled(a: int, b: int, e: int, k: nat)
    requires Near(a, b, e)
    ensures Near(a * k, b * k, e * k)
  {
    MulLe(a, b + e, k);
    MulLe(b, a + e, k);
    assert (b + e) * k == b * k + e * k && (a + e) * k == a * k + e * k;
  }

  lemma RoundNear(n: nat)
    ensures Near(Round(n) * ONE, n, ONE)
  {
  }

  /** Dec.Quo is off by at most one unit of its last decimal. */
  lemma QuoNear(a: nat, b: nat)
    requires b > 0
    ensures Near(Quo(a, b) * b, a * ONE, b)
  {
    var n := a * ONE * ONE / b;
    DivBounds(a * ONE * ONE, b);
    QuoNearLinear(a, b, n, n * b, Quo(a, b), Quo(a, b) * b);
  }

  lemma QuoNearLinear(a: nat, b: nat, n: nat, nb: int, q: nat, qb: int)
    requires b > 0 && nb == n * b && qb == q * b && q == Round(n)
    requires nb <= a * ONE * ONE < nb + b
    ensures Near(qb, a * ONE, b)
  {
    hide Round;
    MulLe(2 * n, 2 * q * ONE + ONE, b);
    MulLe(2 * q * ONE, 2 * n + ONE, b);
    assert (2 * q * ONE + ONE) * b == 2 * ONE * qb + ONE * b;
    assert 2 * q * ONE * b == 2 * ONE * qb;
    assert (2 * n + ONE) * b == 2 * nb + ONE * b;
  }

  function Square(n: int): int {
    n * n
  }

  lemma SquareOfDouble(h: int)
    ensures Square(2 * h) == 4 * Square(h) && Square(2 * h + 2) == 4 * Square(h + 1)
  {
  }

  /** big.Int.Sqrt: the floor of the square root. */
  function ISqrt(n: nat): (r: nat)
    ensures Square(r) <= n < Square(r + 1)
  {
    if n == 0 then 0
    else
      var h := ISqrt(n / 4);
      SquareOfDouble(h);
      if Square(2 * h + 1) <= n then 2 * h + 1 else 2 * h
  }
}
