/** CosmWasm's `Uint128` and 18-digit `Decimal`.

    Amounts are naturals; a `Decimal` is the natural number of its 10^-18 units. Every
    operation that the 128-bit types check is checked here, and rounds down as they do. */
module FixedPoint {
  import opened Results

  /** The number of decimal units in 1. */
  const ONE: nat := 1_000_000_000_000_000_000

  const U128_MAX: nat := 0xffff_ffff_ffff_ffff_ffff_ffff_ffff_ffff

  function Add(a: nat, b: nat): Result<nat> {
    if a + b <= U128_MAX then Ok(a + b) else Err(Overflow)
  }

  function Sub(a: nat, b: nat): Result<nat> {
    if b <= a then Ok(a - b) else Err(Underflow)
  }

  /** `Uint128::multiply_ratio`: one floor, computed without intermediate overflow. */
  function MulRatio(x: nat, numerator: nat, denominator: nat): Result<nat> {
    if denominator == 0 then Err(DivideByZero)
    else
      var q := x * numerator / denominator;
      if q <= U128_MAX then Ok(q) else Err(Overflow)
  }

  /** `Decimal::from_ratio`. */
  function FromRatio(numerator: nat, denominator: nat): Result<nat> {
    MulRatio(numerator, ONE, denominator)
  }

  /** `Uint128 * Decimal`. */
  function MulDecimal(x: nat, d: nat): Result<nat> {
    MulRatio(x, d, ONE)
  }

  /** The ratio is rounded down, and only division by zero and overflow fail. */
  lemma RatioIsFloor(x: nat, numerator: nat, denominator: nat, q: nat)
    requires 0 < denominator ==> q * denominator <= x * numerator < (q + 1) * denominator
    ensures MulRatio(x, numerator, denominator)
         == if denominator == 0 then Err(DivideByZero) else if U128_MAX < q then Err(Overflow) else Ok(q)
  {
    if 0 < denominator {
      DivAtLeast(x * numerator, denominator, q);
      DivAtMost(x * numerator, denominator, q);
    }
  }

  // ----- Facts about floor division. -----

  lemma MulMono(a: nat, b: nat, c: nat)
    requires a <= b
    ensures a * c <= b * c
  {}

  lemma IntMulMono(a: int, b: int, c: nat)
    requires a <= b
    ensures c * a <= c * b
  {}

  lemma StrictMul(a: nat, b: nat, c: nat)
    requires 0 < a && b < c
    ensures a * b < a * c
  {}

  lemma Cancel(m: int, n: int, x: nat)
    requires 0 < x && m * x <= n * x
    ensures m <= n
  {
    var d := m - n - 1;
    assert m * x == n * x + x + d * x;
    if n < m {
      assert false;
    }
  }

  /** The quotient brackets the dividend. */
  lemma DivBounds(n: nat, d: nat)
    requires d > 0
    ensures n / d * d <= n < (n / d + 1) * d
  {
    assert n == n / d * d + n % d;
  }

  lemma DivAtLeast(n: nat, d: nat, q: nat)
    requires d > 0 && q * d <= n
    ensures q <= n / d
  {
    DivBounds(n, d);
    if n / d < q {
      MulMono(n / d + 1, q, d);
      assert false;
    }
  }

  lemma DivAtMost(n: nat, d: nat, q: nat)
    requires d > 0 && n < (q + 1) * d
    ensures n / d <= q
  {
    DivBounds(n, d);
    if n / d > q {
      MulMono(q + 1, n / d, d);
      assert false;
    }
  }

  lemma DivAtMostExact(n: nat, d: nat, q: nat)
    requires d > 0 && n <= q * d
    ensures n / d <= q
  {
    assert (q + 1) * d == q * d + d;
    DivAtMost(n, d, q);
  }

  lemma DivMono(m: nat, n: nat, d: nat)
    requires d > 0 && m <= n
    ensures m / d <= n / d
  {
    var q := m / d;
    assert q * d <= n by { DivBounds(m, d); }
    DivAtLeast(n, d, q);
  }

  lemma DivAntitone(n: nat, d: nat, e: nat)
    requires 0 < d <= e
    ensures n / e <= n / d
  {
    var q := n / e;
    assert q * d <= n by {
      DivBounds(n, e);
      MulMono(d, e, q);
    }
    DivAtLeast(n, d, q);
  }

  /** Adding `k` whole divisors to the dividend adds `k` to the quotient. */
  lemma DivShift(n: nat, d: nat, k: nat)
    requires d > 0
    ensures (n + k * d) / d == n / d + k
  {
    var q := n / d;
    DivBounds(n, d);
    assert (q + k) * d == q * d + k * d;
    assert (q + k + 1) * d == (q + 1) * d + k * d;
    DivAtLeast(n + k * d, d, q + k);
    DivAtMost(n + k * d, d, q + k);
  }

  /** A fraction `f / d` of at most one takes no more than all of `x`. */
  lemma FractionAtMost(x: nat, f: nat, d: nat)
    requires d > 0 && f <= d
    ensures x * f / d <= x
  {
    assert x * f < (x + 1) * d by { MulMono(f, d, x); }
    DivAtMost(x * f, d, x);
  }

  /** Such a fraction grows with `x`, and by no more than `x` grows. */
  lemma FractionStep(x: nat, k: nat, f: nat, d: nat)
    requires d > 0 && f <= d
    ensures x * f / d <= (x + k) * f / d <= x * f / d + k
  {
    var m := x * f;
    var n := (x + k) * f;
    assert n == m + k * f;
    assert n <= m + k * d by { MulMono(f, d, k); }
    DivMono(m, n, d);
    DivMono(n, m + k * d, d);
    DivShift(m, d, k);
  }
}
