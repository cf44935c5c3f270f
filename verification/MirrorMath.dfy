/** Mirror's own decimal arithmetic: decimals cut to nine digits before they are divided. */
module MirrorMath {
  import opened Results
  import opened FixedPoint

  const NINE: nat := 1_000_000_000

  function ReverseDecimal(d: nat): Result<nat> {
    var nine :- MulDecimal(NINE, d);
    FromRatio(NINE, nine)
  }

  function DecimalDivision(a: nat, b: nat): Result<nat> {
    var nineA :- MulDecimal(NINE, a);
    var nineB :- MulDecimal(NINE, b);
    FromRatio(nineA, nineB)
  }

  function DecimalMultiplication(a: nat, b: nat): Result<nat> {
    var nineA :- MulDecimal(NINE, a);
    var product :- MulDecimal(nineA, b);
    FromRatio(product, NINE)
  }

  lemma NineDigits(d: nat)
    ensures NINE * d / ONE == d / NINE
    ensures d / NINE * NINE <= d < d / NINE * NINE + NINE
  {
    DivBounds(d, NINE);
    var q := d / NINE;
    DivAtLeast(NINE * d, ONE, q);
    DivAtMost(NINE * d, ONE, q);
  }

  /** A reversed decimal is the reciprocal of one that differs from `d` in the last nine
      digits at most, rounded down. */
  lemma ReverseError(d: nat)
    requires ReverseDecimal(d).Ok?
    ensures var r := ReverseDecimal(d).value;
            && 0 < d / NINE
            && r * (d / NINE) <= NINE * ONE < (r + 1) * (d / NINE)
            && r * (d - (NINE - 1)) <= ONE * ONE < (r + 1) * d
  {
    NineDigits(d);
    var nine := d / NINE;
    var r := ReverseDecimal(d).value;
    DivBounds(NINE * ONE, nine);
    ReverseBounds(d, nine, r);
  }

  lemma ReverseBounds(d: nat, nine: nat, r: nat)
    requires nine * NINE <= d < nine * NINE + NINE
    requires r * nine <= NINE * ONE < (r + 1) * nine
    ensures r * (d - (NINE - 1)) <= ONE * ONE < (r + 1) * d
  {
    IntMulMono(d - (NINE - 1), nine * NINE, r);
    assert r * (nine * NINE) == r * nine * NINE;
    MulMono(nine * NINE, d, r + 1);
    assert (r + 1) * (nine * NINE) == (r + 1) * nine * NINE;
  }

  /** A quotient loses at most the last nine digits of each operand and one unit. */
  lemma DivisionError(a: nat, b: nat)
    requires DecimalDivision(a, b).Ok?
    ensures var q := DecimalDivision(a, b).value;
            && 0 < b / NINE
            && q * (b / NINE) <= a / NINE * ONE < (q + 1) * (b / NINE)
            && q * (b - (NINE - 1)) <= a * ONE
            && (a - (NINE - 1)) * ONE < (q + 1) * b
  {
    NineDigits(a);
    NineDigits(b);
    var q := DecimalDivision(a, b).value;
    DivBounds(a / NINE * ONE, b / NINE);
    DivisionBounds(a, b, a / NINE, b / NINE, q);
  }

  lemma DivisionBounds(a: nat, b: nat, nineA: nat, nineB: nat, q: nat)
    requires nineA * NINE <= a < nineA * NINE + NINE && nineB * NINE <= b < nineB * NINE + NINE
    requires q * nineB <= nineA * ONE < (q + 1) * nineB
    ensures q * (b - (NINE - 1)) <= a * ONE && (a - (NINE - 1)) * ONE < (q + 1) * b
  {
    IntMulMono(b - (NINE - 1), nineB * NINE, q);
    assert q * (nineB * NINE) == q * nineB * NINE;
    MulMono(nineB * NINE, b, q + 1);
    assert (q + 1) * (nineB * NINE) == (q + 1) * nineB * NINE;
  }

  /** A product is never above the exact one, and below it by less than a unit in the ninth
      digit on the left operand and one on the result. */
  lemma MultiplicationError(a: nat, b: nat)
    requires DecimalMultiplication(a, b).Ok?
    ensures var m := DecimalMultiplication(a, b).value;
            && m == a / NINE * b / ONE * NINE
            && m * ONE <= a * b < (m + NINE) * ONE + NINE * b
  {
    NineDigits(a);
    var nine := a / NINE;
    var p := nine * b / ONE;
    var m := DecimalMultiplication(a, b).value;
    assert p * ONE == p * NINE * NINE;
    DivAtLeast(p * ONE, NINE, p * NINE);
    DivAtMost(p * ONE, NINE, p * NINE);
    DivBounds(nine * b, ONE);
    MulMono(nine * NINE, a, b);
    MulMono(a, nine * NINE + NINE, b);
    assert nine * NINE * b == nine * b * NINE;
    assert (nine * NINE + NINE) * b == nine * b * NINE + NINE * b;
  }
}
