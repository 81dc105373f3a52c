/** Rounding to one decimal, ties to the even digit, as Python's `round(x, 1)` on exact numbers. */
module Rounding {

  function HalfEven(x: real): int {
    var f := x.Floor;
    var rest := x - f as real;
    if rest < 0.5 || (rest == 0.5 && f % 2 == 0) then f else f + 1
  }

  function Round1(x: real): real {
    HalfEven(10.0 * x) as real / 10.0
  }

  lemma HalfEvenError(x: real)
    ensures -0.5 <= HalfEven(x) as real - x <= 0.5
  {
  }

  lemma HalfEvenMonotone(x: real, y: real)
    requires x <= y
    ensures HalfEven(x) <= HalfEven(y)
  {
    HalfEvenError(x);
    HalfEvenError(y);
    assert x.Floor <= y.Floor;
  }

  lemma HalfEvenOfInt(n: int)
    ensures HalfEven(n as real) == n
  {
  }

  /** Rounding takes the nearest integer, and from the middle the even one. */
  lemma HalfEvenIsNearest(x: real, n: int)
    ensures -0.5 < x - n as real < 0.5 ==> HalfEven(x) == n
    ensures x == n as real + 0.5 ==> HalfEven(x) == if n % 2 == 0 then n else n + 1
  {
  }

  lemma NearestTenth(x: real, tenths: int)
    requires -0.05 < x - tenths as real / 10.0 < 0.05
    ensures Round1(x) == tenths as real / 10.0
  {
    HalfEvenIsNearest(10.0 * x, tenths);
  }

  /** A one-decimal rounding moves a number by at most five hundredths. */
  lemma Round1Error(x: real)
    ensures -0.05 <= Round1(x) - x <= 0.05
  {
    HalfEvenError(10.0 * x);
  }

  lemma Round1Monotone(x: real, y: real)
    requires x <= y
    ensures Round1(x) <= Round1(y)
  {
    HalfEvenMonotone(10.0 * x, 10.0 * y);
  }

  /** Percentages stay percentages. */
  lemma Round1Range(x: real)
    requires 0.0 <= x <= 100.0
    ensures 0.0 <= Round1(x) <= 100.0
  {
    HalfEvenOfInt(0);
    HalfEvenOfInt(1000);
    HalfEvenMonotone(0 as real, 10.0 * x);
    HalfEvenMonotone(10.0 * x, 1000 as real);
  }
}
