/**
  Credit amounts and their rounding.

  Every amount is a real number counted in units of 0.0001 credit, so that
  rounding "to four decimals" is rounding to a whole number. A whole amount is
  said to be on the grid. Amounts off the grid are ordinary values here: what
  the billing code does with them is part of what is proved.
 */
module Money {

  predicate OnGrid(x: real) {
    x == x.Floor as real
  }

  /** Rounding to the nearest whole unit, ties to the even neighbour. */
  function Round(x: real): (r: int)
    ensures -0.5 <= x - r as real <= 0.5
    ensures x - r as real == 0.5 || x - r as real == -0.5 ==> r % 2 == 0
  {
    var low := x.Floor;
    var rest := x - low as real;
    if rest < 0.5 || (rest == 0.5 && low % 2 == 0) then low else low + 1
  }

  function Min(x: real, y: real): real {
    if x <= y then x else y
  }

  function Max(x: real, y: real): real {
    if x <= y then y else x
  }

  /** The two clauses of Round's contract determine its result. */
  lemma {:induction false} RoundIsUnique(x: real, r: int)
    requires -0.5 <= x - r as real <= 0.5
    requires x - r as real == 0.5 || x - r as real == -0.5 ==> r % 2 == 0
    ensures Round(x) == r
  {
    assert -1 <= Round(x) - r <= 1;
  }

  lemma {:induction false} RoundWhole(k: int)
    ensures Round(k as real) == k && OnGrid(k as real)
  {
  }

  lemma {:induction false} RoundGrid(x: real)
    requires OnGrid(x)
    ensures Round(x) as real == x
  {
  }

  lemma {:induction false} GridSum(x: real, y: real)
    requires OnGrid(x) && OnGrid(y)
    ensures OnGrid(x + y) && OnGrid(x - y)
  {
    RoundWhole(x.Floor + y.Floor);
    RoundWhole(x.Floor - y.Floor);
  }

  lemma {:induction false} RoundMonotone(x: real, y: real)
    requires x <= y
    ensures Round(x) <= Round(y)
  {
  }

  /** Whole amounts can be moved out of a rounding when they are even. */
  lemma {:induction false} RoundShiftEven(x: real, k: int)
    requires k % 2 == 0
    ensures Round(x + k as real) == Round(x) + k
  {
    RoundIsUnique(x + k as real, Round(x) + k);
  }
}
