/** Python's built-in `round()` with no digits argument, on exact reals.
    Python rounds a float to the nearest integer and breaks ties towards the
    even neighbour ("banker's rounding"). */
module Numeric {

  /** `round(x)`: the nearest integer, ties going to the even one. */
  function RoundHalfEven(x: real): (n: int)
    ensures -0.5 <= x - n as real <= 0.5
    ensures (x - n as real == 0.5 || n as real - x == 0.5) ==> n % 2 == 0
  {
    var f := x.Floor;
    var d := x - f as real;
    if d < 0.5 then f
    else if d > 0.5 then f + 1
    else if f % 2 == 0 then f
    else f + 1
  }

  /** An integer closer than one half to `x` is what `round(x)` returns. */
  lemma RoundNearest(x: real, m: int)
    requires -0.5 < x - m as real < 0.5
    ensures RoundHalfEven(x) == m
  {
  }

  /** Rounding never moves a larger value below a smaller one. */
  lemma RoundMonotone(x: real, y: real)
    requires x <= y
    ensures RoundHalfEven(x) <= RoundHalfEven(y)
  {
  }

  /** A temperature of 16.6 is reported as 17, and ties go to the even
      neighbour. */
  lemma RoundExample()
    ensures RoundHalfEven(16.6) == 17
    ensures RoundHalfEven(2.5) == 2 && RoundHalfEven(3.5) == 4 && RoundHalfEven(-0.5) == 0
  {
    RoundNearest(16.6, 17);
  }
}
