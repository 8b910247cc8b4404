/** `round(x, p)` in units of the last kept decimal: nearest, ties to even. */
module Rounding {

  /** The nearest integer to x. */
  function Nearest(x: real): (r: int)
    ensures -0.5 <= r as real - x <= 0.5
    ensures r as real - x == 0.5 || r as real - x == -0.5 ==> r % 2 == 0
  {
    var f := x.Floor;
    var d := x - f as real;
    if d < 0.5 then f
    else if d > 0.5 then f + 1
    else if f % 2 == 0 then f else f + 1
  }

  /** Rounding a whole number of units changes nothing. */
  lemma NearestWhole(k: int)
    ensures Nearest(k as real) == k
  {
  }

  function Abs(x: real): real { if x < 0.0 then -x else x }
}
