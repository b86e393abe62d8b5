/** Rounding of frame numbers: `math.floor`, `math.ceil` and `int()` on reals. */
module Frames {

  /** `math.floor(x)`: the greatest integer not above `x`. */
  function Floor(x: real): (r: int)
    ensures r as real <= x < r as real + 1.0
  {
    x.Floor
  }

  /** `math.ceil(x)`: the least integer not below `x`. */
  function Ceil(x: real): (r: int)
    ensures r as real - 1.0 < x <= r as real
  {
    -((-x).Floor)
  }

  /** `int(x)`: truncation toward zero. */
  function Trunc(x: real): (r: int)
    ensures 0.0 <= x ==> r == Floor(x)
    ensures x < 0.0 ==> r == Ceil(x)
  {
    if x >= 0.0 then x.Floor else -((-x).Floor)
  }

  /** A real that is a whole number. */
  predicate Whole(x: real) {
    x == x.Floor as real
  }

  /** On whole numbers the three roundings agree and change nothing. */
  lemma WholeRoundings(x: real)
    requires Whole(x)
    ensures Floor(x) as real == x && Ceil(x) as real == x && Trunc(x) as real == x
  {
    var n := x.Floor;
    assert (-x).Floor == -n;
  }
}
