/**
  The few JavaScript `Math` functions the garden simulation uses, stated on
  Dafny's exact reals. IEEE-754 rounding error is not modelled: a `number` is a
  `real`, and results the program rounds to an integer are `int`.
 */
module JsMath {

  /** `Math.floor`: the greatest integer not above `x`. */
  function Floor(x: real): (r: int)
    ensures r as real <= x < r as real + 1.0
  {
    x.Floor
  }

  /** `Math.round`: the nearest integer, a tie going towards +infinity. */
  function Round(x: real): (r: int)
    ensures x - 0.5 < r as real <= x + 0.5
  {
    Floor(x + 0.5)
  }

  /** `Math.max` of two reals. */
  function MaxReal(a: real, b: real): (r: real)
    ensures a <= r && b <= r
    ensures r == a || r == b
  {
    if a < b then b else a
  }

  /** `Math.min` of two integers. */
  function MinInt(a: int, b: int): (r: int)
    ensures r <= a && r <= b
    ensures r == a || r == b
  {
    if b < a then b else a
  }

  lemma FloorMonotone(x: real, y: real)
    requires x <= y
    ensures Floor(x) <= Floor(y)
  {
  }

  /** Rounding a real that lies between two integers lands between them. */
  lemma RoundWithin(x: real, lo: int, hi: int)
    requires lo as real <= x <= hi as real
    ensures lo <= Round(x) <= hi
  {
  }

  lemma RoundOfInteger(n: int)
    ensures Round(n as real) == n
  {
  }
}
