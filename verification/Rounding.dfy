/** Rounding of exact reals the way the Go standard library rounds:
    half away from zero, up, and towards zero. */
module Rounding {

  /** math.Round: nearest integer, halves away from zero. */
  function RoundHalfAway(x: real): int {
    if x >= 0.0 then (x + 0.5).Floor else -((0.5 - x).Floor)
  }

  /** math.Ceil, as an int. */
  function Ceil(x: real): int {
    -((-x).Floor)
  }

  /** Conversion of a float to an integer type: the fraction is dropped. */
  function Truncate(x: real): int {
    if x >= 0.0 then x.Floor else -((-x).Floor)
  }

  function Abs(x: real): real {
    if x >= 0.0 then x else -x
  }

  function Max(x: real, y: real): real {
    if x >= y then x else y
  }

  predicate IsWhole(x: real) {
    x.Floor as real == x
  }

  lemma RoundIsNearest(x: real)
    ensures Abs(RoundHalfAway(x) as real - x) <= 0.5
    ensures Abs(RoundHalfAway(x) as real - x) == 0.5 ==> Abs(RoundHalfAway(x) as real) > Abs(x)
  {
  }

  lemma RoundOfInt(n: int)
    ensures RoundHalfAway(n as real) == n
  {
    RoundIsNearest(n as real);
  }

  lemma RoundMonotone(x: real, y: real)
    requires x <= y
    ensures RoundHalfAway(x) <= RoundHalfAway(y)
  {
    RoundIsNearest(x);
    RoundIsNearest(y);
  }

  /** Two points at most one unit apart round to equal or adjacent integers, except for
      the one pair (-1/2, 1/2): both ends round away from zero and 0 is stepped over. */
  lemma RoundWithinOneUnit(x: real, y: real)
    requires x <= y <= x + 1.0
    ensures RoundHalfAway(y) <= RoundHalfAway(x) + 1 <==> !(x == -0.5 && y == 0.5)
    ensures RoundHalfAway(y) <= RoundHalfAway(x) + 2
  {
    RoundIsNearest(x);
    RoundIsNearest(y);
  }

  lemma CeilBounds(x: real)
    ensures Ceil(x) as real - 1.0 < x <= Ceil(x) as real
  {}

  lemma TruncateOfInt(n: int)
    ensures Truncate(n as real) == n
  {}
}
