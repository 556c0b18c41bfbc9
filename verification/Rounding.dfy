/** Rounding to two decimals, in exact arithmetic. */
module Rounding {

  /** Nearest integer, ties to even. */
  function RoundHalfEven(x: real): int {
    var f := x.Floor;
    var rest := x - f as real;
    if rest < 0.5 || (rest == 0.5 && f % 2 == 0) then f else f + 1
  }

  /** Nearest integer, ties away from zero. */
  function RoundHalfUp(x: real): int {
    if x >= 0.0 then (x + 0.5).Floor else -((-x + 0.5).Floor)
  }

  function Cents(n: int): real {
    n as real / 100.0
  }

  /** Nearest hundredth, ties to even. */
  function Hundredths(x: real): (r: real)
    ensures -0.005 <= r - x <= 0.005
  {
    Cents(RoundHalfEven(x * 100.0))
  }

  /** Nearest hundredth, ties away from zero. */
  function HundredthsHalfUp(x: real): (r: real)
    ensures -0.005 <= r - x <= 0.005
    ensures x >= 0.0 ==> r >= 0.0
  {
    Cents(RoundHalfUp(x * 100.0))
  }

  /** The nearest integer to `z`: `n` is the only one within a half, or the one away from zero of two. */
  ghost predicate Nearest(z: real, n: int) {
    -0.5 < n as real - z < 0.5 || (z >= 0.0 && n as real - z == 0.5) || (z < 0.0 && n as real - z == -0.5)
  }

  lemma FloorIs(z: real, n: int)
    requires n as real <= z < n as real + 1.0
    ensures z.Floor == n
  {
  }

  lemma RoundIsNearest(z: real, n: int)
    requires Nearest(z, n)
    ensures RoundHalfUp(z) == n
  {
    if z >= 0.0 {
      FloorIs(z + 0.5, n);
    } else {
      FloorIs(-z + 0.5, -n);
    }
  }

  lemma RoundsToNearest(z: real)
    ensures Nearest(z, RoundHalfUp(z))
  {
  }

  /** Rounding half up gives the nearest whole number of cents, away from zero on ties, and nothing else does. */
  lemma HalfUpIsNearest(x: real, n: int)
    ensures HundredthsHalfUp(x) == Cents(n) <==> Nearest(x * 100.0, n)
    ensures HundredthsHalfUp(x) == Cents(RoundHalfUp(x * 100.0)) && Nearest(x * 100.0, RoundHalfUp(x * 100.0))
  {
    RoundsToNearest(x * 100.0);
    if Nearest(x * 100.0, n) {
      RoundIsNearest(x * 100.0, n);
    }
    hide RoundHalfUp, Nearest;
  }
}
