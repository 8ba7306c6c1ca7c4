/** Integer rounding shared by the score and the average-progress figures. */
module Arith {

  /**
   * `x / n` rounded to the nearest integer, an exact half going up (towards
   * positive infinity): `Math.round(x / n)`, and `toFixed` on a positive
   * quotient, which picks the larger candidate on a tie.
   */
  function RoundHalfUp(x: int, n: int): (r: int)
    requires n > 0
    ensures -n <= 2 * (x - r * n) < n
  {
    var q := (2 * x + n) / (2 * n);
    assert 2 * x + n == q * (2 * n) + (2 * x + n) % (2 * n);
    q
  }

  /** The result is the only integer that close to `x / n`. */
  lemma RoundHalfUpUnique(x: int, n: int, r: int)
    requires n > 0
    requires -n <= 2 * (x - r * n) < n
    ensures r == RoundHalfUp(x, n)
  {
    var q := RoundHalfUp(x, n);
    MulMonotone(q + 1, r, n);
    MulMonotone(r + 1, q, n);
  }

  /** Multiplying by a positive number keeps the order. */
  lemma MulMonotone(a: int, b: int, e: int)
    ensures e > 0 && a <= b ==> a * e <= b * e
  {
  }
}
