/**
 * The two JavaScript integer operations the pages rely on, written out
 * because Dafny's own `/` and `%` are Euclidean:
 *  - `a % b` truncates toward zero, so the remainder takes the sign of `a`;
 *  - `Math.floor(a / b)` rounds the quotient down.
 * Only positive divisors occur in the pages, so both require `b > 0`.
 */
module JsNumber {

  /** The quotient JavaScript's `%` is based on: `a / b` truncated toward zero. */
  function TruncDiv(a: int, b: int): int
    requires b > 0
  {
    if a >= 0 then a / b else -((-a) / b)
  }

  /** JavaScript's `a % b` on integers (truncated remainder). */
  function Rem(a: int, b: int): (r: int)
    requires b > 0
    ensures a >= 0 ==> 0 <= r < b
    ensures a < 0 ==> -b < r <= 0
    ensures a == TruncDiv(a, b) * b + r
  {
    if a >= 0 then a % b else -((-a) % b)
  }

  /** JavaScript's `Math.floor(a / b)` on integers. */
  function FloorDiv(a: int, b: int): (q: int)
    requires b > 0
    ensures q * b <= a < q * b + b
  {
    a / b
  }

  /** On a non-negative dividend JavaScript's `%` agrees with Dafny's. */
  lemma RemOfNonNegative(a: int, b: int)
    requires a >= 0 && b > 0
    ensures Rem(a, b) == a % b
  {
  }
}
