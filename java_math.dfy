/** Java's integer `/` and `%` truncate toward zero, unlike Dafny's Euclidean
    operators. The watch face divides values that can be negative (an instant
    before the epoch), so these two functions give the Java meaning. */
module JavaMath {

  /** `a / b` on a Java `long` (or the integer part of a `double` quotient):
      the quotient rounded toward zero. */
  function Quot(a: int, b: int): (q: int)
    requires b > 0
    ensures a >= 0 ==> q == a / b
    ensures a <= 0 ==> q <= 0
  {
    if a >= 0 then a / b else -((-a) / b)
  }

  /** `a % b` on a Java `long`: the remainder takes the sign of `a`, and
      `a == b * Quot(a, b) + Rem(a, b)`. */
  function Rem(a: int, b: int): (r: int)
    requires b > 0
    ensures -b < r < b
    ensures a >= 0 ==> r == a % b
    ensures a <= 0 ==> r <= 0
    ensures a == b * Quot(a, b) + r
  {
    if a >= 0 then a % b else -((-a) % b)
  }

  /** Negating the dividend negates the truncated quotient and remainder. */
  lemma QuotRemOdd(a: int, b: int)
    requires b > 0
    ensures Quot(-a, b) == -Quot(a, b)
    ensures Rem(-a, b) == -Rem(a, b)
  {
  }
}
