/** Vocabulary shared by every component: optional values, results and roundings. */
module Common {

  datatype Option<+T> = None | Some(value: T)

  datatype Result<+T, +E> = Ok(value: T) | Err(error: E)

  function Min(a: real, b: real): (m: real)
    ensures m <= a && m <= b && (m == a || m == b)
  {
    if a <= b then a else b
  }

  /** Go's conversion of a float to an integer, which drops the fraction. */
  function Truncate(x: real): (n: int)
    ensures 0.0 <= x ==> n as real <= x < n as real + 1.0
    ensures x < 0.0 ==> n as real - 1.0 < x <= n as real
  {
    if 0.0 <= x then x.Floor else -((-x).Floor)
  }

  /** Lua's math.ceil. */
  function Ceiling(x: real): int {
    -((-x).Floor)
  }

  /** The ceiling of x is the least integer that is not below x. */
  lemma CeilingIsLeast(x: real, n: int)
    ensures Ceiling(x) <= n <==> x <= n as real
  {
    assert ((-x).Floor as real) <= -x < ((-x).Floor as real) + 1.0;
  }

  /** The tokens that accrue at `rate` per second between two clock readings. */
  function Accrued(from: real, to: real, rate: real): real {
    (to - from) * rate
  }

  lemma AccruedAdds(a: real, b: real, c: real, rate: real)
    ensures Accrued(a, b, rate) + Accrued(b, c, rate) == Accrued(a, c, rate)
  {}

  lemma AccruedNothing(a: real, rate: real)
    ensures Accrued(a, a, rate) == 0.0
  {}

  lemma AccruedNonNegative(a: real, b: real, rate: real)
    requires a <= b && 0.0 <= rate
    ensures 0.0 <= Accrued(a, b, rate)
  {}

  lemma PositiveProduct(a: real, b: real)
    requires 0.0 < a && 0.0 < b
    ensures 0.0 < a * b
  {}

  lemma NonNegativeProduct(a: real, b: real)
    requires 0.0 <= a && 0.0 <= b
    ensures 0.0 <= a * b
  {}
}
