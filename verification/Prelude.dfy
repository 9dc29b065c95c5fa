/** Types and word-size arithmetic shared by every module of the model. */
module Prelude {

  datatype Option<+T> = None | Some(value: T)

  const TWO_63: int := 0x8000_0000_0000_0000
  const TWO_64: int := 0x1_0000_0000_0000_0000

  /** Reduction of an exact result to `u64`, as a release build reduces it. */
  function WrapU64(x: int): int {
    x % TWO_64
  }

  /** Reduction of an exact result to `i64`; also the `as i64` cast. */
  function WrapI64(x: int): int {
    (x + TWO_63) % TWO_64 - TWO_63
  }

  /** Rust's integer division, which truncates toward zero. */
  function TruncDiv(a: int, b: int): int
    requires b > 0
  {
    if a >= 0 then a / b else -((-a) / b)
  }

  /** A quotient and remainder are the only ones with their sum and range. */
  lemma QuotientUnique(a: int, b: int, q: int, r: int)
    requires b > 0 && a == b * q + r && 0 <= r < b
    ensures a / b == q && a % b == r
  {
    var d := a / b - q;
    assert b * d == r - a % b;
    assert d >= 1 ==> b * d >= b;
    assert d <= -1 ==> b * d <= -b;
  }

  lemma SubsetSize<T>(a: set<T>, b: set<T>)
    requires a <= b
    ensures |a| <= |b|
  {
    assert b == a + (b - a);
  }
}
