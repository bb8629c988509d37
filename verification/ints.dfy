/** The machine integer types of the source, as bounded subsets of `int`. */
module Ints {
  const I64_MIN: int := -0x8000_0000_0000_0000
  const I64_LIMIT: int := 0x8000_0000_0000_0000
  const U64_LIMIT: int := 0x1_0000_0000_0000_0000
  const U128_LIMIT: int := 0x1_0000_0000_0000_0000_0000_0000_0000_0000
  const I32_LIMIT: int := 0x8000_0000

  /** The two's-complement wrap-around of `i32` arithmetic in a release build: the value in `i32` range that
      agrees with `x` modulo 2^32. */
  function WrapI32(x: int): (r: int)
    ensures -I32_LIMIT <= r < I32_LIMIT
    ensures -I32_LIMIT <= x < I32_LIMIT ==> r == x
    ensures I32_LIMIT <= x < 3 * I32_LIMIT ==> r == x - 2 * I32_LIMIT
  {
    (x + I32_LIMIT) % (2 * I32_LIMIT) - I32_LIMIT
  }

  /** `i64`: epoch milliseconds, byte counts and day counts as the log service reports them. */
  newtype I64 = x: int | -0x8000_0000_0000_0000 <= x < 0x8000_0000_0000_0000

  /** `u128`: the byte count of a `Size`. */
  newtype U128 = x: int | 0 <= x < 0x1_0000_0000_0000_0000_0000_0000_0000_0000

  lemma MulAtLeast(d: int, n: int)
    requires d >= 1 && n > 0
    ensures d * n >= n
  {
  }

  /** Euclidean remainder is determined by any quotient-remainder decomposition. */
  lemma ModUnique(a: int, n: int, q: int, r: int)
    requires 0 < n && 0 <= r < n && a == q * n + r
    ensures a % n == r
  {
    var q', r' := a / n, a % n;
    assert a == q' * n + r';
    assert (q - q') * n == r' - r;
    if q > q' {
      MulAtLeast(q - q', n);
    } else if q < q' {
      MulAtLeast(q' - q, n);
    }
  }

  /** Adding the modulus leaves the remainder unchanged. */
  lemma ModShift(x: int, n: int)
    requires 0 <= x && 0 < n
    ensures (x + n) % n == x % n
  {
    ModUnique(x + n, n, x / n + 1, x % n);
  }
}
