/**
 Go's 64-bit integer arithmetic and the durations built on it. Instants are
 integers of nanoseconds; a `time.Duration` is an int64 count of
 nanoseconds: `*` and `+` on it wrap around in two's complement, while
 `time.Time.Sub` saturates at the bounds of the type.
 */
module GoInt {

  const TWO_TO_63: int := 0x8000_0000_0000_0000
  const TWO_TO_64: int := 0x1_0000_0000_0000_0000
  const MIN_INT64: int := -TWO_TO_63
  const MAX_INT64: int := TWO_TO_63 - 1
  const MAX_UINT64: int := TWO_TO_64 - 1

  predicate InInt64(x: int) {
    MIN_INT64 <= x <= MAX_INT64
  }

  /** Go's int64, and so also `time.Duration` in nanoseconds. */
  type Int64 = x: int | InInt64(x)

  /** The int64 that Go computes for the mathematical value x (wrap-around). */
  function Wrap64(x: int): (r: Int64)
    ensures (x - r) % TWO_TO_64 == 0
    ensures InInt64(x) ==> r == x
  {
    (x - MIN_INT64) % TWO_TO_64 + MIN_INT64
  }

  /** The int64 nearest to x (saturation, as `time.Time.Sub` does). */
  function Saturate64(x: int): (r: Int64)
    ensures InInt64(x) ==> r == x
    ensures x > MAX_INT64 ==> r == MAX_INT64
    ensures x < MIN_INT64 ==> r == MIN_INT64
  {
    if x > MAX_INT64 then MAX_INT64 else if x < MIN_INT64 then MIN_INT64 else x
  }

  /** `time.Second`, in nanoseconds. */
  const SECOND: int := 1_000_000_000

  /** `t.Sub(u)`: the exact difference, saturated to int64. */
  function Sub(t: int, u: int): (d: Int64)
    ensures InInt64(t - u) ==> d == t - u
    ensures t - u > MAX_INT64 ==> d == MAX_INT64
    ensures t - u < MIN_INT64 ==> d == MIN_INT64
  {
    Saturate64(t - u)
  }

  lemma SaturateMonotone(x: int, y: int)
    requires x <= y
    ensures Saturate64(x) <= Saturate64(y)
  {
  }
}
