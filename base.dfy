/** Shared vocabulary: an Option type, Go's fixed-width integers and time units.
    Time instants are integer nanoseconds; the zero `time.Time` is instant 0. */
module Base {

  datatype Option<+T> = None | Some(value: T)

  /** Identity of a Go function value (a callback). */
  type FuncId = nat

  const TwoTo64: int := 0x1_0000_0000_0000_0000
  const Int64Min: int := -0x8000_0000_0000_0000
  const Int64Max: int := 0x7fff_ffff_ffff_ffff

  type uint64 = x: int | 0 <= x < TwoTo64
  type int64 = x: int | Int64Min <= x <= Int64Max

  /** `x++` on a uint64: wraps to 0 after the largest value. */
  function IncU64(x: uint64): (r: uint64)
    ensures x < TwoTo64 - 1 ==> r == x + 1
    ensures x == TwoTo64 - 1 ==> r == 0
  {
    (x + 1) % TwoTo64
  }

  /** Two's-complement truncation of an exact integer result to 64 bits,
      as Go's int64 arithmetic does on overflow. */
  function Wrap64(x: int): (r: int64)
    ensures Int64Min <= x <= Int64Max ==> r == x
    ensures (r - x) % TwoTo64 == 0
  {
    (x - Int64Min) % TwoTo64 + Int64Min
  }

  /** `x++` on an int64. */
  function IncI64(x: int64): (r: int64)
    ensures x < Int64Max ==> r == x + 1
    ensures x == Int64Max ==> r == Int64Min
  {
    Wrap64(x + 1)
  }

  /** Time units of Go's `time` package, in nanoseconds. */
  const Nanosecond: int := 1
  const Millisecond: int := 1_000_000
  const Second: int := 1_000_000_000

  /** `time.Duration(n) * unit` for a Go int `n`: the product wraps to 64 bits. */
  function Scale(n: int64, unit: int): (d: int64)
    ensures Int64Min <= n * unit <= Int64Max ==> d == n * unit
  {
    Wrap64(n * unit)
  }
}
