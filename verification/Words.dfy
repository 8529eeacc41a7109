/** Go's 64-bit signed integers and small arithmetic helpers. */
module Words {
  const MAX_INT64 := 0x7FFF_FFFF_FFFF_FFFF
  const MIN_INT64 := -0x8000_0000_0000_0000

  /** Go's int and time.Duration: 64 bits, two's complement. */
  type Int64 = x: int | MIN_INT64 <= x <= MAX_INT64

  /** The 64-bit sum, which wraps. */
  function AddWrapped(x: Int64, y: Int64): Int64 {
    var sum := x + y;
    if sum > MAX_INT64 then sum - 0x1_0000_0000_0000_0000
    else if sum < MIN_INT64 then sum + 0x1_0000_0000_0000_0000
    else sum
  }

  function Max(x: int, y: int): int { if x >= y then x else y }

  function Min(x: int, y: int): int { if x <= y then x else y }
}
