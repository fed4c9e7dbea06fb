/** Machine integers of the Rust sources, with the saturating operations the code calls. */
module Bounded {

  const I64_MAX := 0x7fff_ffff_ffff_ffff
  const I64_MIN := -0x8000_0000_0000_0000
  const U64_MAX := 0xffff_ffff_ffff_ffff
  const I128_MAX := 0x7fff_ffff_ffff_ffff_ffff_ffff_ffff_ffff
  const I128_MIN := -0x8000_0000_0000_0000_0000_0000_0000_0000

  type I64 = x: int | I64_MIN <= x <= I64_MAX
  type U64 = x: int | 0 <= x <= U64_MAX
  type Byte = b: int | 0 <= b < 256

  predicate FitsI64(x: int) {
    I64_MIN <= x <= I64_MAX
  }

  predicate FitsI128(x: int) {
    I128_MIN <= x <= I128_MAX
  }

  function Max(a: int, b: int): int {
    if a < b then b else a
  }

  function Min(a: int, b: int): int {
    if a < b then a else b
  }

  /** The value an unbounded sum takes once it has been pushed through saturating additions of
      non-negative i64 terms. */
  function Cap(x: int): int {
    Min(x, I64_MAX)
  }

  function SaturatingAdd(a: I64, b: I64): (r: I64)
    ensures FitsI64(a + b) ==> r == a + b
  {
    Min(Max(a + b, I64_MIN), I64_MAX)
  }

  function SaturatingSub(a: I64, b: I64): (r: I64)
    ensures FitsI64(a - b) ==> r == a - b
  {
    Min(Max(a - b, I64_MIN), I64_MAX)
  }

  function SaturatingAddU64(a: U64, b: U64): (r: U64)
    ensures a <= r && (a + b <= U64_MAX ==> r == a + b)
  {
    Min(a + b, U64_MAX)
  }
}
