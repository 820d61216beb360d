/** Java's fixed-width integer types and the narrowing conversions between them. */
module JavaInt {

  const INT_MIN: int := -0x8000_0000
  const INT_MAX: int := 0x7fff_ffff
  const LONG_MIN: int := -0x8000_0000_0000_0000
  const LONG_MAX: int := 0x7fff_ffff_ffff_ffff

  /** Java `int`. */
  type Int32 = x: int | -0x8000_0000 <= x <= 0x7fff_ffff

  /** Java `long`. */
  type Int64 = x: int | -0x8000_0000_0000_0000 <= x <= 0x7fff_ffff_ffff_ffff

  /** Java's `Number.intValue()` on an integral value: keeps the low 32 bits, read as two's complement. */
  function ToInt32(n: int): (r: Int32)
    ensures (r - n) % 0x1_0000_0000 == 0
    ensures INT_MIN <= n <= INT_MAX ==> r == n
  {
    (n - INT_MIN) % 0x1_0000_0000 + INT_MIN
  }

  /** Java's `Number.longValue()` on an integral value: keeps the low 64 bits, read as two's complement. */
  function ToInt64(n: int): (r: Int64)
    ensures (r - n) % 0x1_0000_0000_0000_0000 == 0
    ensures LONG_MIN <= n <= LONG_MAX ==> r == n
  {
    (n - LONG_MIN) % 0x1_0000_0000_0000_0000 + LONG_MIN
  }
}
