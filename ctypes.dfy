/** The fixed-width C integer types that main.c computes with. */
module CTypes {
  const INT32_MIN: int := -0x8000_0000
  const INT32_MAX: int := 0x7fff_ffff
  const TWO_32: int := 0x1_0000_0000

  /** C `int` on the platforms the program targets (32 bits, two's complement). */
  type int32 = x: int | INT32_MIN <= x <= INT32_MAX

  /** C `unsigned int`: arithmetic on it wraps around modulo 2^32. */
  type uint32 = x: int | 0 <= x < TWO_32
}
