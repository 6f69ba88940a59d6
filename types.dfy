/**
 * Machine types shared by the SystemPort model.
 */
module Types {

  /** The largest value of a 64-bit `size_t`. */
  const SIZE_MAX: int := 0xFFFF_FFFF_FFFF_FFFF

  /** A C++ `size_t`: levels, byte counts requested by callers. */
  type SizeT = x: int | 0 <= x <= SIZE_MAX

  /** A `uint8_t`, the element type of a DataQueue buffer. */
  newtype Byte = x: int | 0 <= x < 256

  function Min(a: int, b: int): int
  {
    if a <= b then a else b
  }
}
