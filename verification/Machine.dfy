/** The sizes of the C types the compiler and its runtime count with. */
module Machine {

  type byte = b: int | 0 <= b < 256

  const SIZE_MAX: nat := 0xFFFF_FFFF_FFFF_FFFF

  const SIZE_LIMIT: nat := SIZE_MAX + 1

  /** The terminator of a C string. */
  const NUL_CHAR: char := '\0'
}
