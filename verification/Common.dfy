/** Shared helper types. */
module Common {

  datatype Option<+T> = None | Some(value: T)

  const I64_MIN: int := -0x8000_0000_0000_0000
  const I64_MAX: int := 0x7FFF_FFFF_FFFF_FFFF

  const U64_MAX: nat := 0xFFFF_FFFF_FFFF_FFFF

  /** A signed 64-bit machine integer. */
  type I64 = x: int | I64_MIN <= x <= I64_MAX
}
