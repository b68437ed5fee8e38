/** Fixed-width unsigned integers as the source uses them, with Rust's saturating operations. */
module MachineInts {
  const U32_MAX: int := 0xFFFF_FFFF
  const U64_MAX: int := 0xFFFF_FFFF_FFFF_FFFF

  type u32 = x: int | 0 <= x <= U32_MAX
  type u64 = x: int | 0 <= x <= U64_MAX

  /** `u32::saturating_add` */
  function SaturatingAdd32(a: u32, b: u32): (r: u32)
    ensures a + b <= U32_MAX ==> r == a + b
    ensures a + b > U32_MAX ==> r == U32_MAX
  {
    if a + b > U32_MAX then U32_MAX else a + b
  }

  /** `u64::saturating_mul` */
  function SaturatingMul64(a: u64, b: u64): (r: u64)
    ensures a * b <= U64_MAX ==> r == a * b
    ensures a * b > U64_MAX ==> r == U64_MAX
  {
    if a * b > U64_MAX then U64_MAX else a * b
  }

  function Max(a: int, b: int): int
  {
    if a >= b then a else b
  }

  function Min(a: int, b: int): int
  {
    if a <= b then a else b
  }
}
