/** Fixed-width integer ranges of the Rust source, and the explicit conversions between them. */
module Ints {
  type u8 = x: int | 0 <= x < 0x100
  type u16 = x: int | 0 <= x < 0x1_0000
  type u32 = x: int | 0 <= x < 0x1_0000_0000
  type i8 = x: int | -0x80 <= x < 0x80
  type i32 = x: int | -0x8000_0000 <= x < 0x8000_0000
  type i64 = x: int | -0x8000_0000_0000_0000 <= x < 0x8000_0000_0000_0000

  const U32_MAX: int := 0xFFFF_FFFF
  /** `usize::MAX` on a 64-bit target. */
  const USIZE_MAX: int := 0xFFFF_FFFF_FFFF_FFFF

  /** `v as u8` after a float `floor`: Rust float-to-int casts saturate. */
  function SatU8(v: int): (r: u8)
    ensures 0 <= v < 0x100 ==> r == v
    ensures v < 0 ==> r == 0
    ensures v >= 0x100 ==> r == 0xFF
  {
    if v < 0 then 0 else if v >= 0x100 then 0xFF else v
  }

  /** `v as i8` after a float `floor`: saturating. */
  function SatI8(v: int): (r: i8)
    ensures -0x80 <= v < 0x80 ==> r == v
    ensures v < -0x80 ==> r == -0x80
    ensures v >= 0x80 ==> r == 0x7F
  {
    if v < -0x80 then -0x80 else if v >= 0x80 then 0x7F else v
  }

  /** `v as u8` on an integer: keeps the low eight bits. */
  function TruncU8(v: int): (r: u8)
    ensures 0 <= v < 0x100 ==> r == v
  {
    v % 0x100
  }

  /** `v as u16` on an integer: keeps the low sixteen bits. */
  function TruncU16(v: int): (r: u16)
    ensures 0 <= v < 0x1_0000 ==> r == v
  {
    v % 0x1_0000
  }

  /** Wrapping i32 arithmetic, and `v as i32` from a wider integer. */
  function WrapI32(v: int): (r: i32)
    ensures -0x8000_0000 <= v < 0x8000_0000 ==> r == v
  {
    (v + 0x8000_0000) % 0x1_0000_0000 - 0x8000_0000
  }

  /** Wrapping u32 arithmetic (release-build overflow semantics). */
  function WrapU32(v: int): (r: u32)
    ensures 0 <= v <= U32_MAX ==> r == v
  {
    v % 0x1_0000_0000
  }

  /** Floor division, as `(a as f64 / d as f64).floor()` computes it (Dafny's `/` floors for d > 0). */
  function FloorDiv(a: int, d: int): (r: int)
    requires d > 0
    ensures r * d <= a < r * d + d
  {
    a / d
  }
}
