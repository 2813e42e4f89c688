/** Fixed-width integer types of the source and its explicit conversions. */
module Ints {

  type u8 = x: int | 0 <= x < 0x100
  type u16 = x: int | 0 <= x < 0x1_0000
  type u32 = x: int | 0 <= x < 0x1_0000_0000
  type i32 = x: int | -0x8000_0000 <= x < 0x8000_0000
  type i64 = x: int | -0x8000_0000_0000_0000 <= x < 0x8000_0000_0000_0000

  /** Rust's `v as i32` on an `i64`: keep the low 32 bits, read them as two's complement. */
  function I64AsI32(v: i64): (r: i32)
    ensures -0x8000_0000 <= v < 0x8000_0000 ==> r == v
    ensures (r - v) % 0x1_0000_0000 == 0
  {
    var low := v % 0x1_0000_0000;
    if low < 0x8000_0000 then low else low - 0x1_0000_0000
  }

  /** Rust's `v as u32` on an `i32`: negative values wrap to `v + 2^32`. */
  function I32AsU32(v: i32): (r: u32)
    ensures v >= 0 ==> r == v
    ensures v < 0 ==> r == v + 0x1_0000_0000
  {
    if v >= 0 then v else v + 0x1_0000_0000
  }

  /** Rust's `v as usize` on an `i32` (64-bit target): negative values wrap far out of any index range. */
  function I32AsUsize(v: i32): (r: nat)
    ensures v >= 0 ==> r == v
    ensures v < 0 ==> r >= 0x1_0000_0000_0000_0000 - 0x8000_0000
  {
    if v >= 0 then v else v + 0x1_0000_0000_0000_0000
  }

  /** Rust's `n as i32` on a `usize`: keep the low 32 bits, read them as two's complement. */
  function UsizeAsI32(n: nat): (r: i32)
    ensures n < 0x8000_0000 ==> r == n
    ensures (r - n) % 0x1_0000_0000 == 0
  {
    var low := n % 0x1_0000_0000;
    if low < 0x8000_0000 then low else low - 0x1_0000_0000
  }

  /** `u32::from_le_bytes`: four bytes, least significant first. */
  function U32FromLe(b0: u8, b1: u8, b2: u8, b3: u8): u32 {
    b0 + 0x100 * b1 + 0x1_0000 * b2 + 0x100_0000 * b3
  }

  /** `u32::to_le_bytes`. */
  function U32ToLe(v: u32): (r: seq<u8>)
    ensures |r| == 4 && U32FromLe(r[0], r[1], r[2], r[3]) == v
  {
    [v % 0x100, (v / 0x100) % 0x100, (v / 0x1_0000) % 0x100, v / 0x100_0000]
  }

  /** `u16::from_le_bytes`. */
  function U16FromLe(b0: u8, b1: u8): u16 {
    b0 + 0x100 * b1
  }

  /** `u16::to_le_bytes`. */
  function U16ToLe(v: u16): (r: seq<u8>)
    ensures |r| == 2 && U16FromLe(r[0], r[1]) == v
  {
    [v % 0x100, v / 0x100]
  }
}
