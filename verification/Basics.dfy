/** Fixed-width integers, and the option and result types shared by every module. */
module Basics {

  type byte = x: nat | x < 0x100
  type u16 = x: nat | x < 0x1_0000
  type u32 = x: nat | x < 0x1_0000_0000
  type u64 = x: nat | x < 0x1_0000_0000_0000_0000

  const U32_MAX: u32 := 0xFFFF_FFFF
  const U64_MAX: u64 := 0xFFFF_FFFF_FFFF_FFFF

  datatype Option<+T> = None | Some(value: T)

  datatype Result<+T, +E> = Ok(value: T) | Err(error: E)

  /** An unsigned 32-bit result: arithmetic that overflows wraps. */
  function Wrap32(x: nat): u32 {
    x % 0x1_0000_0000
  }

  /** An unsigned 64-bit result: arithmetic that overflows wraps. */
  function Wrap64(x: nat): u64 {
    x % 0x1_0000_0000_0000_0000
  }
}
