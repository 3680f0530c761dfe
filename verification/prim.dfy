/** Rust's fixed-width integer types, as the ranges they admit. */
module Prim {
  newtype u8 = x: int | 0 <= x < 0x100
  newtype u32 = x: int | 0 <= x < 0x1_0000_0000
  newtype i32 = x: int | -0x8000_0000 <= x < 0x8000_0000
  newtype u64 = x: int | 0 <= x < 0x1_0000_0000_0000_0000
}
