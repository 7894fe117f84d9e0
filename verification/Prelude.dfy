/** Shared vocabulary: optional values and 32-bit unsigned arithmetic. */
module Prelude {

  datatype Option<+T> = None | Some(value: T)

  /** Number of values of an unsigned 32-bit integer. */
  const U32_SIZE: int := 0x1_0000_0000
  const U32_MAX: int := 0xFFFF_FFFF

  type u32 = x: int | 0 <= x < U32_SIZE

  /** The 32-bit value of a sum of two 32-bit numbers and a carry: a release build wraps around. */
  function Wrap(x: int): u32
    requires 0 <= x < 2 * U32_SIZE
  {
    if x < U32_SIZE then x else x - U32_SIZE
  }

  lemma WrapMeans(x: int)
    requires 0 <= x < 2 * U32_SIZE
    ensures Wrap(x) == x % 0x1_0000_0000
  {
  }

  function Max(a: int, b: int): int {
    if a < b then b else a
  }

  function Min(a: int, b: int): int {
    if a < b then a else b
  }
}
