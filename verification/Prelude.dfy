/** Small value types shared by every module: fixed-width integers, optional values,
    results, and the saturating arithmetic the program relies on. */
module Prelude {

  datatype Option<+T> = None | Some(value: T)

  datatype Result<+T, +E> = Ok(value: T) | Err(error: E)

  const U8_MAX := 0xFF
  const U32_MAX := 0xFFFF_FFFF
  const USIZE_MAX := 0xFFFF_FFFF_FFFF_FFFF

  type u8 = n: int | 0 <= n <= U8_MAX
  type u16 = n: int | 0 <= n <= 0xFFFF
  type u32 = n: int | 0 <= n <= U32_MAX
  type usize = n: int | 0 <= n <= USIZE_MAX

  function Min(a: int, b: int): int { if a <= b then a else b }

  function Max(a: int, b: int): int { if a <= b then b else a }

  /** `u32::saturating_add`. */
  function SaturatingAdd(a: u32, b: u32): u32 { Min(a + b, U32_MAX) }

  /** `usize::saturating_mul`. */
  function SaturatingMul(a: usize, b: usize): usize
  {
    if a * b <= USIZE_MAX && 0 <= a * b then a * b else USIZE_MAX
  }

  /** `Vec::truncate`. */
  function Truncated<T>(s: seq<T>, limit: nat): seq<T> {
    if |s| <= limit then s else s[..limit]
  }

  /** No element occurs at two positions. */
  ghost predicate Distinct<T>(s: seq<T>) {
    forall i, j | 0 <= i < j < |s| :: s[i] != s[j]
  }

  /** The elements of `s`, as a set. */
  ghost function Elements<T>(s: seq<T>): set<T> { set x | x in s }
}
