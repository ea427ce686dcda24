/**
 Small definitions that all parts share.
 */
module Basics {

  datatype Option<+T> = None | Some(value: T)

  /** The largest int64. */
  const MAX_I64: int := 0x7FFF_FFFF_FFFF_FFFF

  /** Nanoseconds in a second. */
  const SECOND: int := 1_000_000_000

  function Min(a: int, b: int): int { if a <= b then a else b }

  function Max(a: int, b: int): int { if a >= b then a else b }
}
