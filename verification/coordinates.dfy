/**
 * The integer vocabulary shared by File and Rank: Rust's `u8`, its checked and
 * saturating arithmetic, inclusive ranges and their reversal.
 */
module Coordinates {
  import opened Wrappers

  /** Rust's `u8`. */
  type U8 = x: int | 0 <= x < 256

  /** The error a coordinate constructor returns for a value off the board. */
  datatype BoundsError = OutOfBounds(value: int)

  /** `u8::checked_add`: None on overflow. */
  function CheckedAdd(a: U8, b: U8): Option<U8> {
    if a + b < 256 then Some(a + b) else None
  }

  /** `u8::checked_sub`: None on underflow. */
  function CheckedSub(a: U8, b: U8): Option<U8> {
    if b <= a then Some(a - b) else None
  }

  /** `u8::saturating_sub`: clamps at zero. */
  function SaturatingSub(a: U8, b: U8): U8 {
    if b <= a then a - b else 0
  }

  /** `cmp::min`. */
  function Min(a: int, b: int): int {
    if a <= b then a else b
  }

  function Max(a: int, b: int): int {
    if a <= b then b else a
  }

  function Abs(x: int): nat {
    if x < 0 then -x else x
  }

  /** The values of the inclusive range `lo..=hi`, in ascending order. */
  function RangeInclusive(lo: U8, hi: U8): (r: seq<U8>)
    ensures |r| == if lo <= hi then hi - lo + 1 else 0
    ensures forall i :: 0 <= i < |r| ==> r[i] == lo + i
    decreases hi - lo
  {
    if hi < lo then []
    else if lo == hi then [lo]
    else [lo] + RangeInclusive(lo + 1, hi)
  }

  /** `Iterator::rev`: the same elements, last first. */
  function Reverse<T>(xs: seq<T>): (r: seq<T>)
    ensures |r| == |xs|
    ensures forall i :: 0 <= i < |r| ==> r[i] == xs[|xs| - 1 - i]
  {
    if xs == [] then [] else Reverse(xs[1..]) + [xs[0]]
  }
}
