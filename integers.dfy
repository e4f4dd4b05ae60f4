/** Rust's 32-bit integers over Dafny's unbounded ones: ranges, casts and division. */
module Integers {

  const MinI32: int := -0x8000_0000
  const MaxI32: int := 0x7FFF_FFFF
  const U32Limit: int := 0x1_0000_0000

  predicate IsI32(x: int) {
    MinI32 <= x <= MaxI32
  }

  predicate IsU32(x: int) {
    0 <= x < U32Limit
  }

  /** `x as i32` for a `u32`: the same 32 bits read as two's complement. */
  function U32AsI32(x: int): (r: int)
    requires IsU32(x)
    ensures IsI32(r)
    ensures r >= 0 <==> x <= MaxI32
    ensures I32AsU32(r) == x
  {
    if x <= MaxI32 then x else x - U32Limit
  }

  /** `x as u32` for an `i32`: wraps a negative value round to the top of the range. */
  function I32AsU32(x: int): (r: int)
    requires IsI32(x)
    ensures IsU32(r)
    ensures x >= 0 ==> r == x
    ensures x < 0 ==> r == x + U32Limit
  {
    x % U32Limit
  }

  /**
    Rust's `/` on signed integers: the quotient rounded toward zero. It agrees with
    Dafny's `/` on non-negative numbers and is odd, where Dafny's rounds down.
   */
  function TruncDiv(a: int, d: int): (q: int)
    requires d > 0
    ensures a >= 0 ==> q == a / d
    ensures a < 0 ==> q == -TruncDiv(-a, d)
    decreases if a < 0 then 1 else 0
  {
    if a >= 0 then a / d else -((-a) / d)
  }
}
