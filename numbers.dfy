/**
 * Swift's fixed-width integers and the exactness test Foundation applies
 * when it turns a number into one.
 */
module Numbers {

  const MinInt64: int := -0x8000_0000_0000_0000
  const MaxInt64: int := 0x7FFF_FFFF_FFFF_FFFF

  /** A signed 64-bit integer (Swift `Int` on 64-bit platforms, `Int64`). */
  type int64 = x: int | -0x8000_0000_0000_0000 <= x <= 0x7FFF_FFFF_FFFF_FFFF

  predicate IsWhole(x: real) {
    x.Floor as real == x
  }

  /** A number a Swift 64-bit integer can hold exactly. */
  predicate FitsInt64(x: real) {
    IsWhole(x) && MinInt64 <= x.Floor <= MaxInt64
  }

  predicate IsDigit(c: char) {
    '0' <= c <= '9'
  }

  /** The decimal text of a natural number. */
  function Decimal(n: nat): (s: string)
    ensures s != []
    ensures forall k :: 0 <= k < |s| ==> IsDigit(s[k])
  {
    if n < 10 then [('0' as int + n) as char]
    else Decimal(n / 10) + [('0' as int + n % 10) as char]
  }

  /** Swift's `String(Int)` and JavaScript's number-to-text for an integer: the decimal text with a leading `-` when negative. */
  function IntText(i: int): (s: string)
    ensures s != []
  {
    if i < 0 then "-" + Decimal(-i) else Decimal(i)
  }
}
