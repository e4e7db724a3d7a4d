/** Go's fixed-width integer types as ranges of unbounded integers, with the
    two's-complement conversions the formatter relies on written out. Go's `int`
    and `uint` are taken to be 64 bits wide. */
module GoInts {

  const MinInt64: int := -0x8000_0000_0000_0000
  const MaxInt64: int := 0x7FFF_FFFF_FFFF_FFFF
  const MaxUint64: int := 0xFFFF_FFFF_FFFF_FFFF
  const TwoTo64: int := 0x1_0000_0000_0000_0000

  type int8 = x: int | -0x80 <= x <= 0x7F
  type uint8 = x: int | 0 <= x <= 0xFF
  type int16 = x: int | -0x8000 <= x <= 0x7FFF
  type uint16 = x: int | 0 <= x <= 0xFFFF
  type int32 = x: int | -0x8000_0000 <= x <= 0x7FFF_FFFF
  type uint32 = x: int | 0 <= x <= 0xFFFF_FFFF
  type int64 = x: int | MinInt64 <= x <= MaxInt64
  type uint64 = x: int | 0 <= x <= MaxUint64

  /** Go's `-n` on an `int64`: wraps around, so the negation of MinInt64 is MinInt64. */
  function Negate64(n: int64): (r: int64)
    ensures (r + n) % TwoTo64 == 0
  {
    if n == MinInt64 then MinInt64 else -n
  }

  /** Go's `uint64(n)` on an `int64`: the same 64 bits read as unsigned. */
  function AsUint64(n: int64): (r: uint64)
    ensures (r - n) % TwoTo64 == 0
  {
    if n < 0 then n + TwoTo64 else n
  }

  /** `uint64(-n)` is the magnitude of every negative `int64`, MinInt64
      included: the wrapped negation MinInt64 reads back as 2^63. */
  lemma NegatedMagnitude(n: int64)
    requires n < 0
    ensures AsUint64(Negate64(n)) == -(n as int)
    ensures AsUint64(Negate64(n)) <= 0x8000_0000_0000_0000
  {
  }
}
