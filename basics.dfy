/** Shared vocabulary: an optional value (the source's null pointers) and
    the fixed-width integer types of C++ with their wrap-around. */
module Basics {

  datatype Option<+T> = None | Some(value: T)

  const TWO_20: int := 0x10_0000
  const TWO_32: int := 0x1_0000_0000
  const TWO_63: int := 0x8000_0000_0000_0000
  const TWO_64: int := 0x1_0000_0000_0000_0000

  type u32 = x: int | 0 <= x < 0x1_0000_0000
  type u64 = x: int | 0 <= x < 0x1_0000_0000_0000_0000
  type i32 = x: int | -0x8000_0000 <= x < 0x8000_0000
  type i64 = x: int | -0x8000_0000_0000_0000 <= x < 0x8000_0000_0000_0000

  predicate InI64(x: int) {
    -TWO_63 <= x < TWO_63
  }

  /** Conversion of any integer to std::uint32_t: reduction modulo 2^32. */
  function ToU32(x: int): (r: u32)
    ensures (r - x) % TWO_32 == 0
    ensures 0 <= x < TWO_32 ==> r == x
  {
    x % TWO_32
  }

  /** Conversion of any integer to std::uint64_t: reduction modulo 2^64. */
  function ToU64(x: int): (r: u64)
    ensures (r - x) % TWO_64 == 0
    ensures 0 <= x < TWO_64 ==> r == x
  {
    x % TWO_64
  }

  /** Conversion of any integer to std::int32_t, two's complement: the
      unique int32 value congruent to x modulo 2^32. */
  function ToI32(x: int): (r: i32)
    ensures (r - x) % TWO_32 == 0
    ensures -0x8000_0000 <= x < 0x8000_0000 ==> r == x
  {
    var m := x % TWO_32;
    if m < 0x8000_0000 then m else m - TWO_32
  }
}
