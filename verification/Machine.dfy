/** Fixed-width integers, the source's arithmetic on them, and the Option and
    Result shapes shared by every other module. */
module Machine {
  const U8_MAX: int := 0xFF
  const U32_MAX: int := 0xFFFF_FFFF
  const U64_MAX: int := 0xFFFF_FFFF_FFFF_FFFF
  const I64_MIN: int := -0x8000_0000_0000_0000
  const I64_MAX: int := 0x7FFF_FFFF_FFFF_FFFF

  type u8 = x: int | 0 <= x <= U8_MAX
  type u32 = x: int | 0 <= x <= U32_MAX
  type u64 = x: int | 0 <= x <= U64_MAX
  type i64 = x: int | I64_MIN <= x <= I64_MAX

  datatype Option<+T> = None | Some(value: T)

  datatype Result<+T, +E> = Ok(value: T) | Err(error: E)

  /** The Rust unit value. */
  datatype Unit = Unit

  /** `i64::checked_add`. */
  function CheckedAddI64(a: i64, b: i64): (r: Option<i64>)
  {
    if I64_MIN <= a + b <= I64_MAX then Some(a + b) else None
  }

  /** `u64::checked_add(1)`. */
  function CheckedIncU64(a: u64): (r: Option<u64>)
  {
    if a < U64_MAX then Some(a + 1) else None
  }

  /** `u8::checked_add(1)`. */
  function CheckedIncU8(a: u8): (r: Option<u8>)
  {
    if a < U8_MAX then Some(a + 1) else None
  }

  /** An i64 subtraction with two's-complement wrap-around (release profile). */
  function WrappingSub(a: i64, b: i64): (r: i64)
    ensures I64_MIN <= a - b <= I64_MAX ==> r == a - b
    ensures r == a - b || r == a - b + 0x1_0000_0000_0000_0000 || r == a - b - 0x1_0000_0000_0000_0000
  {
    if a - b > I64_MAX then a - b - 0x1_0000_0000_0000_0000
    else if a - b < I64_MIN then a - b + 0x1_0000_0000_0000_0000
    else a - b
  }

  /** `n as u8`. */
  function TruncU8(n: nat): (r: u8)
    ensures r <= n
    ensures n <= U8_MAX ==> r == n
  {
    n % 0x100
  }
}
