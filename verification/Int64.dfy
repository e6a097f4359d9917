/** The 64-bit integers of the Rust code and of PostgreSQL's BIGINT columns. */
module Int64 {

  const MIN: int := -0x8000_0000_0000_0000
  const MAX: int := 0x7FFF_FFFF_FFFF_FFFF

  type i64 = x: int | MIN <= x <= MAX

  /** Rust's `i64` arithmetic as the release profile compiles it: modulo 2^64. */
  function Wrap(x: int): (r: i64)
    ensures MIN <= x <= MAX ==> r == x
    ensures MAX < x <= 2 * MAX + 1 ==> r == x - 0x1_0000_0000_0000_0000
    ensures 2 * MIN <= x < MIN ==> r == x + 0x1_0000_0000_0000_0000
  {
    (x - MIN) % 0x1_0000_0000_0000_0000 + MIN
  }
}
