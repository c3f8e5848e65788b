/** Machine integer widths used by the timelock program and the token program,
    and the checked signed addition that computes the unlock timestamp. */
module BoundedInts {
  import opened Wrappers

  const TWO_TO_THE_8: int := 0x100
  const TWO_TO_THE_64: int := 0x1_0000_0000_0000_0000
  const INT64_MIN: int := -0x8000_0000_0000_0000
  const INT64_MAX: int := 0x7fff_ffff_ffff_ffff
  const UINT64_MAX: int := 0xffff_ffff_ffff_ffff

  newtype uint8 = x: int | 0 <= x < TWO_TO_THE_8
  newtype uint64 = x: int | 0 <= x <= UINT64_MAX
  newtype int64 = x: int | INT64_MIN <= x <= INT64_MAX

  /** Two's-complement addition as the machine performs it: the exact sum taken
      modulo 2^64 and read back as a signed 64-bit value. */
  function WrappingAdd(a: int64, b: int64): (w: int64)
    ensures (a as int + b as int - w as int) % TWO_TO_THE_64 == 0
  {
    ((a as int + b as int - INT64_MIN) % TWO_TO_THE_64 + INT64_MIN) as int64
  }

  /** The wrapped sum is the exact sum, or the exact sum shifted by one period. */
  lemma WrappingAddCases(a: int64, b: int64)
    ensures var s := a as int + b as int;
            var w := WrappingAdd(a, b) as int;
            && (INT64_MIN <= s <= INT64_MAX ==> w == s)
            && (s > INT64_MAX ==> w == s - TWO_TO_THE_64)
            && (s < INT64_MIN ==> w == s + TWO_TO_THE_64)
  {
  }

  /** Rust's i64::checked_add, computed the way the machine flags overflow: two
      operands of the same sign whose wrapped sum has the other sign.  The
      contract states what checked_add promises: a value exactly when the sum
      is representable, and then the sum itself. */
  function CheckedAdd(a: int64, b: int64): (r: Option<int64>)
    ensures r.Some? <==> INT64_MIN <= a as int + b as int <= INT64_MAX
    ensures r.Some? ==> r.value as int == a as int + b as int
  {
    WrappingAddCases(a, b);
    var w := WrappingAdd(a, b);
    if (a < 0) == (b < 0) && (w < 0) != (a < 0) then None else Some(w)
  }
}
