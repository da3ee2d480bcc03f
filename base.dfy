/** Small value types shared by the model: an optional value and Go's unsigned
    and signed 64-bit integers. */
module Base {

  datatype Option<+T> = None | Some(value: T)

  const TwoTo63: int := 0x8000_0000_0000_0000
  const TwoTo64: int := 0x1_0000_0000_0000_0000

  /** Go's `uint` on a 64-bit platform. */
  type Uint64 = x: int | 0 <= x < 0x1_0000_0000_0000_0000

  /** Go's `int64`. */
  type Int64 = x: int | -0x8000_0000_0000_0000 <= x < 0x8000_0000_0000_0000

  /** The conversion `int64(x)` of a `uint`: the same 64 bits read in two's complement. */
  function ToInt64(x: Uint64): (r: Int64)
    ensures 0 <= r <==> x < TwoTo63
    ensures (r - x) % TwoTo64 == 0
    ensures x < TwoTo63 ==> r == x
  {
    if x < TwoTo63 then x else x - TwoTo64
  }
}
