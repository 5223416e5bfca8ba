/** Java's 32-bit `int`, as used for the failure counter (a boxed `Integer`). */
module JavaInt {

  const MIN_INT: int := -0x8000_0000
  const MAX_INT: int := 0x7fff_ffff

  newtype int32 = x: int | -0x8000_0000 <= x < 0x8000_0000

  /** Java's `x + 1` on `int`: two's-complement addition, which wraps at MAX_INT. */
  function Inc(x: int32): (r: int32)
    ensures r as int == (x as int + 1 - MIN_INT) % 0x1_0000_0000 + MIN_INT
    ensures x as int < MAX_INT ==> r as int == x as int + 1
  {
    if x as int == MAX_INT then MIN_INT as int32 else x + 1
  }
}
