/** Machine-level values of the C++ program: bytes, the 32-bit integer types, and the
    conversions the game's arithmetic and length checks go through. */
module Machine {

  newtype byte = b: int | 0 <= b < 0x100
  newtype uint32 = x: int | 0 <= x < 0x1_0000_0000
  newtype int32 = x: int | -0x8000_0000 <= x < 0x8000_0000

  const UINT32_MODULUS: int := 0x1_0000_0000

  /** Conversion of a mathematical integer to `unsigned int`: what C++ does when a signed
      value meets an unsigned one in `+`, and what the `(uint)` casts of lengths do. */
  function ToUint32(x: int): (r: uint32)
    ensures 0 <= x < UINT32_MODULUS ==> r as int == x
    ensures -UINT32_MODULUS <= x < 0 ==> r as int == x + UINT32_MODULUS
    ensures UINT32_MODULUS <= x < 2 * UINT32_MODULUS ==> r as int == x - UINT32_MODULUS
  {
    (x % UINT32_MODULUS) as uint32
  }

  /** `(uint)s.length()`: the byte length truncated to 32 bits. */
  function CastLength<T>(s: seq<T>): (r: uint32)
    ensures |s| < UINT32_MODULUS ==> r as int == |s|
  {
    ToUint32(|s|)
  }

  /** `min` on `unsigned int`. */
  function MinUint32(a: uint32, b: uint32): (r: uint32)
    ensures r <= a && r <= b
    ensures r == a || r == b
  {
    if b < a then b else a
  }
}
