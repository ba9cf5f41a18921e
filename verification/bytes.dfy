/** The two C++ integer types the relay handles and the narrowing conversion between them. */
module Bytes {

  /** An unsigned 8-bit value (`uint8_t`). */
  type byte = x: int | 0 <= x < 256

  /** A signed 32-bit value (`int` on the target, and what `String::toInt` yields). */
  type int32 = x: int | -0x8000_0000 <= x < 0x8000_0000

  /** The implicit or explicit conversion of an integer to `uint8_t`: the result is the
      unique byte congruent to `v` modulo 256, i.e. the low eight bits of its
      two's-complement representation. Dafny's `%` is Euclidean, so it never goes negative. */
  function ToByte(v: int): (b: byte)
    ensures 0 <= v < 256 ==> b == v
    ensures -256 <= v < 0 ==> b == v + 256
    ensures 256 <= v < 512 ==> b == v - 256
  {
    v % 256
  }

  /** Any byte `r` that differs from `v` by a multiple of 256 is what the conversion yields. */
  lemma ToByteUnique(v: int, k: int, r: int)
    requires 0 <= r < 256
    requires v == 256 * k + r
    ensures ToByte(v) == r
  {
  }
}
