/** The auxiliary functions and the rotation of section 3.4 of RFC 1321, and what each of
    them does to single bits. */
module Md5Words {

  function F(x: bv32, y: bv32, z: bv32): bv32 { (x & y) | (!x & z) }
  function G(x: bv32, y: bv32, z: bv32): bv32 { (x & z) | (y & !z) }
  function H(x: bv32, y: bv32, z: bv32): bv32 { (x ^ y) ^ z }
  function I(x: bv32, y: bv32, z: bv32): bv32 { y ^ (x | !z) }

  type Shift = s: bv8 | 0 < s < 32 witness 1

  function RotateLeft(x: bv32, s: Shift): bv32 {
    (x << s) | (x >> (32 - s))
  }

  /** Each function works on every bit alone: what it gives under a mask depends on what its
      arguments have under the mask. */
  lemma BitwiseF(x: bv32, y: bv32, z: bv32, mask: bv32)
    ensures F(x, y, z) & mask == F(x & mask, y & mask, z & mask) & mask
  {}

  lemma BitwiseG(x: bv32, y: bv32, z: bv32, mask: bv32)
    ensures G(x, y, z) & mask == G(x & mask, y & mask, z & mask) & mask
  {}

  lemma BitwiseH(x: bv32, y: bv32, z: bv32, mask: bv32)
    ensures H(x, y, z) & mask == H(x & mask, y & mask, z & mask) & mask
  {}

  lemma BitwiseI(x: bv32, y: bv32, z: bv32, mask: bv32)
    ensures I(x, y, z) & mask == I(x & mask, y & mask, z & mask) & mask
  {}

  /** F lets x choose between y and z. */
  lemma ChoiceOfF(y: bv32, z: bv32)
    ensures F(0xffff_ffff, y, z) == y && F(0, y, z) == z
  {}

  /** G lets z choose between x and y. */
  lemma ChoiceOfG(x: bv32, y: bv32)
    ensures G(x, y, 0xffff_ffff) == x && G(x, y, 0) == y
  {}

  /** H is parity. */
  lemma ParityOfH(x: bv32, y: bv32)
    ensures H(x, y, 0) == x ^ y && H(x, y, 0xffff_ffff) == !(x ^ y)
  {}

  /** I inverts y where z is clear, and where it is set adds x to it. */
  lemma ValuesOfI(x: bv32, y: bv32)
    ensures I(x, y, 0) == !y && I(x, y, 0xffff_ffff) == x ^ y
  {}

  /** Bit j of a word, bit 0 the lowest. */
  function Bit(x: bv32, j: bv8): bv32
    requires j < 32
  {
    (x >> j) & 1
  }

  /** Bit j of a rotated word was s places below it, modulo 32. */
  lemma RotatedUp(x: bv32, s: bv8, j: bv8)
    requires 0 < s <= j < 32
    ensures Bit(RotateLeft(x, s), j) == Bit(x, j - s)
  {}

  lemma RotatedAround(x: bv32, s: bv8, j: bv8)
    requires 0 < s < 32 && j < s
    ensures Bit(RotateLeft(x, s), j) == Bit(x, j + 32 - s)
  {}
}
