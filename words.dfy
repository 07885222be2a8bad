/** Byte and word conversions of the register-access layer: the device's
    little-endian 16-bit layout and the reinterpretation of raw register
    patterns as signed two's-complement readings. */
module Words {

  /** The low byte of a 16-bit value: the C cast `(uint8_t)value`. */
  function LoByte(v: bv16): (b: bv8)
    ensures b as bv16 == v & 0xFF
  {
    (v & 0xFF) as bv8
  }

  /** The high byte of a 16-bit value: `(uint8_t)(value >> 8)`. */
  function HiByte(v: bv16): (b: bv8)
    ensures b as bv16 == v >> 8
    ensures b as int == v as int / 0x100
  {
    (v >> 8) as bv8
  }

  /** A 16-bit value assembled low byte first, `lo + (hi << 8)` in 16-bit
      arithmetic; its two bytes are exactly the two it was built from. */
  function Le16(lo: bv8, hi: bv8): (w: bv16)
    ensures LoByte(w) == lo && HiByte(w) == hi
  {
    (lo as bv16) + ((hi as bv16) << 8)
  }

  /** Adding the high byte, shifted up, to a word holding the low byte (the
      driver's `resp += hi << 8`) never carries: the sum is the two bytes side
      by side, the bitwise OR of the low byte and the shifted high byte. */
  lemma AddHighByte(lo: bv8, hi: bv8)
    ensures (lo as bv16) + ((hi as bv16) << 8) == Le16(lo, hi)
    ensures Le16(lo, hi) == (lo as bv16) | ((hi as bv16) << 8)
  {
  }

  /** Splitting a word into its two bytes and assembling them again gives the word back. */
  lemma SplitThenAssemble(v: bv16)
    ensures Le16(LoByte(v), HiByte(v)) == v
  {
  }

  /** The `int16_t` value of a 16-bit pattern (two's complement): in the signed
      range, negative exactly when the sign bit is set, and congruent to the
      pattern modulo 2^16. */
  function Signed16(w: bv16): (r: int)
    ensures -0x8000 <= r < 0x8000
    ensures r < 0 <==> w & 0x8000 != 0
    ensures (w as int - r) % 0x1_0000 == 0
  {
    if w < 0x8000 then w as int else w as int - 0x1_0000
  }

  /** The `int8_t` value of an 8-bit pattern, likewise. */
  function Signed8(b: bv8): (r: int)
    ensures -0x80 <= r < 0x80
    ensures r < 0 <==> b & 0x80 != 0
    ensures (b as int - r) % 0x100 == 0
  {
    if b < 0x80 then b as int else b as int - 0x100
  }
}
