/** Bytes as they travel on the I2C and SPI buses, and the 16-bit joins and
    splits the drivers perform on them. */
module Bytes {

  type Byte = bv8

  /** `(b0 << 8) | b1` as a 16-bit pattern. */
  function Join16(b0: Byte, b1: Byte): bv16
  {
    ((b0 as bv16) << 8) | (b1 as bv16)
  }

  /** `(w >> 8) & 0xFF`: the byte sent first. */
  function High(w: bv16): Byte
  {
    (w >> 8) as Byte
  }

  /** `w & 0xFF`: the byte sent second. */
  function Low(w: bv16): Byte
  {
    (w & 0xFF) as Byte
  }

  /** Splitting a word and joining the halves again gives the word back,
      and joining two bytes and splitting gives the bytes back. */
  lemma SplitJoin(w: bv16, b0: Byte, b1: Byte)
    ensures Join16(High(w), Low(w)) == w
    ensures High(Join16(b0, b1)) == b0 && Low(Join16(b0, b1)) == b1
  {
  }

  /** The unsigned value of `(b0 << 8) | b1`; the low byte never overlaps
      the shifted high byte, so the OR is a sum. */
  function Unsigned16(b0: Byte, b1: Byte): (u: int)
    ensures 0 <= u < 0x1_0000
    ensures u / 256 == b0 as int && u % 256 == b1 as int
  {
    (b0 as int) * 256 + (b1 as int)
  }

  /** Two's-complement reading of a big-endian byte pair: the unsigned value,
      minus 0x10000 when it is at least 0x8000. */
  function Signed16(b0: Byte, b1: Byte): (v: int)
    ensures -0x8000 <= v < 0x8000
    ensures v < 0 <==> b0 as int >= 0x80
    ensures (v + 0x1_0000) % 0x1_0000 == Unsigned16(b0, b1)
  {
    var u := Unsigned16(b0, b1);
    if u >= 0x8000 then u - 0x1_0000 else u
  }

  /** Bit 7 of a byte is set exactly when the byte is at least 0x80: the sign
      bit of a two's-complement byte. */
  lemma SignBit(b: Byte)
    ensures b & 0x80 != 0 <==> b as int >= 0x80
  {
  }
}
