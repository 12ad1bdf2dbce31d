/**
 * CRC-32/ISO-HDLC, the checksum of a chunk (section 5.5 of the PNG
 * specification, W3C PNG Second Edition): the reflected polynomial
 * 0xEDB88320, register initialised to all ones, final value complemented.
 * The source takes it from the `crc` crate (`Crc::<u32>::new(&CRC_32_ISO_HDLC)`);
 * this bit-at-a-time form computes the same function as that table-driven one.
 */
module Crc {
  import opened Utils

  /** The generator polynomial 0x04C11DB7 with its bits reversed. */
  const Polynomial: bv32 := 0xEDB8_8320

  /** One bit step of the reflected shift register. */
  function ShiftBit(c: bv32): bv32 {
    if c & 1 == 1 then (c >> 1) ^ Polynomial else c >> 1
  }

  /** The register after one more byte has been fed in, low bit first. */
  function UpdateByte(c: bv32, b: u8): bv32 {
    var x := c ^ (b as bv32);
    ShiftBit(ShiftBit(ShiftBit(ShiftBit(ShiftBit(ShiftBit(ShiftBit(ShiftBit(x))))))))
  }

  /** The register `c` after the bytes `s[i..]` have been fed in, in order. */
  function Register(c: bv32, s: seq<u8>, i: nat): bv32
    requires i <= |s|
    decreases |s| - i
  {
    if i == |s| then c else Register(UpdateByte(c, s[i]), s, i + 1)
  }

  /** `CRC_32_ISO.checksum(s)`. */
  function Checksum(s: seq<u8>): u32 {
    (Register(0xFFFF_FFFF, s, 0) ^ 0xFFFF_FFFF) as int
  }
}
