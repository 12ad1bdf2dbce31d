/**
 * Fixed-width integers and the big-endian 32-bit codec used by the chunk
 * layout: `u32::to_be_bytes` and `read_be_u32` (split off four bytes, then
 * `u32::from_be_bytes`).
 */
module Utils {

  /** A byte, `u8`. */
  type u8 = x: int | 0 <= x < 0x100

  /** An unsigned 32-bit integer, `u32`. */
  type u32 = x: int | 0 <= x < 0x1_0000_0000

  /** `x.to_be_bytes()`: the four bytes of `x`, most significant first. */
  function ToBeBytes(x: u32): (r: seq<u8>)
    ensures |r| == 4
  {
    [x / 0x100_0000, (x / 0x1_0000) % 0x100, (x / 0x100) % 0x100, x % 0x100]
  }

  /** `u32::from_be_bytes`: the value of four bytes read most significant first. */
  function FromBeBytes(b: seq<u8>): (r: u32)
    requires |b| == 4
  {
    (b[0] as int) * 0x100_0000 + (b[1] as int) * 0x1_0000 + (b[2] as int) * 0x100 + b[3] as int
  }

  /**
   * `read_be_u32`: the big-endian value of the first four bytes; later bytes
   * are ignored. The source panics (in `split_at` and `try_into().unwrap()`)
   * when fewer than four bytes are given; that is the precondition here.
   */
  function ReadBeU32(input: seq<u8>): (r: u32)
    requires |input| >= 4
    ensures r == (input[0] as int) * 0x100_0000 + (input[1] as int) * 0x1_0000
                 + (input[2] as int) * 0x100 + input[3] as int
    ensures ToBeBytes(r) == input[..4]
  {
    var intBytes := input[..4];
    FromBeBytesInverse(intBytes);
    FromBeBytes(intBytes)
  }

  /** Decoding four bytes and encoding the value again gives the four bytes back. */
  lemma FromBeBytesInverse(b: seq<u8>)
    requires |b| == 4
    ensures ToBeBytes(FromBeBytes(b)) == b
  {
    var b0, b1, b2, b3 := b[0] as int, b[1] as int, b[2] as int, b[3] as int;
    var x := FromBeBytes(b);
    assert x / 0x100_0000 == b0;
    assert x / 0x1_0000 == b0 * 0x100 + b1;
    assert x / 0x100 == b0 * 0x1_0000 + b1 * 0x100 + b2;
    assert (b0 * 0x100 + b1) % 0x100 == b1;
    assert (b0 * 0x1_0000 + b1 * 0x100 + b2) % 0x100 == b2;
    assert x % 0x100 == b3;
    assert ToBeBytes(x) == [b0, b1, b2, b3];
  }

  /** Encoding a value and reading it back, whatever follows the four bytes, gives the value. */
  lemma ReadBeU32OfToBeBytes(x: u32, rest: seq<u8>)
    ensures ReadBeU32(ToBeBytes(x) + rest) == x
  {
    var b := ToBeBytes(x);
    var q2, q1 := x / 0x1_0000, x / 0x100;
    assert q2 == (x / 0x100_0000) * 0x100 + q2 % 0x100;
    assert q1 == q2 * 0x100 + q1 % 0x100;
    assert x == q1 * 0x100 + x % 0x100;
    assert (ToBeBytes(x) + rest)[..4] == b;
  }
}
