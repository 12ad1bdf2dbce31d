/**
 * The unit tests of `chunk_type.rs` and `chunk.rs`, stated as lemmas about
 * the model. The test message is written in 8-character pieces so that its
 * bytes can be worked out piece by piece.
 */
module SourceTests {
  import opened Utils
  import opened Errors
  import opened Text
  import opened Crc
  import opened ChunkTypes
  import opened Chunks
  import opened CrcTestVector

  /** The message of the chunk tests, "This is where your secret message will be!". */
  const Message: string := "This is " + "where yo" + "ur secre" + "t messag" + "e will b" + "e!"

  /** The UTF-8 bytes of `Message`, piece by piece. */
  const MessageBytes: seq<u8> := [84, 104, 105, 115, 32, 105, 115, 32] + [119, 104, 101, 114, 101, 32, 121, 111]
    + [117, 114, 32, 115, 101, 99, 114, 101] + [116, 32, 109, 101, 115, 115, 97, 103]
    + [101, 32, 119, 105, 108, 108, 32, 98] + [101, 33]

  /** An ASCII string's bytes are its character codes. */
  lemma AsciiPiece(s: string, b: seq<u8>)
    requires |s| == |b| && forall i :: 0 <= i < |s| ==> s[i] as int == b[i] < 0x80
    ensures AsBytes(s) == b
  {
    AsBytesAscii(s);
    assert forall i :: 0 <= i < |s| ==> AsBytes(s)[i] == b[i];
  }

  lemma MessagePrefix8()
    ensures |Message| == |MessageBytes| == 42
    ensures AsBytes(Message[..8]) == MessageBytes[..8]
  {
    AsciiPiece(Message[..8], MessageBytes[..8]);
  }

  lemma MessagePrefix16()
    ensures |Message| == |MessageBytes| == 42
    ensures AsBytes(Message[..16]) == MessageBytes[..16]
  {
    MessagePrefix8();
    AsciiPiece(Message[8..16], MessageBytes[8..16]);
    AsBytesAppend(Message[..8], Message[8..16]);
    assert Message[..8] + Message[8..16] == Message[..16];
    assert MessageBytes[..8] + MessageBytes[8..16] == MessageBytes[..16];
  }

  lemma MessagePrefix24()
    ensures |Message| == |MessageBytes| == 42
    ensures AsBytes(Message[..24]) == MessageBytes[..24]
  {
    MessagePrefix16();
    AsciiPiece(Message[16..24], MessageBytes[16..24]);
    AsBytesAppend(Message[..16], Message[16..24]);
    assert Message[..16] + Message[16..24] == Message[..24];
    assert MessageBytes[..16] + MessageBytes[16..24] == MessageBytes[..24];
  }

  lemma MessagePrefix32()
    ensures |Message| == |MessageBytes| == 42
    ensures AsBytes(Message[..32]) == MessageBytes[..32]
  {
    MessagePrefix24();
    AsciiPiece(Message[24..32], MessageBytes[24..32]);
    AsBytesAppend(Message[..24], Message[24..32]);
    assert Message[..24] + Message[24..32] == Message[..32];
    assert MessageBytes[..24] + MessageBytes[24..32] == MessageBytes[..32];
  }

  lemma MessagePrefix40()
    ensures |Message| == |MessageBytes| == 42
    ensures AsBytes(Message[..40]) == MessageBytes[..40]
  {
    MessagePrefix32();
    AsciiPiece(Message[32..40], MessageBytes[32..40]);
    AsBytesAppend(Message[..32], Message[32..40]);
    assert Message[..32] + Message[32..40] == Message[..40];
    assert MessageBytes[..32] + MessageBytes[32..40] == MessageBytes[..40];
  }

  lemma MessagePrefix42()
    ensures |Message| == |MessageBytes| == 42
    ensures AsBytes(Message[..42]) == MessageBytes[..42]
  {
    MessagePrefix40();
    AsciiPiece(Message[40..42], MessageBytes[40..42]);
    AsBytesAppend(Message[..40], Message[40..42]);
    assert Message[..40] + Message[40..42] == Message[..42];
    assert MessageBytes[..40] + MessageBytes[40..42] == MessageBytes[..42];
  }

  /** The bytes of the test message. */
  lemma MessageAsBytes()
    ensures AsBytes(Message) == MessageBytes
    ensures |MessageBytes| == 42
  {
    MessagePrefix42();
    assert Message[..42] == Message;
    assert MessageBytes[..42] == MessageBytes;
  }
  /** The tag "RuSt" and its bytes [82, 117, 83, 116]. */
  lemma RuStTag()
    ensures |AsBytes("RuSt")| == 4
    ensures ChunkType.FromStr("RuSt") == ChunkType.TryFrom([82, 117, 83, 116])
    ensures ChunkType.FromStr("RuSt") == Ok(ChunkType(82, 117, 83, 116))
  {
    AsciiPiece("RuSt", [82, 117, 83, 116]);
  }

  /**
   * `test_chunk_type_from_bytes`, `test_chunk_type_from_str` and
   * `test_chunk_type_string`: [82, 117, 83, 116] is accepted and its bytes
   * come back unchanged, "RuSt" parses to the same tag, and it displays as
   * "RuSt".
   */
  lemma ChunkTypeConstructionTests()
    ensures ChunkType.TryFrom([82, 117, 83, 116]).Ok?
    ensures ChunkType.TryFrom([82, 117, 83, 116]).value.Bytes() == [82, 117, 83, 116]
    ensures |AsBytes("RuSt")| == 4 && ChunkType.FromStr("RuSt") == ChunkType.TryFrom([82, 117, 83, 116])
    ensures ChunkType.FromStr("RuSt").value.ToString() == "RuSt"
  {
    RuStTag();
  }

  /** The flag tests on "RuSt": critical, not public, reserved bit valid, safe to copy, valid. */
  lemma RuStFlagTests()
    ensures |AsBytes("RuSt")| == 4 && ChunkType.FromStr("RuSt").Ok?
    ensures var t := ChunkType.FromStr("RuSt").value;
      t.IsCritical() && !t.IsPublic() && t.IsReservedBitValid() && t.IsSafeToCopy() && t.IsValid()
  {
    RuStTag();
  }

  /** `test_chunk_type_is_not_critical`: "ruSt" is not critical. */
  lemma NotCriticalTest()
    ensures |AsBytes("ruSt")| == 4 && ChunkType.FromStr("ruSt").Ok?
    ensures !ChunkType.FromStr("ruSt").value.IsCritical()
  {
    AsciiPiece("ruSt", [114, 117, 83, 116]);
  }

  /** `test_chunk_type_is_public`: "RUSt" is public. */
  lemma PublicTest()
    ensures |AsBytes("RUSt")| == 4 && ChunkType.FromStr("RUSt").Ok?
    ensures ChunkType.FromStr("RUSt").value.IsPublic()
  {
    AsciiPiece("RUSt", [82, 85, 83, 116]);
  }

  /**
   * `test_chunk_type_is_reserved_bit_invalid` and `test_invalid_chunk_is_valid`:
   * "Rust" has an invalid reserved bit and is not valid, and "Ru1t" is rejected.
   */
  lemma InvalidTagTests()
    ensures |AsBytes("Rust")| == 4 && ChunkType.FromStr("Rust").Ok?
    ensures !ChunkType.FromStr("Rust").value.IsReservedBitValid() && !ChunkType.FromStr("Rust").value.IsValid()
    ensures |AsBytes("Ru1t")| == 4 && ChunkType.FromStr("Ru1t") == Err(ChunkTypeError)
  {
    AsciiPiece("Rust", [82, 117, 115, 116]);
    AsciiPiece("Ru1t", [82, 117, 49, 116]);
  }

  /** `test_chunk_type_is_unsafe_to_copy`: "RuST" is not safe to copy. */
  lemma UnsafeToCopyTest()
    ensures |AsBytes("RuST")| == 4 && ChunkType.FromStr("RuST").Ok?
    ensures !ChunkType.FromStr("RuST").value.IsSafeToCopy()
  {
    AsciiPiece("RuST", [82, 117, 83, 84]);
  }

  /** The CRC of "RuSt" followed by the message bytes is 2882656334. */
  lemma TestCrc()
    ensures Checksum([82, 117, 83, 116] + AsBytes(Message)) == 2882656334
  {
    MessageAsBytes();
    var s := [82, 117, 83, 116] + AsBytes(Message);
    assert s[4..] == MessageBytes;
    assert IsTestInput(s);
    TestInputChecksum(s);
  }

  /** `test_new_chunk`: the new "RuSt" chunk of the message has length 42 and CRC 2882656334. */
  lemma NewChunkTest()
    ensures |AsBytes("RuSt")| == 4 && ChunkType.FromStr("RuSt").Ok?
    ensures var c := Chunk.New(ChunkType.FromStr("RuSt").value, AsBytes(Message));
      c.dataLength == 42 && c.crc == 2882656334
  {
    RuStTag();
    MessageAsBytes();
    TestCrc();
  }

  /** The record built by the chunk tests: length 42, "RuSt", the message, then `crc`. */
  function TestRecord(crc: u32): (r: seq<u8>)
    ensures |r| == 54
  {
    MessageAsBytes();
    AsciiPiece("RuSt", [82, 117, 83, 116]);
    ToBeBytes(42) + AsBytes("RuSt") + AsBytes(Message) + ToBeBytes(crc)
  }

  /**
   * `testing_chunk` and `test_valid_chunk_from_bytes`: the record with CRC
   * 2882656334 decodes to length 42, type "RuSt", the message and that CRC.
   */
  lemma ValidChunkFromBytesTest()
    ensures |TestRecord(2882656334)| >= 4
    ensures forall i :: 4 <= i < 8 ==> IsAsciiAlphabetic(TestRecord(2882656334)[i])
    ensures var r := Chunk.TryFrom(TestRecord(2882656334));
      && r.Ok?
      && r.value.dataLength == 42
      && r.value.chunkType.ToString() == "RuSt"
      && r.value.data == AsBytes(Message)
      && r.value.crc == 2882656334
  {
    RuStTag();
    TestCrc();
    var c := Chunk(42, ChunkType(82, 117, 83, 116), AsBytes(Message), 2882656334);
    assert c.AsBytes() == TestRecord(2882656334);
    DecodeAsBytes(c);
  }

  /** `test_invalid_chunk_from_bytes`: the same record with CRC 2882656333 is rejected. */
  lemma InvalidChunkFromBytesTest()
    ensures |TestRecord(2882656333)| >= 4
    ensures forall i :: 4 <= i < 8 ==> IsAsciiAlphabetic(TestRecord(2882656333)[i])
    ensures Chunk.TryFrom(TestRecord(2882656333)) == Err(CRCError)
  {
    RuStTag();
    TestCrc();
    var c := Chunk(42, ChunkType(82, 117, 83, 116), AsBytes(Message), 2882656333);
    assert c.AsBytes() == TestRecord(2882656333);
    DecodeAsBytes(c);
  }
}
