/**
 * One chunk record (section 5.3 of the PNG specification, W3C PNG Second
 * Edition): a big-endian 32-bit length, the 4-byte type, the data, and a
 * big-endian 32-bit CRC of the type and data bytes.
 */
module Chunks {
  import opened Utils
  import opened Errors
  import opened Text
  import opened Crc
  import opened ChunkTypes

  /**
   * `Chunk { data_length, chunk_type, data, crc }`. No field is updated after
   * construction; the field selectors are the accessors `length()`,
   * `chunk_type()`, `data()` and `crc()`.
   */
  datatype Chunk = Chunk(dataLength: u32, chunkType: ConstructedChunkType, data: seq<u8>, crc: u32)
  {
    /**
     * `as_bytes`: the length field, the type's display bytes, the data and
     * the CRC field, in that order.
     */
    function AsBytes(): (r: seq<u8>)
      ensures |r| == 12 + |data|
      ensures r[..4] == ToBeBytes(dataLength)
      ensures r[4..8] == chunkType.Bytes()
      ensures r[8..|r| - 4] == data
      ensures r[|r| - 4..] == ToBeBytes(crc)
    {
      ToBeBytes(dataLength) + Text.AsBytes(chunkType.ToString()) + data + ToBeBytes(crc)
    }

    /**
     * `Chunk::new`: the length is `data.len() as u32` (the count modulo 2^32)
     * and the CRC is taken over the type's display bytes followed by the data.
     */
    static function New(chunkType: ConstructedChunkType, data: seq<u8>): (c: Chunk)
      ensures c.chunkType == chunkType && c.data == data
      ensures |data| < 0x1_0000_0000 ==> c.dataLength == |data|
      ensures c.dataLength == |data| % 0x1_0000_0000
      ensures c.crc == Checksum(chunkType.Bytes() + data)
    {
      var crcSource := Text.AsBytes(chunkType.ToString()) + data;
      Chunk(|data| % 0x1_0000_0000, chunkType, data, Checksum(crcSource))
    }

    /**
     * `TryFrom<&[u8]>`: decode one whole record.
     *
     * The source slices `value[0..4]` and `value[len - 4..]` before testing
     * the length, so fewer than four bytes panic (first precondition). Then
     * fewer than twelve bytes give `ChunkError`; a trailing CRC field that
     * differs from the CRC of `value[4..len - 4]` gives `CRCError`; and only
     * then are the type bytes converted, with an `unwrap()` that panics if
     * they are not letters (second precondition). The length field is
     * copied, never compared with the size of the data.
     */
    static function TryFrom(value: seq<u8>): (r: Result<Chunk>)
      requires |value| >= 4
      requires CrcFieldMatches(value) ==> forall i :: 4 <= i < 8 ==> IsAsciiAlphabetic(value[i])
      ensures r.Err? ==> (r.error == ChunkError <==> |value| < 12)
      ensures r.Err? ==> (r.error == CRCError <==> |value| >= 12 && !CrcFieldMatches(value))
      ensures r.Err? ==> r.error == ChunkError || r.error == CRCError
      ensures r.Ok? <==> CrcFieldMatches(value)
      ensures r.Ok? ==> && r.value.dataLength == ReadBeU32(value[..4])
                        && r.value.chunkType.Bytes() == value[4..8]
                        && r.value.data == value[8..|value| - 4]
                        && r.value.crc == ReadBeU32(value[|value| - 4..])
    {
      var len := value[0..4];
      var crc := value[|value| - 4..];
      if |value| / 12 == 0 then
        Err(ChunkError)
      else if ReadBeU32(crc) != Checksum(value[4..|value| - 4]) then
        Err(CRCError)
      else
        var chunkType := ChunkType.TryFrom(value[4..8]);
        Ok(Chunk(ReadBeU32(len), chunkType.value, value[8..|value| - 4], ReadBeU32(crc)))
    }
  }

  /**
   * The record is long enough for its fixed fields and its trailing CRC
   * field equals the CRC of the bytes between the length field and it.
   */
  predicate CrcFieldMatches(value: seq<u8>) {
    |value| >= 12 && ReadBeU32(value[|value| - 4..]) == Checksum(value[4..|value| - 4])
  }

  /**
   * Decoding the bytes of any chunk: the record is accepted exactly when the
   * chunk's CRC field is the CRC of its type and data, and then the chunk
   * comes back unchanged, whatever its length field says; otherwise decoding
   * reports `CRCError`.
   */
  lemma DecodeAsBytes(c: Chunk)
    ensures |c.AsBytes()| >= 12
    ensures forall i :: 4 <= i < 8 ==> IsAsciiAlphabetic(c.AsBytes()[i])
    ensures CrcFieldMatches(c.AsBytes()) <==> c.crc == Checksum(c.chunkType.Bytes() + c.data)
    ensures Chunk.TryFrom(c.AsBytes()) == if c.crc == Checksum(c.chunkType.Bytes() + c.data)
                                           then Ok(c) else Err(CRCError)
  {
    var v := c.AsBytes();
    var t := c.chunkType;
    assert v[4..8] == t.Bytes();
    assert forall i :: 4 <= i < 8 ==> v[i] == t.Bytes()[i - 4];
    assert v[4..|v| - 4] == t.Bytes() + c.data by {
      assert v[4..|v| - 4] == v[4..8] + v[8..|v| - 4];
    }
    FromBeBytesInverse(ToBeBytes(c.dataLength));
    ReadBeU32OfToBeBytes(c.dataLength, v[4..]);
    assert v == ToBeBytes(c.dataLength) + v[4..];
    ReadBeU32OfToBeBytes(c.crc, []);
    assert v[|v| - 4..] == ToBeBytes(c.crc) + [];
    var r := Chunk.TryFrom(v);
    if r.Ok? {
      assert r.value.chunkType.Bytes() == t.Bytes();
      assert r.value.chunkType.Eq(t);
    }
  }

  /**
   * Round trip from a new chunk: encoding `Chunk::new(t, d)` and decoding the
   * bytes succeeds and gives back the same length, type, data and CRC.
   */
  lemma NewRoundTrip(t: ConstructedChunkType, d: seq<u8>)
    ensures var c := Chunk.New(t, d);
      && |c.AsBytes()| >= 4
      && (forall i :: 4 <= i < 8 ==> IsAsciiAlphabetic(c.AsBytes()[i]))
      && Chunk.TryFrom(c.AsBytes()) == Ok(c)
  {
    DecodeAsBytes(Chunk.New(t, d));
  }

  /**
   * Round trip from bytes: whenever a record decodes, encoding the result
   * reproduces the record byte for byte.
   */
  lemma BytesRoundTrip(value: seq<u8>)
    requires |value| >= 4
    requires CrcFieldMatches(value) ==> forall i :: 4 <= i < 8 ==> IsAsciiAlphabetic(value[i])
    requires Chunk.TryFrom(value).Ok?
    ensures Chunk.TryFrom(value).value.AsBytes() == value
  {
    var c := Chunk.TryFrom(value).value;
    var v := c.AsBytes();
    assert |v| == |value|;
    assert v[..4] == value[..4];
    assert v[4..8] == value[4..8];
    assert v[8..|v| - 4] == value[8..|value| - 4];
    assert v[|v| - 4..] == value[|value| - 4..];
    assert v == v[..4] + v[4..8] + v[8..|v| - 4] + v[|v| - 4..];
    assert value == value[..4] + value[4..8] + value[8..|value| - 4] + value[|value| - 4..];
  }
}
