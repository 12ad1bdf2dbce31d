# pngme chunk codec

This project models the chunk codec of `pngme`, a small tool that hides text messages in PNG files. The model covers two pieces:

- **The chunk type.** A chunk type is a 4-byte tag made of ASCII letters. The case of each letter carries a flag: critical, public, reserved bit, safe to copy.
- **The chunk record.** On the wire a chunk is:
  - a big-endian 32-bit length;
  - the four type bytes;
  - the data;
  - a big-endian 32-bit CRC of the type bytes followed by the data.

  The model covers the encoder (`Chunk::new`, `as_bytes`) and the decoder (`TryFrom<&[u8]>`).

This layout is the one in sections 5.3 to 5.5 of the PNG specification (W3C PNG Second Edition).

Everything in the core is pure, so the model is made of datatypes, functions and lemmas. The modules are:

- `Errors`: the `PngError` variants and a `Result` type.
- `Utils`: the `u8`/`u32` types, `u32::to_be_bytes`, `u32::from_be_bytes` and `read_be_u32`.
- `Text`: `str::as_bytes`, the UTF-8 encoding of a string's characters.
- `Crc`: CRC-32/ISO-HDLC, written as the bit-at-a-time reflected CRC.
  - Polynomial 0xEDB88320.
  - Register preset to 0xFFFFFFFF and complemented at the end.
  - This is the algorithm of section 5.5 of the PNG specification and of the `crc` crate's `CRC_32_ISO_HDLC`.
- `CrcTestVector`: the CRC of the test input ("RuSt" followed by the test message), worked out one byte at a time.
- `ChunkTypes`: `ChunkType` and its methods.
  - A tag exists only once `try_from` or `from_str` has accepted it, because the Rust struct's fields are private.
  - The subset type `ConstructedChunkType` (all four bytes are letters) records that invariant.
- `Chunks`: `Chunk`, its constructor, its encoder and its decoder, and the round-trip lemmas.
- `SourceTests`: the unit tests of `chunk_type.rs` and `chunk.rs`, stated as lemmas.

Where the Rust code panics, the model has a precondition. This applies in five places:

- `read_be_u32` on fewer than 4 bytes.
- The decoder on fewer than 4 bytes. It slices the length and CRC fields before its length test.
- The decoder's `unwrap` of the type bytes when the CRC matches but those bytes are not letters.
- `from_str` when the string is not exactly 4 bytes of UTF-8.
- `Display` of a tag, whose `String::from_utf8(..).unwrap()` (src/chunk_type.rs:96) needs the bytes to be valid UTF-8. The model requires the tag to be all letters, which every tag the code can build is.

The decoder tests in this order:

1. Fewer than 12 bytes give `ChunkError`.
2. A mismatching CRC gives `CRCError`.
3. Only then are the type bytes converted.

The length field is copied as it is. It is never compared with the size of the data, and `Chunks.DecodeAsBytes` shows that a record whose length field is wrong still decodes.

The test message ("This is where your secret message will be!") is 42 bytes, and the chunk tests assert a length of 42 (src/chunk.rs:110, 138). Input under 4 bytes, a tag string that is not exactly 4 bytes, and non-letter type bytes after a matching CRC all panic. A 4-byte tag string that is not all letters, such as "Ru1t", gives `Err(ChunkTypeError)`.

## Model

| member | source | states |
|---|---|---|
| Utils.ReadBeU32 | src/utils.rs:1-4 | Needs at least four bytes; the result is b0·2^24 + b1·2^16 + b2·2^8 + b3 of the first four bytes only; its big-endian bytes are the first four input bytes. The private copy at src/chunk.rs:96-99 is the same function |
| Utils.FromBeBytesInverse | src/utils.rs:3 | `u32::from_be_bytes` followed by `to_be_bytes` gives back the four bytes |
| Utils.ReadBeU32OfToBeBytes | src/utils.rs:1-4 | Reading back `to_be_bytes(x)` followed by any bytes gives `x` |
| Text.EncodeChar | src/chunk_type.rs:80 | One to four UTF-8 bytes per character; exactly one byte, its code, for an ASCII character; all bytes at least 0x80 otherwise |
| Text.AsBytesAscii | src/chunk_type.rs:96 | A string's bytes are all ASCII exactly when its characters are; then they are the character codes, one per character |
| Text.AsBytesAppend | src/chunk.rs:112 | The bytes of a concatenation are the concatenation of the bytes |
| ChunkTypes.ChunkType.Bytes | src/chunk_type.rs:20-22 | Exactly four bytes. That they are the tag's bytes in order is stated by `ChunkTypes.ChunkType.TryFrom` (the accepted tag's `Bytes()` is the input) and `ChunkTypes.ChunkType.Eq` |
| ChunkTypes.CaseIsBit5 | src/chunk_type.rs:24-26 | An uppercase ASCII letter has bit 5 clear, a lowercase one has it set |
| ChunkTypes.ChunkType.IsCritical | src/chunk_type.rs:27-29 | For a constructed tag: critical exactly when bit 5 of byte 0 is clear (uppercase) |
| ChunkTypes.ChunkType.IsPublic | src/chunk_type.rs:34-36 | For a constructed tag: public exactly when bit 5 of byte 1 is clear (uppercase) |
| ChunkTypes.ChunkType.IsReservedBitValid | src/chunk_type.rs:40-42 | For a constructed tag: the reserved bit is valid exactly when bit 5 of byte 2 is clear (uppercase) |
| ChunkTypes.ChunkType.IsSafeToCopy | src/chunk_type.rs:47-49 | For a constructed tag: safe to copy exactly when bit 5 of byte 3 is set (lowercase) |
| ChunkTypes.ChunkType.IsValid | src/chunk_type.rs:50-52 | For a constructed tag: valid exactly when the reserved bit (bit 5 of byte 2) is clear |
| ChunkTypes.ChunkType.IsErr | src/chunk_type.rs:54-59 | True exactly when some one of the four bytes is not an ASCII letter |
| ChunkTypes.LettersFrom | src/chunk_type.rs:66-71 | The early-return scan succeeds exactly when every remaining byte is an ASCII letter |
| ChunkTypes.ChunkType.TryFrom | src/chunk_type.rs:65-73 | Ok exactly when all four bytes are ASCII letters, with those bytes in order; otherwise `ChunkTypeError`. Every accepted tag satisfies `!is_err()` |
| ChunkTypes.ChunkType.FromStr | src/chunk_type.rs:79-82 | Needs a 4-byte UTF-8 string; Ok exactly when it is four ASCII letters, and the tag then displays as the input string; otherwise `ChunkTypeError` |
| ChunkTypes.AsBytesOnePerChar | src/chunk_type.rs:80-81 | A string has one byte per character exactly when it is all ASCII, so a four-character string with a non-ASCII character is not 4 bytes and makes `from_str` panic |
| ChunkTypes.ChunkType.Eq | src/chunk_type.rs:85-92 | Equal exactly when the byte sequences are equal, which is exactly value equality of the tags |
| ChunkTypes.ChunkType.ToString | src/chunk_type.rs:94-98 | The display string has four characters whose UTF-8 bytes are exactly `bytes()` |
| ChunkTypes.DisplayRoundTrip | src/chunk_type.rs:79-98 | Parsing the display string of a tag gives back the same tag |
| Chunks.Chunk.New | src/chunk.rs:20-31 | Keeps the type and data; the length is the data size as `u32` (the size modulo 2^32, so the size itself below 2^32); the CRC is CRC-32 of the type bytes followed by the data |
| Chunks.Chunk.AsBytes | src/chunk.rs:48-55 | Gives `12 + |data|` bytes: the big-endian length, the type bytes, the data, then the big-endian CRC |
| Chunks.Chunk.TryFrom | src/chunk.rs:61-80 | Needs 4 bytes, and letters as type bytes whenever the CRC matches. Gives `ChunkError` exactly for fewer than 12 bytes and `CRCError` exactly for a CRC mismatch, and no other error. Succeeds exactly when the CRC matches, with length = be32(v[0..4]), type = v[4..8], data = v[8..len-4] and crc = be32(v[len-4..]) |
| Chunks.DecodeAsBytes | src/chunk.rs:61-80 | Decoding any chunk's bytes succeeds exactly when its CRC field is the CRC of its type and data, and returns the chunk unchanged whatever its length field says; otherwise it gives `CRCError` |
| Chunks.NewRoundTrip | src/chunk.rs:20-80 | Decoding the bytes of `Chunk::new(t, d)` gives back that chunk (length, type, data and CRC) |
| Chunks.BytesRoundTrip | src/chunk.rs:48-76 | Whenever decoding succeeds, encoding the result reproduces the input byte for byte |
| CrcTestVector.TestInputChecksum | src/chunk.rs:113 | The CRC-32 of "RuSt" followed by the test message is 2882656334 |
| SourceTests.MessageAsBytes | src/chunk.rs:112 | The test message is the given 42 ASCII bytes |
| SourceTests.RuStTag | src/chunk_type.rs:122-126 | "RuSt" is 4 bytes, and parsing it equals `try_from([82, 117, 83, 116])`, which is Ok |
| SourceTests.ChunkTypeConstructionTests | src/chunk_type.rs:113-126 | `[82, 117, 83, 116]` is accepted and its bytes come back unchanged; "RuSt" parses to the same tag and displays as "RuSt" |
| SourceTests.RuStFlagTests | src/chunk_type.rs:128-180 | "RuSt" is critical, not public, has a valid reserved bit, is safe to copy and is valid |
| SourceTests.NotCriticalTest | src/chunk_type.rs:134-138 | "ruSt" is not critical |
| SourceTests.PublicTest | src/chunk_type.rs:140-144 | "RUSt" is public |
| SourceTests.InvalidTagTests | src/chunk_type.rs:158-189 | "Rust" has an invalid reserved bit and is not valid; "Ru1t" is rejected with `ChunkTypeError` |
| SourceTests.UnsafeToCopyTest | src/chunk_type.rs:170-174 | "RuST" is not safe to copy |
| SourceTests.TestCrc | src/chunk.rs:136-139 | The CRC of the "RuSt" bytes followed by the message bytes is 2882656334 |
| SourceTests.NewChunkTest | src/chunk.rs:134-140 | The new "RuSt" chunk of the message has length 42 and CRC 2882656334 |
| SourceTests.TestRecord | src/chunk.rs:177-184 | The test record is 54 bytes long |
| SourceTests.ValidChunkFromBytesTest | src/chunk.rs:171-195 | The test record with CRC 2882656334 decodes to length 42, type "RuSt", the message bytes and CRC 2882656334 |
| SourceTests.InvalidChunkFromBytesTest | src/chunk.rs:198-216 | The same record with CRC 2882656333 is rejected with `CRCError` |

## Left out

- The `Png` container and the commands (signature check, append, remove, search by type) are not part of this model. They live in src/png.rs and src/commands.rs.
- Command-line parsing (src/args.rs) and dispatch with file and console I/O (src/main.rs) are left out. They hold no codec logic.
- The `IOError(io::Error)` variant of `PngError` is left out because it wraps a foreign I/O error. The other five variants are modelled.
- `Chunk::data_as_string` is left out because it needs UTF-8 decoding, which is not modelled. The tests' check of the decoded message is stated on the data bytes instead.
- The `Display` impl of `Chunk` is left out because it is text formatting with `from_utf8_lossy`. So are the tests that only format values (`test`, `test_chunk_type_trait_impls`, `test_chunk_trait_impls`).
- The accessors `length()`, `chunk_type()`, `data()` and `crc()` are the datatype's field selectors and have no member of their own.
- The `crc` crate's table-driven implementation is replaced by the bit-at-a-time CRC with the same parameters. The model proves no general CRC properties beyond the test vector, such as error detection.
- ChunkTypes.ChunkType.ToString: requires a constructed tag (all letters) rather than any bytes valid as UTF-8. Only constructed tags exist in the source, so its `unwrap` cannot fail there.
- ChunkTypes.ChunkType.IsCritical, IsPublic, IsReservedBitValid, IsSafeToCopy, IsValid: the link to bit 5 is stated only for constructed tags. For other bytes the source's case test and bit 5 differ, and no such tag can be built.
