/**
 * The 4-byte chunk type tag (section 5.4 of the PNG specification, W3C PNG
 * Second Edition). Each of the four bytes is an ASCII letter, and bit 5 of
 * each byte (the letter's case) carries one property flag.
 */
module ChunkTypes {
  import opened Utils
  import opened Errors
  import opened Text

  /** `u8::is_ascii_uppercase`: 'A' ..= 'Z'. */
  predicate IsAsciiUppercase(b: u8) {
    0x41 <= b <= 0x5A
  }

  /** `u8::is_ascii_lowercase`: 'a' ..= 'z'. */
  predicate IsAsciiLowercase(b: u8) {
    0x61 <= b <= 0x7A
  }

  /** `u8::is_ascii_alphabetic`. */
  predicate IsAsciiAlphabetic(b: u8) {
    IsAsciiUppercase(b) || IsAsciiLowercase(b)
  }

  /** A character that is an ASCII letter. */
  predicate IsLetterChar(c: char) {
    'A' <= c <= 'Z' || 'a' <= c <= 'z'
  }

  /** Bit 5 (value 0x20) of a byte. */
  function Bit5(b: u8): (r: int)
    ensures r == 0 || r == 1
  {
    (b / 0x20) % 2
  }

  /**
   * The loop of `try_from`: scanning the bytes from index `i` on, every byte
   * is a letter (the scan returns early at the first one that is not).
   */
  predicate LettersFrom(value: seq<u8>, i: nat)
    requires i <= |value|
    ensures LettersFrom(value, i) <==> forall j :: i <= j < |value| ==> IsAsciiAlphabetic(value[j])
    decreases |value| - i
  {
    i == |value| || (IsAsciiAlphabetic(value[i]) && LettersFrom(value, i + 1))
  }

  /**
   * `ChunkType(u8, u8, u8, u8)`. Its fields are private, so a value exists
   * only once `TryFrom` (or `FromStr`) has accepted it; `ConstructedChunkType`
   * below is that set of values.
   */
  datatype ChunkType = ChunkType(b0: u8, b1: u8, b2: u8, b3: u8)
  {
    /** `bytes()`: the four bytes in order. */
    function Bytes(): (r: seq<u8>)
      ensures |r| == 4
    {
      [b0, b1, b2, b3]
    }

    /** `is_critical`: byte 0 is uppercase, so its bit 5 is clear. */
    function IsCritical(): (r: bool)
      ensures !IsErr() ==> (r <==> Bit5(b0) == 0)
    {
      CaseIsBit5(b0);
      IsAsciiUppercase(b0)
    }

    /** `is_public`: byte 1 is uppercase, so its bit 5 is clear. */
    function IsPublic(): (r: bool)
      ensures !IsErr() ==> (r <==> Bit5(b1) == 0)
    {
      CaseIsBit5(b1);
      IsAsciiUppercase(b1)
    }

    /** `is_reserved_bit_valid`: byte 2 is uppercase, so its bit 5 is clear. */
    function IsReservedBitValid(): (r: bool)
      ensures !IsErr() ==> (r <==> Bit5(b2) == 0)
    {
      CaseIsBit5(b2);
      IsAsciiUppercase(b2)
    }

    /** `is_safe_to_copy`: byte 3 is lowercase, so its bit 5 is set. */
    function IsSafeToCopy(): (r: bool)
      ensures !IsErr() ==> (r <==> Bit5(b3) == 1)
    {
      CaseIsBit5(b3);
      IsAsciiLowercase(b3)
    }

    /** `is_valid`: only the reserved bit is checked. */
    function IsValid(): (r: bool)
      ensures !IsErr() ==> (r <==> Bit5(b2) == 0)
    {
      IsReservedBitValid()
    }

    /** `is_err`: some byte is not an ASCII letter. */
    function IsErr(): (r: bool)
      ensures r <==> exists i :: 0 <= i < 4 && !IsAsciiAlphabetic(Bytes()[i])
    {
      assert Bytes()[0] == b0 && Bytes()[1] == b1 && Bytes()[2] == b2 && Bytes()[3] == b3;
      !(IsAsciiAlphabetic(b0) && IsAsciiAlphabetic(b1) && IsAsciiAlphabetic(b2) && IsAsciiAlphabetic(b3))
    }

    /** `PartialEq::eq`: byte-wise, case-sensitive comparison. */
    function Eq(other: ChunkType): (r: bool)
      ensures r <==> Bytes() == other.Bytes()
      ensures r <==> this == other
    {
      assert Bytes() == other.Bytes() ==>
        (forall i :: 0 <= i < 4 ==> Bytes()[i] == other.Bytes()[i]);
      b0 == other.b0 && b1 == other.b1 && b2 == other.b2 && b3 == other.b3
    }

    /**
     * `Display` (`to_string()`): `String::from_utf8(bytes).unwrap()`. The
     * unwrap cannot fail on a constructed tag, whose bytes are letters.
     */
    function ToString(): (s: string)
      requires !IsErr()
      ensures |s| == 4
      ensures AsBytes(s) == Bytes()
    {
      var s := [b0 as char, b1 as char, b2 as char, b3 as char];
      AsBytesAscii(s);
      s
    }

    /**
     * `TryFrom<[u8; 4]>`: accepted exactly when all four bytes are ASCII
     * letters, otherwise `ChunkTypeError`.
     */
    static function TryFrom(value: seq<u8>): (r: Result<ConstructedChunkType>)
      requires |value| == 4
      ensures r.Ok? <==> forall i :: 0 <= i < 4 ==> IsAsciiAlphabetic(value[i])
      ensures r.Ok? ==> r.value.Bytes() == value
      ensures r.Err? ==> r.error == ChunkTypeError
    {
      if LettersFrom(value, 0) then Ok(ChunkType(value[0], value[1], value[2], value[3]))
      else Err(ChunkTypeError)
    }

    /**
     * `FromStr`: the UTF-8 bytes of `s` converted to `[u8; 4]` with
     * `unwrap()`, which panics unless there are exactly four bytes (the
     * precondition), then `TryFrom`. Accepted exactly when `s` is four ASCII
     * letters, and then the tag displays as `s`.
     */
    static function FromStr(s: string): (r: Result<ConstructedChunkType>)
      requires |AsBytes(s)| == 4
      ensures r.Ok? <==> |s| == 4 && forall i :: 0 <= i < 4 ==> IsLetterChar(s[i])
      ensures r.Ok? ==> r.value.ToString() == s
      ensures r.Err? ==> r.error == ChunkTypeError
    {
      var value := AsBytes(s);
      AsBytesAscii(s);
      assert (forall i :: 0 <= i < 4 ==> IsAsciiAlphabetic(value[i])) ==> forall i :: 0 <= i < |value| ==> value[i] < 0x80;
      TryFrom(value)
    }
  }

  /** The tags that construction admits: all four bytes are letters. */
  type ConstructedChunkType = t: ChunkType | !t.IsErr() witness ChunkType(0x52, 0x75, 0x53, 0x74)

  /**
   * The case of an ASCII letter is its bit 5: clear for uppercase, set for
   * lowercase.
   */
  lemma CaseIsBit5(b: u8)
    ensures IsAsciiUppercase(b) ==> Bit5(b) == 0
    ensures IsAsciiLowercase(b) ==> Bit5(b) == 1
  {
    if IsAsciiUppercase(b) {
      assert b / 0x20 == 2;
    } else if IsAsciiLowercase(b) {
      assert b / 0x20 == 3;
    }
  }

  /**
   * A string's UTF-8 encoding has one byte per character exactly when every
   * character is ASCII. So a four-character string with a non-ASCII
   * character has more than four bytes, and `FromStr` panics on it rather
   * than returning an error.
   */
  lemma {:induction false} AsBytesOnePerChar(s: string)
    ensures |AsBytes(s)| == |s| <==> forall i :: 0 <= i < |s| ==> IsAscii(s[i])
  {
    if |s| > 0 {
      AsBytesOnePerChar(s[1..]);
      assert AsBytes(s) == EncodeChar(s[0]) + AsBytes(s[1..]);
      assert (forall i :: 0 <= i < |s| ==> IsAscii(s[i]))
        <==> IsAscii(s[0]) && forall i :: 0 <= i < |s[1..]| ==> IsAscii(s[1..][i]);
    }
  }

  /** Displaying a tag and parsing the string again gives the same tag. */
  lemma DisplayRoundTrip(t: ConstructedChunkType)
    ensures |AsBytes(t.ToString())| == 4
    ensures ChunkType.FromStr(t.ToString()) == Ok(t)
  {
  }
}
