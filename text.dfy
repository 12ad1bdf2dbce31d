/**
 * Rust strings as bytes: `str::as_bytes` gives the UTF-8 encoding of the
 * string's characters (Unicode scalar values).
 */
module Text {
  import opened Utils

  /** The UTF-8 encoding of one scalar value: one to four bytes. */
  function EncodeChar(c: char): (r: seq<u8>)
    ensures 1 <= |r| <= 4
    ensures (c as int < 0x80) == (|r| == 1)
    ensures c as int < 0x80 ==> r == [c as int]
    ensures c as int >= 0x80 ==> forall i :: 0 <= i < |r| ==> r[i] >= 0x80
  {
    var cp := c as int;
    if cp < 0x80 then [cp]
    else if cp < 0x800 then [0xC0 + cp / 0x40, 0x80 + cp % 0x40]
    else if cp < 0x1_0000 then [0xE0 + cp / 0x1000, 0x80 + (cp / 0x40) % 0x40, 0x80 + cp % 0x40]
    else [0xF0 + cp / 0x4_0000, 0x80 + (cp / 0x1000) % 0x40, 0x80 + (cp / 0x40) % 0x40, 0x80 + cp % 0x40]
  }

  /** `s.as_bytes()`: the concatenated encodings of the characters of `s`. */
  function AsBytes(s: string): (r: seq<u8>)
    ensures |r| >= |s|
  {
    if |s| == 0 then [] else EncodeChar(s[0]) + AsBytes(s[1..])
  }

  /** A character in the ASCII range, encoded as the single byte of its code. */
  predicate IsAscii(c: char) {
    c as int < 0x80
  }

  /**
   * A string's bytes are all below 0x80 exactly when every character is
   * ASCII, and then the bytes are the character codes, one per character.
   */
  lemma {:induction false} AsBytesAscii(s: string)
    ensures (forall i :: 0 <= i < |AsBytes(s)| ==> AsBytes(s)[i] < 0x80)
        <==> (forall i :: 0 <= i < |s| ==> IsAscii(s[i]))
    ensures (forall i :: 0 <= i < |s| ==> IsAscii(s[i])) ==>
              |AsBytes(s)| == |s| && forall i :: 0 <= i < |s| ==> AsBytes(s)[i] == s[i] as int
  {
    if |s| > 0 {
      AsBytesAscii(s[1..]);
      var head, tail := EncodeChar(s[0]), AsBytes(s[1..]);
      assert AsBytes(s) == head + tail;
      if IsAscii(s[0]) {
        assert forall i :: 1 <= i < |AsBytes(s)| ==> AsBytes(s)[i] == tail[i - 1];
        assert forall i :: 0 <= i < |tail| ==> tail[i] == AsBytes(s)[i + 1];
        assert (forall i :: 0 <= i < |s| ==> IsAscii(s[i])) <==> (forall i :: 0 <= i < |s[1..]| ==> IsAscii(s[1..][i]));
      } else {
        assert AsBytes(s)[0] == head[0] >= 0x80;
      }
    }
  }

  /** The bytes of `s + t` are the bytes of `s` followed by those of `t`. */
  lemma {:induction false} AsBytesAppend(s: string, t: string)
    ensures AsBytes(s + t) == AsBytes(s) + AsBytes(t)
    decreases |s|
  {
    if |s| > 0 {
      assert (s + t)[1..] == s[1..] + t;
      AsBytesAppend(s[1..], t);
    } else {
      assert s + t == t;
    }
  }
}
