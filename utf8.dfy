/** UTF-8 encoding of text, as Python's `str.encode()` with its default codec. */
module Utf8 {
  import opened Bytes

  /** The one to four octets UTF-8 uses for one Unicode scalar value. */
  function EncodeChar(c: char): (r: seq<byte>)
    ensures 1 <= |r| <= 4
    ensures (|r| == 1) == (c as int < 0x80)
    ensures |r| == 1 ==> r[0] == c as int
  {
    var cp := c as int;
    if cp < 0x80 then [cp]
    else if cp < 0x800 then [0xC0 + cp / 0x40, 0x80 + cp % 0x40]
    else if cp < 0x1_0000 then [0xE0 + cp / 0x1000, 0x80 + cp / 0x40 % 0x40, 0x80 + cp % 0x40]
    else [0xF0 + cp / 0x4_0000, 0x80 + cp / 0x1000 % 0x40, 0x80 + cp / 0x40 % 0x40, 0x80 + cp % 0x40]
  }

  function Encode(s: string): (r: seq<byte>)
    ensures |s| <= |r| <= 4 * |s|
    decreases |s|
  {
    if |s| == 0 then [] else EncodeChar(s[0]) + Encode(s[1..])
  }

  predicate IsAscii(s: string) {
    forall i :: 0 <= i < |s| ==> s[i] as int < 0x80
  }

  /** Encoding distributes over concatenation, so `u + ":" + p` encodes piecewise. */
  lemma {:induction false} EncodeConcat(s: string, t: string)
    ensures Encode(s + t) == Encode(s) + Encode(t)
    decreases |s|
  {
    if |s| == 0 {
      assert s + t == t;
    } else {
      assert (s + t)[0] == s[0] && (s + t)[1..] == s[1..] + t;
      EncodeConcat(s[1..], t);
    }
  }

  /** ASCII text encodes to its own code points, one octet per character. */
  lemma {:induction false} EncodeAscii(s: string)
    requires IsAscii(s)
    ensures |Encode(s)| == |s|
    ensures forall i :: 0 <= i < |s| ==> Encode(s)[i] == s[i] as int
    decreases |s|
  {
    if |s| > 0 {
      EncodeAscii(s[1..]);
    }
  }

  lemma EncodeOne(c: char)
    ensures Encode([c]) == EncodeChar(c)
  {
  }
}
