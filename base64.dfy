/**
 * The base64 encoding of section 4 of RFC 4648 (standard alphabet, `=`
 * padding), as Python's `base64.b64encode`, with a decoder as its inverse.
 */
module Base64 {
  import opened Wrappers
  import opened Bytes

  /** A 6-bit value, the index of one symbol of the alphabet. */
  type sextet = x: int | 0 <= x < 64

  const Pad: char := '='

  /** The alphabet of Table 1 of RFC 4648: `A`-`Z`, `a`-`z`, `0`-`9`, `+`, `/`. */
  predicate IsSymbol(c: char) {
    ('A' <= c <= 'Z') || ('a' <= c <= 'z') || ('0' <= c <= '9') || c == '+' || c == '/'
  }

  function Symbol(v: sextet): (c: char)
    ensures IsSymbol(c)
  {
    if v < 26 then ('A' as int + v) as char
    else if v < 52 then ('a' as int + (v - 26)) as char
    else if v < 62 then ('0' as int + (v - 52)) as char
    else if v == 62 then '+'
    else '/'
  }

  /** The value Table 1 gives a symbol; inverse of `Symbol`. */
  function SymbolValue(c: char): (v: sextet)
    requires IsSymbol(c)
    ensures Symbol(v) == c
  {
    if 'A' <= c <= 'Z' then c as int - 'A' as int
    else if 'a' <= c <= 'z' then c as int - 'a' as int + 26
    else if '0' <= c <= '9' then c as int - '0' as int + 52
    else if c == '+' then 62
    else 63
  }

  /** Padding symbols at the end of the encoding of `n` octets. */
  function PadCount(n: nat): nat {
    if n % 3 == 0 then 0 else 3 - n % 3
  }

  /** Four symbols for a full group of three octets. */
  function EncodeGroup(a: byte, b: byte, c: byte): (r: string)
    ensures |r| == 4 && forall i :: 0 <= i < 4 ==> IsSymbol(r[i])
  {
    [Symbol(a / 4), Symbol(a % 4 * 16 + b / 16), Symbol(b % 16 * 4 + c / 64), Symbol(c % 64)]
  }

  /** The padded encoding of a final group of one or two octets. */
  function EncodeTail(data: seq<byte>): (r: string)
    requires 1 <= |data| <= 2
    ensures |r| == 4
    ensures forall i :: 0 <= i < 4 ==> (r[i] == Pad) == (i >= 4 - PadCount(|data|))
    ensures forall i :: 0 <= i < 4 ==> IsSymbol(r[i]) || r[i] == Pad
  {
    if |data| == 1 then [Symbol(data[0] / 4), Symbol(data[0] % 4 * 16), Pad, Pad]
    else [Symbol(data[0] / 4), Symbol(data[0] % 4 * 16 + data[1] / 16), Symbol(data[1] % 16 * 4), Pad]
  }

  /**
   * The encoding of `data`: 4 * ceil(n / 3) characters, all from the alphabet
   * except for the padding, which is exactly the last PadCount(n) characters.
   */
  function Encode(data: seq<byte>): (r: string)
    ensures |r| == 4 * ((|data| + 2) / 3)
    ensures forall i :: 0 <= i < |r| ==> IsSymbol(r[i]) || r[i] == Pad
    ensures forall i :: 0 <= i < |r| ==> (r[i] == Pad) == (i >= |r| - PadCount(|data|))
    decreases |data|
  {
    if |data| == 0 then ""
    else if |data| <= 2 then EncodeTail(data)
    else
      var group, rest := EncodeGroup(data[0], data[1], data[2]), Encode(data[3..]);
      GroupThenShape(group, rest, |data| - 3);
      group + rest
  }

  /** A padded encoding of `n` octets behind a full group is a padded encoding of `n + 3` octets. */
  lemma GroupThenShape(group: string, rest: string, n: nat)
    requires |group| == 4 && forall i :: 0 <= i < 4 ==> IsSymbol(group[i])
    requires |rest| == 4 * ((n + 2) / 3)
    requires forall i :: 0 <= i < |rest| ==> IsSymbol(rest[i]) || rest[i] == Pad
    requires forall i :: 0 <= i < |rest| ==> (rest[i] == Pad) == (i >= |rest| - PadCount(n))
    ensures var r := group + rest;
      && |r| == 4 * ((n + 3 + 2) / 3)
      && (forall i :: 0 <= i < |r| ==> IsSymbol(r[i]) || r[i] == Pad)
      && (forall i :: 0 <= i < |r| ==> (r[i] == Pad) == (i >= |r| - PadCount(n + 3)))
  {
    var r := group + rest;
    assert PadCount(n + 3) == PadCount(n);
    forall i | 0 <= i < |r|
      ensures (IsSymbol(r[i]) || r[i] == Pad) && ((r[i] == Pad) == (i >= |r| - PadCount(n + 3)))
    {
      if i >= 4 {
        assert r[i] == rest[i - 4];
      } else {
        assert r[i] == group[i];
      }
    }
  }

  /** Reads back the octets of a padded encoding; `None` for text that is not one. */
  function Decode(s: string): Option<seq<byte>>
    decreases |s|
  {
    if |s| == 0 then Some([])
    else if |s| < 4 || !IsSymbol(s[0]) || !IsSymbol(s[1]) then None
    else
      var v0, v1 := SymbolValue(s[0]), SymbolValue(s[1]);
      if |s| == 4 && s[2] == Pad && s[3] == Pad then
        if v1 % 16 == 0 then Some([v0 * 4 + v1 / 16]) else None
      else if !IsSymbol(s[2]) then None
      else
        var v2 := SymbolValue(s[2]);
        if |s| == 4 && s[3] == Pad then
          if v2 % 4 == 0 then Some([v0 * 4 + v1 / 16, v1 % 16 * 16 + v2 / 4]) else None
        else if !IsSymbol(s[3]) then None
        else
          var v3 := SymbolValue(s[3]);
          match Decode(s[4..])
          case None => None
          case Some(rest) => Some([v0 * 4 + v1 / 16, v1 % 16 * 16 + v2 / 4, v2 % 4 * 64 + v3] + rest)
  }

  lemma SymbolValueOf(v: sextet)
    ensures SymbolValue(Symbol(v)) == v
  {
  }

  lemma DecodeGroup(a: byte, b: byte, c: byte)
    ensures var g := EncodeGroup(a, b, c);
      var v0, v1, v2, v3 := SymbolValue(g[0]), SymbolValue(g[1]), SymbolValue(g[2]), SymbolValue(g[3]);
      v0 * 4 + v1 / 16 == a && v1 % 16 * 16 + v2 / 4 == b && v2 % 4 * 64 + v3 == c
  {
    SymbolValueOf(a / 4);
    SymbolValueOf(a % 4 * 16 + b / 16);
    SymbolValueOf(b % 16 * 4 + c / 64);
    SymbolValueOf(c % 64);
  }

  lemma DecodeTail(data: seq<byte>)
    requires 1 <= |data| <= 2
    ensures Decode(EncodeTail(data)) == Some(data)
  {
    var a := data[0];
    SymbolValueOf(a / 4);
    if |data| == 1 {
      var v1 := a % 4 * 16;
      SymbolValueOf(v1);
      assert v1 / 16 == a % 4 && v1 % 16 == 0;
      var r := EncodeTail(data);
      assert r == [Symbol(a / 4), Symbol(v1), Pad, Pad];
      assert SymbolValue(r[0]) * 4 + SymbolValue(r[1]) / 16 == a;
      assert data == [a];
    } else {
      var b := data[1];
      var v1, v2 := a % 4 * 16 + b / 16, b % 16 * 4;
      SymbolValueOf(v1);
      SymbolValueOf(v2);
      assert v1 / 16 == a % 4 && v1 % 16 == b / 16;
      assert v2 / 4 == b % 16 && v2 % 4 == 0;
      var r := EncodeTail(data);
      assert r == [Symbol(a / 4), Symbol(v1), Symbol(v2), Pad];
      assert SymbolValue(r[0]) * 4 + SymbolValue(r[1]) / 16 == a;
      assert SymbolValue(r[1]) % 16 * 16 + SymbolValue(r[2]) / 4 == b;
      assert data == [a, b];
    }
  }

  /** Decoding a full group in front of more text decodes the group, then the rest. */
  lemma DecodeGroupThen(a: byte, b: byte, c: byte, t: string)
    ensures Decode(EncodeGroup(a, b, c) + t) ==
      match Decode(t)
      case None => None
      case Some(rest) => Some([a, b, c] + rest)
  {
    var s := EncodeGroup(a, b, c) + t;
    assert s[0] != Pad && s[1] != Pad && s[2] != Pad && s[3] != Pad;
    assert s[4..] == t;
    DecodeGroup(a, b, c);
  }

  /** Decoding recovers exactly the encoded octets. */
  lemma {:induction false} DecodeEncode(data: seq<byte>)
    ensures Decode(Encode(data)) == Some(data)
    decreases |data|
  {
    if 1 <= |data| <= 2 {
      DecodeTail(data);
    } else if |data| >= 3 {
      DecodeEncode(data[3..]);
      DecodeGroupThen(data[0], data[1], data[2], Encode(data[3..]));
      assert data == [data[0], data[1], data[2]] + data[3..];
    }
  }

  /** The short test vectors of section 10 of RFC 4648: "", "f", "fo", "foo" as ASCII octets. */
  lemma TestVectors()
    ensures Encode([]) == ""
    ensures Encode([102]) == "Zg=="
    ensures Encode([102, 111]) == "Zm8="
    ensures Encode([102, 111, 111]) == "Zm9v"
  {
  }
}
