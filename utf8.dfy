/**
 * UTF-8 as RFC 3629 defines it (the well-formed byte sequences of Table 3-7
 * of the Unicode standard): the encoder behind Python's `str.encode()` and
 * the strict decoder behind `bytes.decode('utf-8')`, which rejects overlong
 * forms, encoded surrogates, code points above U+10FFFF and truncated
 * sequences.
 */
module Utf8 {
  import opened Text

  predicate IsContinuation(b: Byte) { 0x80 <= b <= 0xBF }

  /** The code point a well-formed sequence of `n` bytes starting at b[0] stands for, or None. */
  function DecodeScalar(b: seq<Byte>): (r: Option<(char, nat)>)
    requires b != []
    ensures r.Some? ==> 1 <= r.value.1 <= 4 && r.value.1 <= |b|
  {
    var b0: int := b[0];
    if b0 < 0x80 then Some((b0 as char, 1))
    else if 0xC2 <= b0 <= 0xDF then
      if |b| >= 2 && IsContinuation(b[1])
      then Some((((b0 - 0xC0) * 64 + (b[1] as int - 0x80)) as char, 2))
      else None
    else if 0xE0 <= b0 <= 0xEF then
      var lo := if b0 == 0xE0 then 0xA0 else 0x80;
      var hi := if b0 == 0xED then 0x9F else 0xBF;
      if |b| >= 3 && lo <= b[1] <= hi && IsContinuation(b[2])
      then Some((((b0 - 0xE0) * 4096 + (b[1] as int - 0x80) * 64 + (b[2] as int - 0x80)) as char, 3))
      else None
    else if 0xF0 <= b0 <= 0xF4 then
      var lo := if b0 == 0xF0 then 0x90 else 0x80;
      var hi := if b0 == 0xF4 then 0x8F else 0xBF;
      if |b| >= 4 && lo <= b[1] <= hi && IsContinuation(b[2]) && IsContinuation(b[3])
      then Some((((b0 - 0xF0) * 262144 + (b[1] as int - 0x80) * 4096 + (b[2] as int - 0x80) * 64 + (b[3] as int - 0x80)) as char, 4))
      else None
    else None
  }

  /** `bytes.decode('utf-8')`: None where Python raises UnicodeDecodeError. */
  function Decode(b: seq<Byte>): (r: Option<string>)
    ensures r.Some? ==> |r.value| <= |b|
    decreases |b|
  {
    if b == [] then Some([])
    else
      match DecodeScalar(b)
      case None => None
      case Some((c, n)) =>
        match Decode(b[n..])
        case None => None
        case Some(rest) => Some([c] + rest)
  }

  /** The one to four bytes encoding a code point: one byte below U+0080, two below U+0800, three below U+10000, four above; only a one-byte encoding starts with a byte below 0x80, and every later byte is a continuation byte. */
  function EncodeScalar(c: char): (r: seq<Byte>)
    ensures 1 <= |r| <= 4
    ensures |r| == (if c as int < 0x80 then 1 else if c as int < 0x800 then 2 else if c as int < 0x10000 then 3 else 4)
    ensures r[0] < 0x80 <==> c as int < 0x80
    ensures forall i :: 1 <= i < |r| ==> 0x80 <= r[i] < 0xC0
  {
    var v := c as int;
    var v1 := v / 64;
    var v2 := v1 / 64;
    if v < 0x80 then [v]
    else if v < 0x800 then [0xC0 + v1, 0x80 + v % 64]
    else if v < 0x10000 then [0xE0 + v2, 0x80 + v1 % 64, 0x80 + v % 64]
    else [0xF0 + v2 / 64, 0x80 + v2 % 64, 0x80 + v1 % 64, 0x80 + v % 64]
  }

  /** `str.encode()`, whose default codec is UTF-8. */
  function Encode(s: string): (r: seq<Byte>)
    ensures |r| >= |s|
  {
    if s == [] then [] else EncodeScalar(s[0]) + Encode(s[1..])
  }

  lemma DecodeTwoByteScalar(c: char, rest: seq<Byte>)
    requires 0x80 <= c as int < 0x800
    ensures DecodeScalar(EncodeScalar(c) + rest) == Some((c, 2))
  {
    var v := c as int;
    var b := EncodeScalar(c) + rest;
    assert b[0] == 0xC0 + v / 64 && b[1] == 0x80 + v % 64;
    assert v == (v / 64) * 64 + v % 64;
  }

  lemma DecodeThreeByteScalar(c: char, rest: seq<Byte>)
    requires 0x800 <= c as int < 0x10000
    ensures DecodeScalar(EncodeScalar(c) + rest) == Some((c, 3))
  {
    var v := c as int;
    var b := EncodeScalar(c) + rest;
    var v1 := v / 64;
    var q, m, r := v1 / 64, v1 % 64, v % 64;
    assert v == v1 * 64 + r && v1 == q * 64 + m;
    assert v == q * 4096 + m * 64 + r;
    assert b[0] == 0xE0 + q && b[1] == 0x80 + m && b[2] == 0x80 + r;
  }

  /** Four bytes of the shape RFC 3629 allows for U+10000..U+10FFFF decode to the code point their payload bits spell. */
  lemma DecodeFourBytes(b: seq<Byte>, p: int, q: int, m: int, r: int)
    requires |b| >= 4 && 0 <= p <= 4 && 0 <= q < 64 && 0 <= m < 64 && 0 <= r < 64
    requires (p == 0 ==> q >= 0x10) && (p == 4 ==> q <= 0x0F)
    requires b[0] == 0xF0 + p && b[1] == 0x80 + q && b[2] == 0x80 + m && b[3] == 0x80 + r
    ensures 0x10000 <= p * 262144 + q * 4096 + m * 64 + r < 0x110000
    ensures DecodeScalar(b) == Some(((p * 262144 + q * 4096 + m * 64 + r) as char, 4))
  {
  }

  lemma DecodeFourByteScalar(c: char, rest: seq<Byte>)
    requires 0x10000 <= c as int
    ensures DecodeScalar(EncodeScalar(c) + rest) == Some((c, 4))
  {
    var v := c as int;
    var b := EncodeScalar(c) + rest;
    var v1 := v / 64;
    var v2 := v1 / 64;
    var p, q, m, r := v2 / 64, v2 % 64, v1 % 64, v % 64;
    assert v == v1 * 64 + r && v1 == v2 * 64 + m && v2 == p * 64 + q;
    assert v == p * 262144 + q * 4096 + m * 64 + r;
    assert p <= 4 && (p == 0 ==> q >= 0x10) && (p == 4 ==> q <= 0x0F);
    DecodeFourBytes(b, p, q, m, r);
  }

  /** The encoding of one code point, whatever follows it, decodes to that code point. */
  lemma DecodeScalarOfEncode(c: char, rest: seq<Byte>)
    ensures DecodeScalar(EncodeScalar(c) + rest) == Some((c, |EncodeScalar(c)|))
  {
    var v := c as int;
    if v < 0x80 {
    } else if v < 0x800 {
      DecodeTwoByteScalar(c, rest);
    } else if v < 0x10000 {
      DecodeThreeByteScalar(c, rest);
    } else {
      DecodeFourByteScalar(c, rest);
    }
  }

  /** Every string survives the trip through its UTF-8 encoding. */
  lemma {:induction false} DecodeEncode(s: string)
    ensures Decode(Encode(s)) == Some(s)
  {
    if s != [] {
      var e := EncodeScalar(s[0]);
      DecodeScalarOfEncode(s[0], Encode(s[1..]));
      assert (e + Encode(s[1..]))[|e|..] == Encode(s[1..]);
      DecodeEncode(s[1..]);
      assert s == [s[0]] + s[1..];
    }
  }

  /** Bytes below 0x80 decode one-for-one to the characters with those codes. */
  lemma {:induction false} DecodeAscii(b: seq<Byte>)
    requires forall i :: 0 <= i < |b| ==> b[i] < 0x80
    ensures Decode(b) == Some(Latin1(b))
  {
    if b != [] {
      DecodeAscii(b[1..]);
      assert Latin1(b) == [b[0] as char] + Latin1(b[1..]);
    }
  }
}
