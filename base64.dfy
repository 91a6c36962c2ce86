/**
 * Base 64 encoding as section 4 of RFC 4648 defines it, in the three forms
 * the system uses: the encoder behind Python's `base64.b64encode` (the
 * voice endpoint encodes speech audio with it), the strict canonical decoder
 * standing for Python's `base64.b64decode` (the document pipeline decodes
 * uploads with it), and the "forgiving-base64 decode" of the WHATWG Infra
 * standard, which is what the browser's `atob` runs.
 */
module Base64 {
  import opened Text

  /** The 64 characters of the alphabet (Table 1 of RFC 4648). */
  predicate IsBase64Char(c: char) {
    ('A' <= c <= 'Z') || ('a' <= c <= 'z') || ('0' <= c <= '9') || c == '+' || c == '/'
  }

  /** The character encoding a 6-bit value. */
  function CharOf(v: nat): (c: char)
    requires v < 64
    ensures IsBase64Char(c)
  {
    if v < 26 then ('A' as int + v) as char
    else if v < 52 then ('a' as int + v - 26) as char
    else if v < 62 then ('0' as int + v - 52) as char
    else if v == 62 then '+'
    else '/'
  }

  /** The 6-bit value of an alphabet character. */
  function ValueOf(c: char): (v: nat)
    requires IsBase64Char(c)
    ensures v < 64 && CharOf(v) == c
  {
    if 'A' <= c <= 'Z' then c as int - 'A' as int
    else if 'a' <= c <= 'z' then c as int - 'a' as int + 26
    else if '0' <= c <= '9' then c as int - '0' as int + 52
    else if c == '+' then 62
    else 63
  }

  lemma ValueOfCharOf(v: nat)
    requires v < 64
    ensures ValueOf(CharOf(v)) == v
  {
  }

  predicate AllBase64(s: string) {
    forall i :: 0 <= i < |s| ==> IsBase64Char(s[i])
  }

  /** The four characters of a 3-byte group: its 24 bits cut into four 6-bit values, most significant first. */
  function Group(b0: Byte, b1: Byte, b2: Byte): (g: string)
    ensures |g| == 4 && AllBase64(g)
  {
    [CharOf(b0 / 4), CharOf((b0 % 4) * 16 + b1 / 16), CharOf((b1 % 16) * 4 + b2 / 64), CharOf(b2 % 64)]
  }

  /** The encoding without its `=` padding: each 3-byte group becomes 4 characters, a final group of 1 or 2 bytes (padded with zero bits) becomes 2 or 3. */
  function EncodeDigits(b: seq<Byte>): (s: string)
    ensures AllBase64(s)
    ensures |s| == (|b| / 3) * 4 + (if |b| % 3 == 0 then 0 else |b| % 3 + 1)
  {
    if |b| == 0 then []
    else if |b| == 1 then Group(b[0], 0, 0)[..2]
    else if |b| == 2 then Group(b[0], b[1], 0)[..3]
    else Group(b[0], b[1], b[2]) + EncodeDigits(b[3..])
  }

  /** Python's `base64.b64encode(data).decode('utf-8')`: the digits followed by the padding that fills the last quantum. */
  function Encode(b: seq<Byte>): (s: string)
    ensures |s| % 4 == 0
  {
    EncodeDigits(b) + (if |b| % 3 == 1 then "==" else if |b| % 3 == 2 then "=" else "")
  }

  /** Decodes unpadded alphabet characters; a string of length 1 modulo 4 or holding any other character fails. Leftover low bits of a final partial group are dropped. */
  function DecodeDigits(s: string): Option<seq<Byte>>
  {
    if s == [] then Some([])
    else if !IsBase64Char(s[0]) || |s| == 1 || !IsBase64Char(s[1]) then None
    else if |s| == 2 then
      Some([ValueOf(s[0]) * 4 + ValueOf(s[1]) / 16])
    else if !IsBase64Char(s[2]) then None
    else if |s| == 3 then
      Some([ValueOf(s[0]) * 4 + ValueOf(s[1]) / 16, (ValueOf(s[1]) % 16) * 16 + ValueOf(s[2]) / 4])
    else if !IsBase64Char(s[3]) then None
    else
      match DecodeDigits(s[4..])
      case None => None
      case Some(rest) =>
        Some([ValueOf(s[0]) * 4 + ValueOf(s[1]) / 16,
              (ValueOf(s[1]) % 16) * 16 + ValueOf(s[2]) / 4,
              (ValueOf(s[2]) % 4) * 64 + ValueOf(s[3])] + rest)
  }

  /** DecodeDigits accepts exactly the alphabet strings whose length is not 1 modulo 4. */
  lemma {:induction false} DecodeDigitsAccepts(s: string)
    ensures DecodeDigits(s).Some? <==> |s| % 4 != 1 && AllBase64(s)
    decreases |s|
  {
    if |s| >= 4 {
      DecodeDigitsAccepts(s[4..]);
      assert AllBase64(s) <==> IsBase64Char(s[0]) && IsBase64Char(s[1]) && IsBase64Char(s[2]) && IsBase64Char(s[3]) && AllBase64(s[4..]) by {
        assert forall i :: 4 <= i < |s| ==> s[i] == s[4..][i - 4];
      }
    }
  }

  /** Decoding yields three bytes per four characters, rounded down. */
  lemma {:induction false} DecodeDigitsLength(s: string)
    ensures DecodeDigits(s).Some? ==> |DecodeDigits(s).value| == |s| * 3 / 4
    decreases |s|
  {
    if |s| >= 4 && DecodeDigits(s).Some? {
      DecodeDigitsLength(s[4..]);
      assert |DecodeDigits(s).value| == 3 + |DecodeDigits(s[4..]).value|;
      assert |s| * 3 / 4 == (|s| - 4) * 3 / 4 + 3;
    }
  }

  /** Drops one or two trailing `=` characters. */
  function StripPadding(s: string): string {
    if EndsWith(s, "==") then s[..|s| - 2]
    else if EndsWith(s, "=") then s[..|s| - 1]
    else s
  }

  /** Strict decoding of canonical padded input: the length must be a multiple of 4 and `=` may only end the text. */
  function DecodeStrict(s: string): (r: Option<seq<Byte>>)
    ensures r.Some? ==> |s| % 4 == 0 && |s| * 3 / 4 - 2 <= |r.value| <= |s| * 3 / 4
  {
    if |s| % 4 != 0 then None
    else
      DecodeDigitsLength(StripPadding(s));
      DecodeDigits(StripPadding(s))
  }

  /** ASCII whitespace of the WHATWG Infra standard: TAB, LF, FF, CR and SPACE. */
  predicate IsAsciiWhitespace(c: char) {
    c == '\t' || c == '\n' || c == '\U{0C}' || c == '\r' || c == ' '
  }

  function RemoveAsciiWhitespace(s: string): (r: string)
    ensures |r| <= |s|
    ensures forall i :: 0 <= i < |r| ==> !IsAsciiWhitespace(r[i])
    ensures forall c :: c in r <==> c in s && !IsAsciiWhitespace(c)
  {
    if s == [] then []
    else if IsAsciiWhitespace(s[0]) then RemoveAsciiWhitespace(s[1..])
    else [s[0]] + RemoveAsciiWhitespace(s[1..])
  }

  /** Removing whitespace works piecewise: the kept characters of a concatenation are those of each part, in order. */
  lemma {:induction false} RemoveAsciiWhitespaceAppend(s: string, t: string)
    ensures RemoveAsciiWhitespace(s + t) == RemoveAsciiWhitespace(s) + RemoveAsciiWhitespace(t)
    decreases |s|
  {
    if s != [] {
      assert (s + t)[0] == s[0];
      assert (s + t)[1..] == s[1..] + t;
      RemoveAsciiWhitespaceAppend(s[1..], t);
    } else {
      assert s + t == t;
    }
  }


  /**
   * The browser's `atob`: remove ASCII whitespace; when the length is a
   * multiple of 4 drop one or two trailing `=`; then decode, failing on a
   * length of 1 modulo 4 or on any character outside the alphabet. The
   * result is a binary string: one character per byte.
   */
  function Atob(data: string): (r: Option<string>)
    ensures r.Some? ==> forall i :: 0 <= i < |r.value| ==> r.value[i] as int < 256
  {
    var d := RemoveAsciiWhitespace(data);
    var body := if |d| % 4 == 0 then StripPadding(d) else d;
    match DecodeDigits(body)
    case None => None
    case Some(bytes) => Some(Latin1(bytes))
  }

  /** The four 6-bit values of a group put back together give its three bytes. */
  lemma GroupRoundTrip(b0: Byte, b1: Byte, b2: Byte)
    ensures var g := Group(b0, b1, b2);
            && ValueOf(g[0]) * 4 + ValueOf(g[1]) / 16 == b0
            && (ValueOf(g[1]) % 16) * 16 + ValueOf(g[2]) / 4 == b1
            && (ValueOf(g[2]) % 4) * 64 + ValueOf(g[3]) == b2
  {
    ValueOfCharOf(b0 / 4);
    ValueOfCharOf((b0 % 4) * 16 + b1 / 16);
    ValueOfCharOf((b1 % 16) * 4 + b2 / 64);
    ValueOfCharOf(b2 % 64);
  }

  /** A final group of one byte: its two digits decode to that byte. */
  lemma DecodeOneByteGroup(b0: Byte)
    ensures DecodeDigits(Group(b0, 0, 0)[..2]) == Some([b0])
  {
    GroupRoundTrip(b0, 0, 0);
    var s := Group(b0, 0, 0)[..2];
    assert s[0] == Group(b0, 0, 0)[0] && s[1] == Group(b0, 0, 0)[1];
  }

  /** A final group of two bytes: its three digits decode to those bytes. */
  lemma DecodeTwoByteGroup(b0: Byte, b1: Byte)
    ensures DecodeDigits(Group(b0, b1, 0)[..3]) == Some([b0, b1])
  {
    GroupRoundTrip(b0, b1, 0);
    var s := Group(b0, b1, 0)[..3];
    assert s[0] == Group(b0, b1, 0)[0] && s[1] == Group(b0, b1, 0)[1] && s[2] == Group(b0, b1, 0)[2];
  }

  /** A full group in front of further digits decodes to its three bytes in front of what those digits decode to. */
  lemma DecodeFullGroup(b0: Byte, b1: Byte, b2: Byte, rest: string, tail: seq<Byte>)
    requires DecodeDigits(rest) == Some(tail)
    ensures DecodeDigits(Group(b0, b1, b2) + rest) == Some([b0, b1, b2] + tail)
  {
    GroupRoundTrip(b0, b1, b2);
    var g := Group(b0, b1, b2);
    var s := g + rest;
    assert s[0] == g[0] && s[1] == g[1] && s[2] == g[2] && s[3] == g[3];
    assert s[4..] == rest;
  }

  lemma SplitGroup(b: seq<Byte>)
    requires |b| >= 3
    ensures b == [b[0], b[1], b[2]] + b[3..]
  {
  }

  /** The digits of three or more bytes: the first group's digits, then the rest's. */
  lemma DecodeEncodeStep(b: seq<Byte>)
    requires |b| >= 3 && DecodeDigits(EncodeDigits(b[3..])) == Some(b[3..])
    ensures DecodeDigits(EncodeDigits(b)) == Some(b)
  {
    SplitGroup(b);
    assert EncodeDigits(b) == Group(b[0], b[1], b[2]) + EncodeDigits(b[3..]);
    DecodeFullGroup(b[0], b[1], b[2], EncodeDigits(b[3..]), b[3..]);
  }

  /** Decoding the digits of any byte string gives the bytes back. */
  lemma {:induction false} DecodeEncodeDigits(b: seq<Byte>)
    ensures DecodeDigits(EncodeDigits(b)) == Some(b)
  {
    if |b| == 0 {
    } else if |b| == 1 {
      DecodeOneByteGroup(b[0]);
      assert b == [b[0]];
    } else if |b| == 2 {
      DecodeTwoByteGroup(b[0], b[1]);
      assert b == [b[0], b[1]];
    } else {
      DecodeEncodeDigits(b[3..]);
      DecodeEncodeStep(b);
    }
  }

  /** Stripping the padding that Encode adds gives back exactly the digits. */
  lemma StripPaddingOfEncode(b: seq<Byte>)
    ensures StripPadding(Encode(b)) == EncodeDigits(b)
  {
    var d := EncodeDigits(b);
    var s := Encode(b);
    if |b| % 3 == 1 {
      assert s[..|s| - 2] == d;
    } else if |b| % 3 == 2 {
      assert s[|s| - 2] == d[|d| - 1];
      assert !EndsWith(s, "==");
      assert s[..|s| - 1] == d;
    } else {
      assert s == d;
      assert d != [] ==> d[|d| - 1] != '=';
    }
  }

  /** What the backend encodes, the backend's own strict decoder restores. */
  lemma DecodeStrictEncode(b: seq<Byte>)
    ensures DecodeStrict(Encode(b)) == Some(b)
  {
    StripPaddingOfEncode(b);
    DecodeEncodeDigits(b);
  }

  /** Encoding non-empty bytes gives non-empty text. */
  lemma EncodeNonEmpty(b: seq<Byte>)
    requires b != []
    ensures Encode(b) != ""
  {
    DecodeStrictEncode(b);
    assert DecodeStrict("") == Some([]);
  }

  /** An encoding holds no ASCII whitespace, so `atob`'s first step leaves it alone. */
  lemma {:induction false} RemoveWhitespaceOfNone(s: string)
    requires forall i :: 0 <= i < |s| ==> !IsAsciiWhitespace(s[i])
    ensures RemoveAsciiWhitespace(s) == s
  {
    if s != [] {
      RemoveWhitespaceOfNone(s[1..]);
    }
  }

  /** What the backend encodes, the browser's `atob` turns into the binary string of the same bytes. */
  lemma AtobEncode(b: seq<Byte>)
    ensures Atob(Encode(b)) == Some(Latin1(b))
  {
    var s := Encode(b);
    assert forall i :: 0 <= i < |s| ==> !IsAsciiWhitespace(s[i]) by {
      forall i | 0 <= i < |s| ensures !IsAsciiWhitespace(s[i]) {
        var d := EncodeDigits(b);
        if i < |d| {
          assert s[i] == d[i];
        }
      }
    }
    RemoveWhitespaceOfNone(s);
    StripPaddingOfEncode(b);
    DecodeEncodeDigits(b);
  }
}
