/**
 * String and byte helpers shared by the backend (Python) and the frontend
 * (JavaScript) models: the two languages' notions of whitespace, prefix and
 * suffix tests, ASCII lower-casing, decimal rendering of naturals, the
 * `split(',')[1]` field, latin-1 character mapping and "\n".join.
 */
module Text {

  datatype Option<+T> = None | Some(value: T)

  /** An 8-bit byte, as in Python `bytes` and JavaScript `Uint8Array`. */
  type Byte = b: int | 0 <= b < 256

  /** Python's `str.isspace` for one character (Unicode White_Space, as CPython tabulates it). */
  predicate IsPySpace(c: char) {
    c == ' ' || ('\t' <= c <= '\r') || ('\U{1C}' <= c <= '\U{1F}')
    || c == '\U{85}' || c == '\U{A0}' || c == '\U{1680}'
    || ('\U{2000}' <= c <= '\U{200A}') || c == '\U{2028}' || c == '\U{2029}'
    || c == '\U{202F}' || c == '\U{205F}' || c == '\U{3000}'
  }

  /** JavaScript's WhiteSpace and LineTerminator characters, as `String.prototype.trim` removes them. */
  predicate IsJsSpace(c: char) {
    c == ' ' || ('\t' <= c <= '\r') || c == '\U{A0}' || c == '\U{FEFF}' || c == '\U{1680}'
    || ('\U{2000}' <= c <= '\U{200A}') || c == '\U{2028}' || c == '\U{2029}'
    || c == '\U{202F}' || c == '\U{205F}' || c == '\U{3000}'
  }

  /** Drops leading characters satisfying `ws`. */
  function TrimStart(s: string, ws: char -> bool): (r: string)
    ensures |r| <= |s| && r == s[|s| - |r|..]
    ensures r == [] || !ws(r[0])
  {
    if s != [] && ws(s[0]) then TrimStart(s[1..], ws) else s
  }

  /** Drops trailing characters satisfying `ws`. */
  function TrimEnd(s: string, ws: char -> bool): (r: string)
    ensures |r| <= |s| && r == s[..|r|]
    ensures r == [] || !ws(r[|r| - 1])
  {
    if s != [] && ws(s[|s| - 1]) then TrimEnd(s[..|s| - 1], ws) else s
  }

  /** Both ends trimmed: Python's `str.strip()` with IsPySpace, JavaScript's `trim()` with IsJsSpace. */
  function Trim(s: string, ws: char -> bool): (r: string)
    ensures |r| <= |s|
    ensures r == [] || (!ws(r[0]) && !ws(r[|r| - 1]))
  {
    var t := TrimStart(s, ws);
    var u := TrimEnd(t, ws);
    assert u != [] ==> u[0] == t[0];
    u
  }

  /** Python's `str.strip()`: what is left neither starts nor ends with whitespace. */
  function PyStrip(s: string): (r: string)
    ensures |r| <= |s|
    ensures r == [] || (!IsPySpace(r[0]) && !IsPySpace(r[|r| - 1]))
  {
    Trim(s, IsPySpace)
  }

  /** JavaScript's `String.prototype.trim()`: what is left neither starts nor ends with whitespace. */
  function JsTrim(s: string): (r: string)
    ensures |r| <= |s|
    ensures r == [] || (!IsJsSpace(r[0]) && !IsJsSpace(r[|r| - 1]))
  {
    Trim(s, IsJsSpace)
  }

  /** Only whitespace is dropped from the front. */
  lemma {:induction false} TrimStartCutsSpace(s: string, ws: char -> bool)
    ensures forall i :: 0 <= i < |s| - |TrimStart(s, ws)| ==> ws(s[i])
  {
    if s != [] && ws(s[0]) {
      TrimStartCutsSpace(s[1..], ws);
      forall i | 1 <= i < |s| - |TrimStart(s, ws)| ensures ws(s[i]) {
        assert s[i] == s[1..][i - 1];
      }
    }
  }

  /** Only whitespace is dropped from the back. */
  lemma {:induction false} TrimEndCutsSpace(s: string, ws: char -> bool)
    ensures forall i :: |TrimEnd(s, ws)| <= i < |s| ==> ws(s[i])
  {
    if s != [] && ws(s[|s| - 1]) {
      TrimEndCutsSpace(s[..|s| - 1], ws);
      forall i | |TrimEnd(s, ws)| <= i < |s| - 1 ensures ws(s[i]) {
        assert s[i] == s[..|s| - 1][i];
      }
    }
  }

  lemma TrimSlice(s: string, ws: char -> bool)
    ensures var i := |s| - |TrimStart(s, ws)|;
            i + |Trim(s, ws)| <= |s| && Trim(s, ws) == s[i..i + |Trim(s, ws)|]
  {
    var t := TrimStart(s, ws);
    var u := TrimEnd(t, ws);
    var i := |s| - |t|;
    assert Trim(s, ws) == u;
    assert t == s[i..];
    assert u == t[..|u|];
  }

  lemma TrimTailIsSpace(s: string, ws: char -> bool)
    ensures forall k :: |s| - |TrimStart(s, ws)| + |Trim(s, ws)| <= k < |s| ==> ws(s[k])
  {
    var t := TrimStart(s, ws);
    var i := |s| - |t|;
    TrimEndCutsSpace(t, ws);
    forall k | i + |Trim(s, ws)| <= k < |s| ensures ws(s[k]) {
      assert s[k] == t[k - i];
    }
  }

  /** A trimmed string is the piece of the original between the whitespace cut from the front and from the back, bounded by non-whitespace. */
  lemma TrimIsInnerSlice(s: string, ws: char -> bool)
    ensures var i := |s| - |TrimStart(s, ws)|;
            var j := i + |Trim(s, ws)|;
            && j <= |s| && Trim(s, ws) == s[i..j]
            && (forall k :: 0 <= k < i ==> ws(s[k]))
            && (forall k :: j <= k < |s| ==> ws(s[k]))
    ensures Trim(s, ws) != [] ==> !ws(Trim(s, ws)[0]) && !ws(Trim(s, ws)[|Trim(s, ws)| - 1])
  {
    TrimStartCutsSpace(s, ws);
    TrimSlice(s, ws);
    TrimTailIsSpace(s, ws);
  }

  /** Trimming yields the empty string exactly when every character is whitespace. */
  lemma TrimEmptyIff(s: string, ws: char -> bool)
    ensures Trim(s, ws) == [] <==> forall k :: 0 <= k < |s| ==> ws(s[k])
  {
    var t := TrimStart(s, ws);
    var i := |s| - |t|;
    TrimStartCutsSpace(s, ws);
    TrimEndCutsSpace(t, ws);
    if !forall k :: 0 <= k < |s| ==> ws(s[k]) {
      var k :| 0 <= k < |s| && !ws(s[k]);
      assert k >= i;
      assert t != [] && !ws(t[0]);
    }
  }

  /** Python's `startswith` and JavaScript's `startsWith`, on strings and on byte strings. */
  predicate StartsWith<T(==)>(s: seq<T>, prefix: seq<T>) {
    |prefix| <= |s| && s[..|prefix|] == prefix
  }

  /** Python's `endswith` and JavaScript's `endsWith`. */
  predicate EndsWith<T(==)>(s: seq<T>, suffix: seq<T>) {
    |suffix| <= |s| && s[|s| - |suffix|..] == suffix
  }

  /** Lower-cases the ASCII letters A-Z and leaves every other character alone. */
  function AsciiLowerChar(c: char): (d: char)
    ensures 'A' <= c <= 'Z' ==> d as int == c as int + 32
    ensures !('A' <= c <= 'Z') ==> d == c
  {
    if 'A' <= c <= 'Z' then (c as int + 32) as char else c
  }

  function AsciiLower(s: string): (r: string)
    ensures |r| == |s|
    ensures forall i :: 0 <= i < |s| ==> r[i] == AsciiLowerChar(s[i])
  {
    seq(|s|, i requires 0 <= i < |s| => AsciiLowerChar(s[i]))
  }

  /** Lower-casing twice changes nothing more. */
  lemma AsciiLowerIdempotent(s: string)
    ensures AsciiLower(AsciiLower(s)) == AsciiLower(s)
  {
    assert forall i :: 0 <= i < |s| ==> AsciiLowerChar(AsciiLowerChar(s[i])) == AsciiLowerChar(s[i]);
  }

  function DigitChar(d: nat): (c: char)
    requires d < 10
    ensures '0' <= c <= '9'
  {
    ('0' as int + d) as char
  }

  /** The value of a decimal digit character. */
  function DigitValue(c: char): nat {
    if '0' <= c <= '9' then c as int - '0' as int else 0
  }

  /** The number a string of decimal digits spells, most significant digit first. */
  function DecimalValue(s: string): nat {
    if s == [] then 0 else 10 * DecimalValue(s[..|s| - 1]) + DigitValue(s[|s| - 1])
  }

  /** Decimal rendering, as Python's f-string and JavaScript's template literal print a non-negative integer: digits only, no leading zero, spelling exactly n. */
  function NatToString(n: nat): (r: string)
    ensures |r| >= 1
    ensures forall i :: 0 <= i < |r| ==> '0' <= r[i] <= '9'
    ensures n >= 10 ==> r[0] != '0'
    ensures DecimalValue(r) == n
  {
    if n < 10 then [DigitChar(n)]
    else
      var prefix := NatToString(n / 10);
      assert (prefix + [DigitChar(n % 10)])[..|prefix|] == prefix;
      prefix + [DigitChar(n % 10)]
  }

  /** Position of the first occurrence of `c`. */
  function IndexOf(s: string, c: char): (i: nat)
    requires c in s
    ensures i < |s| && s[i] == c && c !in s[..i]
  {
    if s[0] == c then 0 else 1 + IndexOf(s[1..], c)
  }

  /** Python's `s.split(',')[1]` for a string holding at least one comma. */
  function SecondCommaField(s: string): (r: string)
    requires ',' in s
    ensures ',' !in r
    ensures var i := IndexOf(s, ',');
            i + 1 + |r| <= |s| && s[i + 1..i + 1 + |r|] == r
            && (i + 1 + |r| == |s| || s[i + 1 + |r|] == ',')
  {
    var i := IndexOf(s, ',');
    var rest := s[i + 1..];
    if ',' in rest then rest[..IndexOf(rest, ',')] else rest
  }

  /** Python's `bytes.decode('latin-1')` and JavaScript's binary strings: byte b becomes the character with code b. */
  function Latin1(b: seq<Byte>): (s: string)
    ensures |s| == |b|
    ensures forall i :: 0 <= i < |b| ==> s[i] as int == b[i]
  {
    seq(|b|, i requires 0 <= i < |b| => b[i] as char)
  }

  /** `"\n".join(parts)` (any separator). */
  function Join(parts: seq<string>, sep: string): (r: string)
    ensures parts == [] ==> r == ""
    ensures |parts| == 1 ==> r == parts[0]
    ensures parts != [] ==> StartsWith(r, parts[0])
  {
    if parts == [] then ""
    else if |parts| == 1 then parts[0]
    else
      var r := parts[0] + sep + Join(parts[1..], sep);
      assert r[..|parts[0]|] == parts[0];
      r
  }

  /** Joining one more part appends the separator and that part, so the parts appear in order, one separator between neighbours. */
  lemma {:induction false} JoinAppend(parts: seq<string>, part: string, sep: string)
    requires parts != []
    ensures Join(parts + [part], sep) == Join(parts, sep) + sep + part
    decreases |parts|
  {
    if |parts| == 1 {
      assert parts + [part] == [parts[0], part];
      assert [parts[0], part][1..] == [part];
    } else {
      assert (parts + [part])[1..] == parts[1..] + [part];
      JoinAppend(parts[1..], part, sep);
    }
  }

  /** Concatenation of a list of byte arrays, as `new Blob(byteArrays)` lays them out. */
  function Flatten(parts: seq<seq<Byte>>): seq<Byte> {
    if parts == [] then [] else Flatten(parts[..|parts| - 1]) + parts[|parts| - 1]
  }
}
