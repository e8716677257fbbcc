/**
 * JSON string encoding as Python's `json.dumps` performs it with its defaults
 * (`ensure_ascii=True`): quote and backslash are escaped, the five control characters
 * with a short form use it, every other character outside printable ASCII becomes
 * `\uXXXX` in lower-case hex, and characters beyond the Basic Multilingual Plane become
 * a UTF-16 surrogate pair. `Unescape` is the reading side, as `JSON.parse` decodes the
 * body of a string literal; Dafny characters are Unicode scalar values, so a lone
 * surrogate escape is rejected.
 */
module PyJson {
  import opened Wrappers

  // ------------------------------------------------------------------
  // Hexadecimal
  // ------------------------------------------------------------------

  function HexDigit(d: nat): char
    requires d < 16
  {
    if d < 10 then ('0' as int + d) as char else ('a' as int + d - 10) as char
  }

  /** `'{0:04x}'.format(n)`. */
  function Hex4(n: nat): string
    requires n < 0x10000
  {
    [HexDigit(n / 4096), HexDigit(n / 256 % 16), HexDigit(n / 16 % 16), HexDigit(n % 16)]
  }

  /** The value of a hex digit of either case. */
  function HexValue(c: char): (r: Option<nat>)
    ensures r.Some? ==> r.value < 16
  {
    if '0' <= c <= '9' then Some(c as int - '0' as int)
    else if 'a' <= c <= 'f' then Some(c as int - 'a' as int + 10)
    else if 'A' <= c <= 'F' then Some(c as int - 'A' as int + 10)
    else None
  }

  function ParseHex4(s: string): (r: Option<nat>)
    requires |s| == 4
    ensures r.Some? ==> r.value < 0x10000
  {
    var a, b, c, d := HexValue(s[0]), HexValue(s[1]), HexValue(s[2]), HexValue(s[3]);
    if a.Some? && b.Some? && c.Some? && d.Some? then Some(4096 * a.value + 256 * b.value + 16 * c.value + d.value)
    else None
  }

  lemma HexDigitValue(d: nat)
    requires d < 16
    ensures HexValue(HexDigit(d)) == Some(d)
    ensures '0' <= HexDigit(d) <= '9' || 'a' <= HexDigit(d) <= 'f'
  {
  }

  /** The four digits `Hex4` writes are the base-16 digits of `n`. */
  lemma Hex4Digits(n: nat)
    requires n < 0x10000
    ensures n == 4096 * (n / 4096) + 256 * (n / 256 % 16) + 16 * (n / 16 % 16) + n % 16
  {
    var q1, r0 := n / 16, n % 16;
    var q2, r1 := q1 / 16, q1 % 16;
    var q3, r2 := q2 / 16, q2 % 16;
    assert n == 256 * q2 + (16 * r1 + r0);
    assert n / 256 == q2;
    assert n == 4096 * q3 + (256 * r2 + 16 * r1 + r0);
    assert n / 4096 == q3;
  }

  /** Reading four hex digits back gives the number written. */
  lemma Hex4RoundTrip(n: nat)
    requires n < 0x10000
    ensures ParseHex4(Hex4(n)) == Some(n)
  {
    var h := Hex4(n);
    HexDigitValue(n / 4096);
    HexDigitValue(n / 256 % 16);
    HexDigitValue(n / 16 % 16);
    HexDigitValue(n % 16);
    assert HexValue(h[0]) == Some(n / 4096);
    assert HexValue(h[1]) == Some(n / 256 % 16);
    assert HexValue(h[2]) == Some(n / 16 % 16);
    assert HexValue(h[3]) == Some(n % 16);
    Hex4Digits(n);
  }

  // ------------------------------------------------------------------
  // Encoding
  // ------------------------------------------------------------------

  /** Printable ASCII, the characters `ensure_ascii` output is made of. */
  predicate Printable(c: char) {
    0x20 <= c as int <= 0x7E
  }

  /** How `json.dumps` writes one character inside a string literal. */
  function EscapeChar(c: char): string {
    if c == '"' then "\\\""
    else if c == '\\' then "\\\\"
    else if c == '\n' then "\\n"
    else if c == '\r' then "\\r"
    else if c == '\t' then "\\t"
    else if c as int == 0x08 then "\\b"
    else if c as int == 0x0C then "\\f"
    else if Printable(c) then [c]
    else if c as int < 0x10000 then "\\u" + Hex4(c as int)
    else
      // `0xd800 | ((n >> 10) & 0x3ff)` and `0xdc00 | (n & 0x3ff)`: the low ten bits of both bases are clear.
      var n := c as int - 0x10000;
      "\\u" + Hex4(0xD800 + n / 1024) + "\\u" + Hex4(0xDC00 + n % 1024)
  }

  function Escape(s: string): string
    decreases |s|
  {
    if s == [] then "" else EscapeChar(s[0]) + Escape(s[1..])
  }

  /** `json.dumps` of a string: the escaped text between double quotes. */
  function EncodeString(s: string): string {
    "\"" + Escape(s) + "\""
  }

  /** The escape of one character is non-empty printable ASCII. */
  lemma EscapeCharPrintable(c: char)
    ensures EscapeChar(c) != []
    ensures forall i :: 0 <= i < |EscapeChar(c)| ==> Printable(EscapeChar(c)[i])
  {
    if !Printable(c) && c as int >= 0x10000 && c != '"' && c != '\\' {
      var n := c as int - 0x10000;
      HexDigitValue((0xD800 + n / 1024) / 4096);
      HexDigitValue((0xD800 + n / 1024) / 256 % 16);
      HexDigitValue((0xD800 + n / 1024) / 16 % 16);
      HexDigitValue((0xD800 + n / 1024) % 16);
      HexDigitValue((0xDC00 + n % 1024) / 4096);
      HexDigitValue((0xDC00 + n % 1024) / 256 % 16);
      HexDigitValue((0xDC00 + n % 1024) / 16 % 16);
      HexDigitValue((0xDC00 + n % 1024) % 16);
    } else if !Printable(c) && c as int < 0x10000 && c != '\n' && c != '\r' && c != '\t' {
      HexDigitValue(c as int / 4096);
      HexDigitValue(c as int / 256 % 16);
      HexDigitValue(c as int / 16 % 16);
      HexDigitValue(c as int % 16);
    }
  }

  /**
   * The output of `json.dumps` is printable ASCII whatever the input, so in particular it
   * holds no line break: a frame built from it stays on one line.
   */
  lemma {:induction false} EscapePrintable(s: string)
    ensures forall i :: 0 <= i < |Escape(s)| ==> Printable(Escape(s)[i])
    decreases |s|
  {
    if s != [] {
      EscapeCharPrintable(s[0]);
      EscapePrintable(s[1..]);
      var a, b := EscapeChar(s[0]), Escape(s[1..]);
      assert forall i :: 0 <= i < |a + b| ==> (a + b)[i] == if i < |a| then a[i] else b[i - |a|];
    }
  }

  // ------------------------------------------------------------------
  // Decoding
  // ------------------------------------------------------------------

  function Prepend(c: char, r: Option<string>): Option<string> {
    if r.Some? then Some([c] + r.value) else None
  }

  /**
   * The characters denoted by the body of a JSON string literal, or `None` when the body
   * is malformed: a raw quote or control character, an unknown escape, bad hex digits, or
   * a surrogate escape that is not a high-low pair.
   */
  function Unescape(t: string): Option<string>
    decreases |t|
  {
    if t == [] then Some([])
    else if t[0] != '\\' then
      if t[0] == '"' || t[0] as int < 0x20 then None else Prepend(t[0], Unescape(t[1..]))
    else if |t| < 2 then None
    else if t[1] == '"' then Prepend('"', Unescape(t[2..]))
    else if t[1] == '\\' then Prepend('\\', Unescape(t[2..]))
    else if t[1] == '/' then Prepend('/', Unescape(t[2..]))
    else if t[1] == 'b' then Prepend(0x08 as char, Unescape(t[2..]))
    else if t[1] == 'f' then Prepend(0x0C as char, Unescape(t[2..]))
    else if t[1] == 'n' then Prepend('\n', Unescape(t[2..]))
    else if t[1] == 'r' then Prepend('\r', Unescape(t[2..]))
    else if t[1] == 't' then Prepend('\t', Unescape(t[2..]))
    else if t[1] != 'u' || |t| < 6 then None
    else
      match ParseHex4(t[2..6])
      case None => None
      case Some(u) =>
        if 0xDC00 <= u < 0xE000 then None
        else if u < 0xD800 || 0xE000 <= u then Prepend(u as char, Unescape(t[6..]))
        else if |t| < 12 || t[6] != '\\' || t[7] != 'u' then None
        else
          match ParseHex4(t[8..12])
          case None => None
          case Some(l) =>
            if 0xDC00 <= l < 0xE000 then Prepend((0x10000 + (u - 0xD800) * 1024 + (l - 0xDC00)) as char, Unescape(t[12..]))
            else None
  }

  /** Decoding the escape of a character followed by anything reads that character, then the rest. */
  lemma UnescapeEscapeChar(c: char, rest: string)
    ensures Unescape(EscapeChar(c) + rest) == Prepend(c, Unescape(rest))
  {
    if c == '"' || c == '\\' || c == '\n' || c == '\r' || c == '\t' || c as int == 0x08 || c as int == 0x0C {
      UnescapeShortForm(c, rest);
    } else if Printable(c) {
      var t := EscapeChar(c) + rest;
      assert t[1..] == rest;
    } else if c as int < 0x10000 {
      UnescapeBmp(c, rest);
    } else {
      UnescapeSurrogatePair(c, rest);
    }
  }

  lemma UnescapeShortForm(c: char, rest: string)
    requires c == '"' || c == '\\' || c == '\n' || c == '\r' || c == '\t' || c as int == 0x08 || c as int == 0x0C
    ensures Unescape(EscapeChar(c) + rest) == Prepend(c, Unescape(rest))
  {
    var t := EscapeChar(c) + rest;
    assert |EscapeChar(c)| == 2 && t[0] == '\\';
    assert t[2..] == rest;
  }

  lemma UnescapeBmp(c: char, rest: string)
    requires !Printable(c) && c as int < 0x10000
    requires c != '"' && c != '\\' && c != '\n' && c != '\r' && c != '\t' && c as int != 0x08 && c as int != 0x0C
    ensures Unescape(EscapeChar(c) + rest) == Prepend(c, Unescape(rest))
  {
    assert EscapeChar(c) == "\\u" + Hex4(c as int);
    Hex4RoundTrip(c as int);
    UnescapeSingle(Hex4(c as int), rest, c as int);
  }

  /** One `\\u` escape of a code point outside the surrogates reads as that character. */
  lemma UnescapeSingle(h: string, rest: string, u: nat)
    requires |h| == 4 && ParseHex4(h) == Some(u) && (u < 0xD800 || 0xE000 <= u)
    ensures Unescape("\\u" + h + rest) == Prepend(u as char, Unescape(rest))
  {
    var t := "\\u" + h + rest;
    assert t[0] == '\\' && t[1] == 'u';
    assert t[2..6] == h;
    assert t[6..] == rest;
  }

  lemma UnescapeSurrogatePair(c: char, rest: string)
    requires c as int >= 0x10000
    ensures Unescape(EscapeChar(c) + rest) == Prepend(c, Unescape(rest))
  {
    var n := c as int - 0x10000;
    var hi, lo := 0xD800 + n / 1024, 0xDC00 + n % 1024;
    assert EscapeChar(c) == "\\u" + Hex4(hi) + "\\u" + Hex4(lo);
    Hex4RoundTrip(hi);
    Hex4RoundTrip(lo);
    assert 0x10000 + (hi - 0xD800) * 1024 + (lo - 0xDC00) == c as int;
    UnescapePair(Hex4(hi), Hex4(lo), rest, hi, lo);
  }

  /** A high surrogate escape followed by a low one reads as the character they encode. */
  lemma UnescapePair(h1: string, h2: string, rest: string, hi: nat, lo: nat)
    requires |h1| == 4 && |h2| == 4
    requires ParseHex4(h1) == Some(hi) && 0xD800 <= hi < 0xDC00
    requires ParseHex4(h2) == Some(lo) && 0xDC00 <= lo < 0xE000
    ensures Unescape("\\u" + h1 + "\\u" + h2 + rest) ==
      Prepend((0x10000 + (hi - 0xD800) * 1024 + (lo - 0xDC00)) as char, Unescape(rest))
  {
    var t := "\\u" + h1 + "\\u" + h2 + rest;
    assert t[0] == '\\' && t[1] == 'u';
    assert t[2..6] == h1;
    assert t[6] == '\\' && t[7] == 'u';
    assert t[8..12] == h2;
    assert t[12..] == rest;
  }

  /** What `json.dumps` writes, `JSON.parse` reads back unchanged. */
  lemma {:induction false} UnescapeEscape(s: string)
    ensures Unescape(Escape(s)) == Some(s)
    decreases |s|
  {
    if s != [] {
      UnescapeEscapeChar(s[0], Escape(s[1..]));
      UnescapeEscape(s[1..]);
      assert [s[0]] + s[1..] == s;
    }
  }

  lemma EscapeExamples()
    ensures Escape("a\"b") == "a\\\"b"
    ensures Escape("\n") == "\\n"
    ensures Escape("당") == "\\ub2f9"
  {
    assert "당"[0] as int == 0xB2F9;
    assert Hex4(0xB2F9) == "b2f9";
  }
}
