/**
 * The JSON text of a chat fragment as Python's `json.dumps({'text': chunk})`
 * writes it with its default settings (ASCII only, ", " and ": " as
 * separators), and a decoder of that shape used as its reference inverse.
 */
module Json {
  import opened Text
  import opened Oracle

  /** Lower-case hexadecimal digit, as the encoder writes them. */
  function HexDigit(d: nat): (c: char)
    requires d < 16
    ensures '0' <= c <= '9' || 'a' <= c <= 'f'
  {
    if d < 10 then ('0' as int + d) as char else ('a' as int + d - 10) as char
  }

  /** The value of a hexadecimal digit of either case, as a JSON parser reads it. */
  function DigitValue(c: char): (r: Option<nat>)
    ensures r.Some? ==> r.value < 16
  {
    if '0' <= c <= '9' then Some(c as int - '0' as int)
    else if 'a' <= c <= 'f' then Some(c as int - 'a' as int + 10)
    else if 'A' <= c <= 'F' then Some(c as int - 'A' as int + 10)
    else None
  }

  lemma DigitRoundTrip(d: nat)
    requires d < 16
    ensures DigitValue(HexDigit(d)) == Some(d)
  {
  }

  /** Four hexadecimal digits of a UTF-16 code unit, most significant first. */
  function Hex4(u: nat): (r: string)
    requires u < 0x10000
    ensures |r| == 4
  {
    var u1 := u / 0x10;
    var u2 := u1 / 0x10;
    [HexDigit(u2 / 0x10), HexDigit(u2 % 0x10), HexDigit(u1 % 0x10), HexDigit(u % 0x10)]
  }

  /** The code unit written by four hexadecimal digits. */
  function HexValue(h: string): (r: Option<nat>)
    requires |h| == 4
    ensures r.Some? ==> r.value < 0x10000
  {
    match (DigitValue(h[0]), DigitValue(h[1]), DigitValue(h[2]), DigitValue(h[3]))
    case (Some(a), Some(b), Some(c), Some(d)) => Some(a * 0x1000 + b * 0x100 + c * 0x10 + d)
    case _ => None
  }

  lemma {:induction false} HexRoundTrip(u: nat)
    requires u < 0x10000
    ensures HexValue(Hex4(u)) == Some(u)
  {
    var u1 := u / 0x10;
    var u2 := u1 / 0x10;
    var a, b, c, d := u2 / 0x10, u2 % 0x10, u1 % 0x10, u % 0x10;
    DigitRoundTrip(a);
    DigitRoundTrip(b);
    DigitRoundTrip(c);
    DigitRoundTrip(d);
    assert u == a * 0x1000 + b * 0x100 + c * 0x10 + d;
  }

  /** `\uXXXX` for one UTF-16 code unit. */
  function UnitEscape(u: nat): (r: string)
    requires u < 0x10000
    ensures |r| == 6 && r[..2] == "\\u" && r[2..] == Hex4(u)
  {
    "\\u" + Hex4(u)
  }

  predicate Printable(c: char) {
    ' ' <= c <= '~'
  }

  /**
   * How the encoder writes one character inside a string: the two-character
   * escapes, printable ASCII as itself, anything else as `\uXXXX` (a
   * surrogate pair above U+FFFF).
   */
  function EscapeChar(c: char): (r: string)
    ensures forall k :: 0 <= k < |r| ==> Printable(r[k])
    ensures 1 <= |r|
  {
    if c == '"' then "\\\""
    else if c == '\\' then "\\\\"
    else if c == '\n' then "\\n"
    else if c == '\r' then "\\r"
    else if c == '\t' then "\\t"
    else if c == '\U{8}' then "\\b"
    else if c == '\U{C}' then "\\f"
    else if Printable(c) then [c]
    else if c as int < 0x10000 then UnitEscape(c as int)
    else
      var v := c as int - 0x10000;
      UnitEscape(0xD800 + v / 0x400) + UnitEscape(0xDC00 + v % 0x400)
  }

  /** The characters of a string, escaped one by one. */
  function Escape(s: string): string {
    if s == [] then "" else EscapeChar(s[0]) + Escape(s[1..])
  }

  /** `json.dumps({'text': chunk})`. */
  function TextObject(chunk: string): string {
    "{\"text\": \"" + Escape(chunk) + "\"}"
  }

  /** The escaped text is printable ASCII. */
  lemma {:induction false} EscapePrintable(s: string)
    ensures forall k :: 0 <= k < |Escape(s)| ==> Printable(Escape(s)[k])
  {
    if s != [] {
      EscapePrintable(s[1..]);
      var e, r := EscapeChar(s[0]), Escape(s[1..]);
      assert Escape(s) == e + r;
      forall k | 0 <= k < |e + r|
        ensures Printable((e + r)[k])
      {
        if k >= |e| {
          assert (e + r)[k] == r[k - |e|];
        }
      }
    }
  }

  /** The object written for a chunk is printable ASCII between braces: it never holds a line end. */
  lemma TextObjectShape(chunk: string)
    ensures var r := TextObject(chunk);
            && |r| >= 12 && r[0] == '{' && r[1] == '"' && r[|r| - 1] == '}'
            && forall k :: 0 <= k < |r| ==> Printable(r[k])
  {
    var e := Escape(chunk);
    var r := TextObject(chunk);
    var head, tail := "{\"text\": \"", "\"}";
    assert r == head + e + tail;
    EscapePrintable(chunk);
    forall k | 0 <= k < |r|
      ensures Printable(r[k])
    {
      if k < |head| {
        assert r[k] == head[k];
      } else if k < |head| + |e| {
        assert r[k] == e[k - |head|];
      } else {
        assert r[k] == tail[k - |head| - |e|];
      }
    }
  }

  /** The character of a two-character escape. */
  function SimpleEscape(e: char): Option<char> {
    if e == '"' then Some('"')
    else if e == '\\' then Some('\\')
    else if e == '/' then Some('/')
    else if e == 'b' then Some('\U{8}')
    else if e == 'f' then Some('\U{C}')
    else if e == 'n' then Some('\n')
    else if e == 'r' then Some('\r')
    else if e == 't' then Some('\t')
    else None
  }

  /** The code unit of a `\uXXXX` escape at position i, if there is one. */
  function UnitAt(t: string, i: nat): (r: Option<nat>)
    ensures r.Some? ==> r.value < 0x10000
  {
    if i + 6 <= |t| && t[i] == '\\' && t[i + 1] == 'u' then HexValue(t[i + 2..i + 6]) else None
  }

  function Prepend(c: char, rest: Option<string>): Option<string> {
    match rest
    case None => None
    case Some(s) => Some([c] + s)
  }

  /**
   * The characters written by the body of a JSON string: None for a raw
   * quote or control character, an unknown escape, or a lone surrogate.
   */
  function Unescape(t: string): Option<string>
    decreases |t|
  {
    if t == [] then Some([])
    else if t[0] == '"' || t[0] < ' ' then None
    else if t[0] != '\\' then Prepend(t[0], Unescape(t[1..]))
    else if |t| < 2 then None
    else if t[1] != 'u' then
      match SimpleEscape(t[1])
      case None => None
      case Some(c) => Prepend(c, Unescape(t[2..]))
    else
      match UnitAt(t, 0)
      case None => None
      case Some(u) =>
        if 0xD800 <= u < 0xDC00 then
          match UnitAt(t, 6)
          case None => None
          case Some(w) =>
            if 0xDC00 <= w < 0xE000 then
              Prepend((0x10000 + (u - 0xD800) * 0x400 + (w - 0xDC00)) as char, Unescape(t[12..]))
            else None
        else if 0xDC00 <= u < 0xE000 then None
        else Prepend(u as char, Unescape(t[6..]))
  }

  /** The `text` field of an object written as `{"text": "..."}`, or None. */
  function DecodeTextObject(p: string): Option<string> {
    if |p| >= 12 && p[..10] == "{\"text\": \"" && p[|p| - 2..] == "\"}" then Unescape(p[10..|p| - 2]) else None
  }

  lemma UnitEscapeRead(u: nat, t: string, i: nat)
    requires u < 0x10000 && i + 6 <= |t| && t[i..i + 6] == UnitEscape(u)
    ensures UnitAt(t, i) == Some(u)
  {
    assert t[i + 2..i + 6] == t[i..i + 6][2..] == Hex4(u);
    HexRoundTrip(u);
  }

  /** Decoding undoes the escape of one character. */
  lemma UnescapeChar(c: char, rest: string)
    ensures Unescape(EscapeChar(c) + rest) == Prepend(c, Unescape(rest))
  {
    if c == '"' || c == '\\' || c == '\n' || c == '\r' || c == '\t' || c == '\U{8}' || c == '\U{C}' {
      UnescapeTwoCharacter(c, rest);
    } else if Printable(c) {
      var t := EscapeChar(c) + rest;
      assert t[1..] == rest;
    } else if c as int < 0x10000 {
      UnescapeUnit(c, rest);
    } else {
      UnescapePair(c, rest);
    }
  }

  /** Decoding undoes a two-character escape. */
  lemma UnescapeTwoCharacter(c: char, rest: string)
    requires c == '"' || c == '\\' || c == '\n' || c == '\r' || c == '\t' || c == '\U{8}' || c == '\U{C}'
    ensures Unescape(EscapeChar(c) + rest) == Prepend(c, Unescape(rest))
  {
    var t := EscapeChar(c) + rest;
    assert t[2..] == rest;
  }

  /** Decoding undoes the `\uXXXX` escape of a character below U+10000. */
  lemma UnescapeUnit(c: char, rest: string)
    requires !Printable(c) && c as int < 0x10000
    requires !(c == '"' || c == '\\' || c == '\n' || c == '\r' || c == '\t' || c == '\U{8}' || c == '\U{C}')
    ensures Unescape(EscapeChar(c) + rest) == Prepend(c, Unescape(rest))
  {
    var e := EscapeChar(c);
    var t := e + rest;
    assert t[..6] == e;
    UnitEscapeRead(c as int, t, 0);
    assert t[6..] == rest;
  }

  /** Decoding undoes the surrogate-pair escape of a character above U+FFFF. */
  lemma UnescapePair(c: char, rest: string)
    requires c as int >= 0x10000
    ensures Unescape(EscapeChar(c) + rest) == Prepend(c, Unescape(rest))
  {
    var v := c as int - 0x10000;
    var hi, lo := 0xD800 + v / 0x400, 0xDC00 + v % 0x400;
    PairArithmetic(c as int);
    assert EscapeChar(c) == UnitEscape(hi) + UnitEscape(lo);
    var t := UnitEscape(hi) + UnitEscape(lo) + rest;
    EscapesInFront(UnitEscape(hi), UnitEscape(lo), rest);
    UnitEscapeRead(hi, t, 0);
    UnitEscapeRead(lo, t, 6);
    ReadSurrogates(t, hi, lo);
  }

  lemma EscapesInFront(a: string, b: string, rest: string)
    requires |a| == 6 && |b| == 6
    ensures var t := a + b + rest;
            t[0..6] == a && t[6..12] == b && t[12..] == rest
  {
  }

  /** The surrogates of a code point above U+FFFF are in their ranges and give it back. */
  lemma PairArithmetic(n: int)
    requires 0x10000 <= n < 0x110000
    ensures var v := n - 0x10000;
            var hi, lo := 0xD800 + v / 0x400, 0xDC00 + v % 0x400;
            && 0xD800 <= hi < 0xDC00 && 0xDC00 <= lo < 0xE000
            && 0x10000 + (hi - 0xD800) * 0x400 + (lo - 0xDC00) == n
  {
  }

  /** A high and a low surrogate escape are read as one character. */
  lemma ReadSurrogates(t: string, hi: nat, lo: nat)
    requires UnitAt(t, 0) == Some(hi) && UnitAt(t, 6) == Some(lo)
    requires 0xD800 <= hi < 0xDC00 && 0xDC00 <= lo < 0xE000 && |t| >= 12
    ensures Unescape(t) == Prepend((0x10000 + (hi - 0xD800) * 0x400 + (lo - 0xDC00)) as char, Unescape(t[12..]))
  {
  }

  /** Decoding undoes escaping. */
  lemma {:induction false} UnescapeEscape(s: string)
    ensures Unescape(Escape(s)) == Some(s)
  {
    if s != [] {
      UnescapeChar(s[0], Escape(s[1..]));
      UnescapeEscape(s[1..]);
      assert [s[0]] + s[1..] == s;
    }
  }

  /** The object written for a chunk is read back as that chunk. */
  lemma DecodeTextObjectRoundTrip(chunk: string)
    ensures DecodeTextObject(TextObject(chunk)) == Some(chunk)
  {
    var p := TextObject(chunk);
    assert p[..10] == "{\"text\": \"";
    assert p[|p| - 2..] == "\"}";
    assert p[10..|p| - 2] == Escape(chunk);
    UnescapeEscape(chunk);
  }
}
