// How Python reads a short string literal back: section 2.4.1.1 ("Escape sequences") of The
// Python Language Reference 3.12.  A Python string is a sequence of code points which, unlike a
// Dafny string, may hold lone surrogates; it is modelled as a sequence of integers.

module PythonLiteral {
  import opened JsonString

  datatype Read = Failed | Read(codes: seq<int>, rest: string)

  datatype EscapeRead = BadEscape | Escaped(codes: seq<int>, used: nat)

  /** The value of a hexadecimal digit, or -1. */
  function HexDigitValue(c: char): (v: int)
    ensures -1 <= v < 16
  {
    if '0' <= c <= '9' then c as int - '0' as int
    else if 'a' <= c <= 'f' then c as int - 'a' as int + 10
    else if 'A' <= c <= 'F' then c as int - 'A' as int + 10
    else -1
  }

  /** The value of a run of hexadecimal digits, or -1 if it holds anything else. */
  function HexValue(s: string): (v: int)
    ensures v >= -1
  {
    if s == [] then 0 else
      var hi := HexValue(s[..|s| - 1]);
      var lo := HexDigitValue(s[|s| - 1]);
      if hi == -1 || lo == -1 then -1 else hi * 16 + lo
  }

  predicate IsOctal(c: char) {
    '0' <= c <= '7'
  }

  function OctalRun(s: string): (n: nat)
    ensures n <= |s| && n <= 3
  {
    if |s| == 0 || !IsOctal(s[0]) then 0
    else if |s| == 1 || !IsOctal(s[1]) then 1
    else if |s| == 2 || !IsOctal(s[2]) then 2
    else 3
  }

  function OctalValue(s: string): int {
    if s == [] then 0 else OctalValue(s[..|s| - 1]) * 8 + (s[|s| - 1] as int - '0' as int)
  }

  function ReadHex(s: string, n: nat): EscapeRead {
    if |s| < 1 + n then BadEscape else
      var v := HexValue(s[1..1 + n]);
      if v == -1 || v > 0x10FFFF then BadEscape else Escaped([v], 1 + n)
  }

  /** Reads one escape sequence; s starts just after the backslash. */
  function ReadEscape(s: string): (e: EscapeRead)
    ensures e.Escaped? ==> e.used <= |s|
  {
    if s == [] then BadEscape else
      match s[0]
      case '\n' => Escaped([], 1)
      case '\\' => Escaped([92], 1)
      case '\'' => Escaped([39], 1)
      case '"' => Escaped([34], 1)
      case 'a' => Escaped([7], 1)
      case 'b' => Escaped([8], 1)
      case 'f' => Escaped([12], 1)
      case 'n' => Escaped([10], 1)
      case 'r' => Escaped([13], 1)
      case 't' => Escaped([9], 1)
      case 'v' => Escaped([11], 1)
      case 'x' => ReadHex(s, 2)
      case 'u' => ReadHex(s, 4)
      case 'U' => ReadHex(s, 8)
      case 'N' => BadEscape
      case _ =>
        var n := OctalRun(s);
        if n > 0 then Escaped([OctalValue(s[..n])], n) else Escaped([92], 0)
  }

  function Prepend(codes: seq<int>, r: Read): Read {
    match r
    case Failed => Failed
    case Read(cs, rest) => Read(codes + cs, rest)
  }

  /** Reads the characters after an opening quote up to and including the closing one. */
  function ReadBody(s: string, quote: char): Read
    decreases |s|
  {
    if s == [] || s[0] == '\n' then Failed
    else if s[0] == quote then Read([], s[1..])
    else if s[0] == '\\' then
      var e := ReadEscape(s[1..]);
      if e.BadEscape? then Failed else Prepend(e.codes, ReadBody(s[1 + e.used..], quote))
    else Prepend([s[0] as int], ReadBody(s[1..], quote))
  }

  /** Reads a literal; three opening quotes start a long string, which is not a short literal. */
  function ReadLiteral(s: string): Read {
    if s == [] || (s[0] != '"' && s[0] != '\'') then Failed
    else if |s| >= 3 && s[1] == s[0] && s[2] == s[0] then Failed
    else ReadBody(s[1..], s[0])
  }

  lemma HexValueAppend(s: string, d: int)
    requires 0 <= d < 16 && HexValue(s) != -1
    ensures HexValue(s + [HexDigit(d)]) == HexValue(s) * 16 + d
  {
    assert (s + [HexDigit(d)])[..|s|] == s;
  }

  lemma HexValue4(u: int)
    requires 0 <= u < 0x10000
    ensures HexValue(Hex4(u)) == u
  {
    var a, b, c, d := u / 4096, u / 256 % 16, u / 16 % 16, u % 16;
    var s := Hex4(u);
    HexValueAppend([], a);
    assert [] + [HexDigit(a)] == s[..1];
    HexValueAppend(s[..1], b);
    assert s[..1] + [HexDigit(b)] == s[..2];
    HexValueAppend(s[..2], c);
    assert s[..2] + [HexDigit(c)] == s[..3];
    HexValueAppend(s[..3], d);
    assert s[..3] + [HexDigit(d)] == s;
    assert u / 256 / 16 == u / 4096 && u / 16 / 16 == u / 256;
  }

  /** One \u escape reads back as one code unit. */
  lemma ReadUnit(u: int, tail: string)
    requires 0 <= u < 0x10000
    ensures ReadBody(EscapeUnit(u) + tail, '"') == Prepend([u], ReadBody(tail, '"'))
  {
    var s := EscapeUnit(u) + tail;
    assert s[1..][0] == 'u';
    assert s[1..][1..5] == Hex4(u);
    HexValue4(u);
    assert ReadEscape(s[1..]) == Escaped([u], 5);
    assert s[6..] == tail;
  }

  lemma PrependPrepend(a: seq<int>, b: seq<int>, r: Read)
    ensures Prepend(a, Prepend(b, r)) == Prepend(a + b, r)
  {
    if r.Read? {
      assert a + (b + r.codes) == (a + b) + r.codes;
    }
  }

  /** A backslash and one letter read back as the character they stand for. */
  lemma ReadShort(letter: char, code: int, tail: string)
    requires ReadEscape([letter] + tail) == Escaped([code], 1)
    ensures ReadBody(['\\', letter] + tail, '"') == Prepend([code], ReadBody(tail, '"'))
  {
    var s := ['\\', letter] + tail;
    assert s[1..] == [letter] + tail && s[2..] == tail;
  }

  lemma ReadPlain(c: char, tail: string)
    requires ' ' <= c <= '~' && c != '"' && c != '\\'
    ensures ReadBody([c] + tail, '"') == Prepend([c as int], ReadBody(tail, '"'))
  {
    assert ([c] + tail)[1..] == tail;
  }

  lemma ReadPair(u: int, v: int, tail: string)
    requires 0 <= u < 0x10000 && 0 <= v < 0x10000
    ensures ReadBody(EscapeUnit(u) + EscapeUnit(v) + tail, '"') == Prepend([u, v], ReadBody(tail, '"'))
  {
    assert EscapeUnit(u) + EscapeUnit(v) + tail == EscapeUnit(u) + (EscapeUnit(v) + tail);
    ReadUnit(u, EscapeUnit(v) + tail);
    ReadUnit(v, tail);
    PrependPrepend([u], [v], ReadBody(tail, '"'));
    assert [u] + [v] == [u, v];
  }

  lemma ReadChar(c: char, tail: string)
    ensures ReadBody(EscapeChar(c) + tail, '"') == Prepend(Units(c), ReadBody(tail, '"'))
  {
    var us, s := Units(c), EscapeChar(c);
    if ' ' <= c <= '~' && c != '"' && c != '\\' {
      ReadPlain(c, tail);
    } else if c == '"' || c == '\\' || c == '\n' || c == '\r' || c == '\t' || c as int == 12 || c as int == 8 {
      assert s == ['\\', s[1]];
      ReadShort(s[1], c as int, tail);
    } else if |us| == 1 {
      ReadUnit(us[0], tail);
    } else {
      ReadPair(us[0], us[1], tail);
    }
  }

  /** An escaped string reads back as its UTF-16 code units, and reading stops at its end. */
  lemma {:induction false} ReadEscaped(s: string, rest: string)
    ensures ReadBody(Escape(s) + "\"" + rest, '"') == Read(Utf16(s), rest)
  {
    if s == [] {
      assert Escape(s) + "\"" + rest == "\"" + rest;
    } else {
      var tail := Escape(s[1..]) + "\"" + rest;
      assert Escape(s) + "\"" + rest == EscapeChar(s[0]) + tail;
      ReadChar(s[0], tail);
      ReadEscaped(s[1..], rest);
    }
  }
}
