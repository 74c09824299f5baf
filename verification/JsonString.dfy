// How json.dumps prints a string (ensure_ascii, the default): the string form of section 7 of
// RFC 8259 with every character outside printable ASCII escaped.  A Dafny char is a Unicode
// scalar value, which is what the API's validated requests and decoded outputs hold.

module JsonString {

  function HexDigit(d: int): (c: char)
    requires 0 <= d < 16
  {
    if d < 10 then ('0' as int + d) as char else ('a' as int + (d - 10)) as char
  }

  function Hex4(u: int): (s: string)
    requires 0 <= u < 0x10000
    ensures |s| == 4
  {
    [HexDigit(u / 4096), HexDigit(u / 256 % 16), HexDigit(u / 16 % 16), HexDigit(u % 16)]
  }

  function EscapeUnit(u: int): (s: string)
    requires 0 <= u < 0x10000
    ensures |s| == 6
  {
    "\\u" + Hex4(u)
  }

  /** The UTF-16 code units of a character (section 2.1 of RFC 2781). */
  function Units(c: char): (us: seq<int>)
    ensures 1 <= |us| <= 2
    ensures forall i :: 0 <= i < |us| ==> 0 <= us[i] < 0x10000
  {
    var u := c as int;
    if u < 0x10000 then [u]
    else [0xD800 + (u - 0x10000) / 1024, 0xDC00 + (u - 0x10000) % 1024]
  }

  function Utf16(s: string): seq<int> {
    if s == [] then [] else Units(s[0]) + Utf16(s[1..])
  }

  function EscapeChar(c: char): (s: string)
    ensures 1 <= |s| <= 12
  {
    if c == '"' then "\\\""
    else if c == '\\' then "\\\\"
    else if ' ' <= c <= '~' then [c]
    else if c == '\n' then "\\n"
    else if c == '\r' then "\\r"
    else if c == '\t' then "\\t"
    else if c as int == 12 then "\\f"
    else if c as int == 8 then "\\b"
    else
      var us := Units(c);
      if |us| == 1 then EscapeUnit(us[0]) else EscapeUnit(us[0]) + EscapeUnit(us[1])
  }

  function Escape(s: string): string {
    if s == [] then [] else EscapeChar(s[0]) + Escape(s[1..])
  }

  /** json.dumps(s) for a string. */
  function Quote(s: string): string {
    "\"" + Escape(s) + "\""
  }

  ghost predicate Printable(s: string) {
    forall i :: 0 <= i < |s| ==> ' ' <= s[i] <= '~'
  }

  lemma UnitPrintable(u: int)
    requires 0 <= u < 0x10000
    ensures Printable(EscapeUnit(u))
  {
    assert forall d :: 0 <= d < 16 ==> ' ' <= HexDigit(d) <= '~';
  }

  lemma EscapeCharPrintable(c: char)
    ensures Printable(EscapeChar(c))
  {
    var us := Units(c);
    UnitPrintable(us[0]);
    UnitPrintable(us[|us| - 1]);
  }

  /** Printed strings are printable ASCII: they hold no raw line break. */
  lemma {:induction false} EscapePrintable(s: string)
    ensures Printable(Escape(s))
  {
    if s != [] {
      EscapePrintable(s[1..]);
      EscapeCharPrintable(s[0]);
    }
  }

  lemma QuotePrintable(s: string)
    ensures Printable(Quote(s))
  {
    EscapePrintable(s);
  }

  function CodePoints(s: string): (cs: seq<int>)
    ensures |cs| == |s|
  {
    seq(|s|, i requires 0 <= i < |s| => s[i] as int)
  }

  /** Code units and characters coincide exactly for text inside the basic plane. */
  lemma {:induction false} Utf16IsCodePoints(s: string)
    ensures |Utf16(s)| >= |s|
    ensures Utf16(s) == CodePoints(s) <==> forall i :: 0 <= i < |s| ==> s[i] as int <= 0xFFFF
  {
    if s != [] {
      Utf16IsCodePoints(s[1..]);
      assert CodePoints(s) == [s[0] as int] + CodePoints(s[1..]);
      if s[0] as int <= 0xFFFF {
        assert Utf16(s)[1..] == Utf16(s[1..]);
        assert CodePoints(s)[1..] == CodePoints(s[1..]);
        assert forall i :: 0 <= i < |s[1..]| ==> s[1..][i] == s[i + 1];
        assert (forall i :: 0 <= i < |s[1..]| ==> s[1..][i] as int <= 0xFFFF) ==>
            forall i :: 0 <= i < |s| ==> s[i] as int <= 0xFFFF by {
          if forall i :: 0 <= i < |s[1..]| ==> s[1..][i] as int <= 0xFFFF {
            forall i | 0 <= i < |s| ensures s[i] as int <= 0xFFFF {
              assert i > 0 ==> s[i] == s[1..][i - 1];
            }
          }
        }
      } else {
        assert |Utf16(s)| > |s|;
      }
    }
  }
}
