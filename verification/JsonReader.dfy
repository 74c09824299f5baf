// How a client reads JSON text: the grammar of RFC 8259, for texts whose numbers are integers.
// The printer of `Json` is pinned by it: what is printed reads back.

module JsonReader {
  import opened Basics
  import Decimal
  import opened JsonString
  import opened Json
  import PythonLiteral

  datatype Parsed<+T> = NoParse | Parsed(value: T, rest: string)

  // ---- strings (section 7) ------------------------------------------------------------------------

  function Prepend(units: seq<int>, r: Parsed<seq<int>>): (p: Parsed<seq<int>>)
    ensures p.Parsed? <==> r.Parsed?
    ensures p.Parsed? ==> p.rest == r.rest
  {
    match r
    case NoParse => NoParse
    case Parsed(us, rest) => Parsed(units + us, rest)
  }

  /** The character a backslash and one letter stand for, or -1. */
  function ShortEscape(letter: char): int {
    match letter
    case '"' => 34
    case '\\' => 92
    case '/' => 47
    case 'b' => 8
    case 'f' => 12
    case 'n' => 10
    case 'r' => 13
    case 't' => 9
    case _ => -1
  }

  /** The UTF-16 code units of a string, read from just after its opening quote. */
  function ReadUnits(s: string): (r: Parsed<seq<int>>)
    ensures r.Parsed? ==> |r.rest| < |s|
    decreases |s|
  {
    if s == [] || s[0] < ' ' then NoParse
    else if s[0] == '"' then Parsed([], s[1..])
    else if s[0] != '\\' then Prepend(Units(s[0]), ReadUnits(s[1..]))
    else if |s| >= 2 && ShortEscape(s[1]) != -1 then Prepend([ShortEscape(s[1])], ReadUnits(s[2..]))
    else if |s| >= 6 && s[1] == 'u' && PythonLiteral.HexValue(s[2..6]) != -1 then
      Prepend([PythonLiteral.HexValue(s[2..6])], ReadUnits(s[6..]))
    else NoParse
  }

  datatype Text = Malformed | Text(s: string)

  /** The text of a sequence of code units; surrogates must come in pairs. */
  function FromUnits(us: seq<int>): Text {
    if us == [] then Text([])
    else if 0 <= us[0] < 0xD800 || 0xE000 <= us[0] < 0x10000 then
      match FromUnits(us[1..])
      case Malformed => Malformed
      case Text(t) => Text([us[0] as char] + t)
    else if |us| >= 2 && 0xD800 <= us[0] < 0xDC00 && 0xDC00 <= us[1] < 0xE000 then
      match FromUnits(us[2..])
      case Malformed => Malformed
      case Text(t) => Text([(0x10000 + (us[0] - 0xD800) * 1024 + (us[1] - 0xDC00)) as char] + t)
    else Malformed
  }

  function ReadString(s: string): (r: Parsed<string>)
    ensures r.Parsed? ==> |r.rest| < |s|
  {
    match ReadUnits(s)
    case NoParse => NoParse
    case Parsed(us, rest) =>
      match FromUnits(us)
      case Malformed => NoParse
      case Text(t) => Parsed(t, rest)
  }

  // ---- numbers (section 6) ------------------------------------------------------------------------

  /** Digits without a leading zero, followed by neither a fraction nor an exponent. */
  function ReadDigits(s: string): (r: Parsed<nat>)
    ensures r.Parsed? ==> |r.rest| < |s|
  {
    var n := Decimal.DigitRun(s);
    var rest := s[n..];
    if n == 0 || (n > 1 && s[0] == '0') || (rest != [] && rest[0] in {'.', 'e', 'E'}) then NoParse
    else
      RunIsDigits(s);
      Parsed(Decimal.Value(s[..n]), rest)
  }

  /** An integer. */
  function ReadNumber(s: string): (r: Parsed<Value>)
    ensures r.Parsed? ==> |r.rest| < |s|
  {
    if s != [] && s[0] == '-' then
      match ReadDigits(s[1..])
      case NoParse => NoParse
      case Parsed(n, rest) => Parsed(Int(0 - n), rest)
    else
      match ReadDigits(s)
      case NoParse => NoParse
      case Parsed(n, rest) => Parsed(Int(n), rest)
  }

  lemma {:induction false} RunIsDigits(s: string)
    ensures Decimal.AllDigits(s[..Decimal.DigitRun(s)])
  {
    if s != [] && Decimal.IsDigit(s[0]) {
      RunIsDigits(s[1..]);
      var n := Decimal.DigitRun(s[1..]);
      assert s[..n + 1] == [s[0]] + s[1..][..n];
    }
  }

  // ---- values (sections 2 to 5) -------------------------------------------------------------------

  /** White space (section 2). */
  function SkipSpace(s: string): (t: string)
    ensures |t| <= |s|
  {
    if s != [] && s[0] in {' ', '\t', '\n', '\r'} then SkipSpace(s[1..]) else s
  }

  function ReadValue(s: string): (r: Parsed<Value>)
    ensures r.Parsed? ==> |r.rest| < |s|
    decreases |s|, 0
  {
    var t := SkipSpace(s);
    if t == [] then NoParse
    else if t[0] == '"' then
      match ReadString(t[1..])
      case NoParse => NoParse
      case Parsed(text, rest) => Parsed(Str(text), rest)
    else if t[0] == '[' then
      var u := SkipSpace(t[1..]);
      if u != [] && u[0] == ']' then Parsed(Arr([]), u[1..])
      else
        match ReadElems(t[1..])
        case NoParse => NoParse
        case Parsed(es, rest) => Parsed(Arr(es), rest)
    else if t[0] == '{' then
      var u := SkipSpace(t[1..]);
      if u != [] && u[0] == '}' then Parsed(Obj([]), u[1..])
      else
        match ReadFields(t[1..])
        case NoParse => NoParse
        case Parsed(fs, rest) => Parsed(Obj(fs), rest)
    else if "null" <= t then Parsed(Null, t[4..])
    else if "true" <= t then Parsed(Bool(true), t[4..])
    else if "false" <= t then Parsed(Bool(false), t[5..])
    else ReadNumber(t)
  }

  /** A list from one of its elements on, up to and including the closing bracket. */
  function ReadElems(s: string): (r: Parsed<seq<Value>>)
    ensures r.Parsed? ==> |r.rest| < |s|
    decreases |s|, 1
  {
    match ReadValue(s)
    case NoParse => NoParse
    case Parsed(e, rest) =>
      match ReadMoreElems(rest)
      case NoParse => NoParse
      case Parsed(es, x) => Parsed([e] + es, x)
  }

  function ReadMoreElems(s: string): (r: Parsed<seq<Value>>)
    ensures r.Parsed? ==> |r.rest| < |s|
    decreases |s|, 2
  {
    var t := SkipSpace(s);
    if t == [] then NoParse
    else if t[0] == ']' then Parsed([], t[1..])
    else if t[0] == ',' then ReadElems(t[1..])
    else NoParse
  }

  /** An object from one of its fields on, up to and including the closing brace. */
  function ReadFields(s: string): (r: Parsed<seq<Field>>)
    ensures r.Parsed? ==> |r.rest| < |s|
    decreases |s|, 1
  {
    var t := SkipSpace(s);
    if t == [] || t[0] != '"' then NoParse
    else
      match ReadString(t[1..])
      case NoParse => NoParse
      case Parsed(name, rest) =>
        var u := SkipSpace(rest);
        if u == [] || u[0] != ':' then NoParse
        else
          match ReadValue(u[1..])
          case NoParse => NoParse
          case Parsed(v, rest') =>
            match ReadMoreFields(rest')
            case NoParse => NoParse
            case Parsed(fs, x) => Parsed([Field(name, v)] + fs, x)
  }

  function ReadMoreFields(s: string): (r: Parsed<seq<Field>>)
    ensures r.Parsed? ==> |r.rest| < |s|
    decreases |s|, 2
  {
    var t := SkipSpace(s);
    if t == [] then NoParse
    else if t[0] == '}' then Parsed([], t[1..])
    else if t[0] == ',' then ReadFields(t[1..])
    else NoParse
  }

  // ---- strings read back ----------------------------------------------------------------------------

  lemma UnitReadsBack(u: int, tail: string)
    requires 0 <= u < 0x10000
    ensures ReadUnits(EscapeUnit(u) + tail) == Prepend([u], ReadUnits(tail))
  {
    var s := EscapeUnit(u) + tail;
    assert s[0] == '\\' && s[1] == 'u' && s[2..6] == Hex4(u) && s[6..] == tail;
    PythonLiteral.HexValue4(u);
  }

  lemma ShortReadsBack(letter: char, tail: string)
    requires ShortEscape(letter) != -1
    ensures ReadUnits(['\\', letter] + tail) == Prepend([ShortEscape(letter)], ReadUnits(tail))
  {
    var s := ['\\', letter] + tail;
    assert s[2..] == tail;
  }

  lemma PlainReadsBack(c: char, tail: string)
    requires ' ' <= c <= '~' && c != '"' && c != '\\'
    ensures ReadUnits([c] + tail) == Prepend(Units(c), ReadUnits(tail))
  {
    assert ([c] + tail)[1..] == tail;
  }

  lemma PairReadsBack(u: int, v: int, tail: string)
    requires 0 <= u < 0x10000 && 0 <= v < 0x10000
    ensures ReadUnits(EscapeUnit(u) + EscapeUnit(v) + tail) == Prepend([u, v], ReadUnits(tail))
  {
    Assoc(EscapeUnit(u), EscapeUnit(v), tail);
    UnitReadsBack(u, EscapeUnit(v) + tail);
    UnitReadsBack(v, tail);
    PrependTwice([u], [v], ReadUnits(tail));
    assert [u] + [v] == [u, v];
  }

  lemma PrependTwice(a: seq<int>, b: seq<int>, r: Parsed<seq<int>>)
    ensures Prepend(a, Prepend(b, r)) == Prepend(a + b, r)
  {
    if r.Parsed? {
      Assoc(a, b, r.value);
    }
  }

  lemma CharReadsBack(c: char, tail: string)
    ensures ReadUnits(EscapeChar(c) + tail) == Prepend(Units(c), ReadUnits(tail))
  {
    var us, s := Units(c), EscapeChar(c);
    if ' ' <= c <= '~' && c != '"' && c != '\\' {
      PlainReadsBack(c, tail);
    } else if c == '"' || c == '\\' || c == '\n' || c == '\r' || c == '\t' || c as int == 12 || c as int == 8 {
      assert s == ['\\', s[1]];
      ShortReadsBack(s[1], tail);
    } else if |us| == 1 {
      UnitReadsBack(us[0], tail);
    } else {
      PairReadsBack(us[0], us[1], tail);
    }
  }

  lemma {:induction false} UnitsReadBack(s: string, rest: string)
    ensures ReadUnits(Escape(s) + "\"" + rest) == Parsed(Utf16(s), rest)
  {
    if s == [] {
      assert Escape(s) + "\"" + rest == "\"" + rest;
    } else {
      var tail := Escape(s[1..]) + "\"" + rest;
      assert Escape(s) + "\"" + rest == EscapeChar(s[0]) + tail;
      CharReadsBack(s[0], tail);
      UnitsReadBack(s[1..], rest);
    }
  }

  /** UTF-16 determines the text, and says which. */
  lemma {:induction false} TextOfUnits(s: string)
    ensures FromUnits(Utf16(s)) == Text(s)
  {
    if s != [] {
      var us := Units(s[0]);
      TextOfUnits(s[1..]);
      assert Utf16(s)[|us|..] == Utf16(s[1..]);
      assert s == [s[0]] + s[1..];
      if |us| == 2 {
        var d := s[0] as int - 0x10000;
        assert d == d / 1024 * 1024 + d % 1024;
        assert Utf16(s)[0] == us[0] && Utf16(s)[1] == us[1];
      }
    }
  }

  lemma QuoteSplits(s: string, rest: string)
    ensures Quote(s) + rest == "\"" + (Escape(s) + "\"" + rest)
  {
    Assoc("\"", Escape(s) + "\"", rest);
    Assoc("\"", Escape(s), "\"");
  }

  /** A printed string reads back as the string. */
  lemma StringReadsBack(s: string, rest: string)
    ensures ReadString(Escape(s) + "\"" + rest) == Parsed(s, rest)
  {
    UnitsReadBack(s, rest);
    TextOfUnits(s);
  }

  // ---- values read back -----------------------------------------------------------------------------

  /** What may follow a value inside a JSON text. */
  predicate Ends(x: string) {
    x == [] || x[0] in {',', ']', '}', ' ', '\t', '\n', '\r'}
  }

  lemma {:induction false} NoLeadingZero(n: nat)
    ensures n > 0 ==> Decimal.Digits(n)[0] != '0'
  {
    if n >= 10 {
      NoLeadingZero(n / 10);
      assert Decimal.Digits(n)[0] == Decimal.Digits(n / 10)[0];
    }
  }

  lemma DigitsReadBack(n: nat, x: string)
    requires Ends(x)
    ensures ReadDigits(Decimal.Digits(n) + x) == Parsed(n, x)
  {
    var d := Decimal.Digits(n);
    var t := d + x;
    Decimal.RunOfDigits(d, x);
    Decimal.ValueOfDigits(n);
    NoLeadingZero(n);
    assert t[0] == d[0] && t[..|d|] == d && t[|d|..] == x;
    assert n == 0 ==> |d| == 1;
  }

  lemma NumberReadsBack(i: int, x: string)
    requires Ends(x)
    ensures ReadNumber(Decimal.Str(i) + x) == Parsed(Int(i), x)
  {
    Decimal.SignSplit(i, x);
    DigitsReadBack(if i < 0 then -i else i, x);
  }

  /** Every text of a value begins in a way that tells its kind. */
  lemma Lead(v: Value, x: string)
    ensures var t := Dumps(v) + x;
            && t != [] && SkipSpace(t) == t
            && (t[0] == '"' <==> v.Str?) && (t[0] == '[' <==> v.Arr?) && (t[0] == '{' <==> v.Obj?)
            && t[0] != ']' && t[0] != '}'
  {
    assert (Dumps(v) + x)[0] == Dumps(v)[0];
    if v.Int? && v.i >= 0 {
      assert Decimal.IsDigit(Decimal.Str(v.i)[0]);
    }
  }

  lemma WordReadsBack(v: Value, x: string)
    requires v.Null? || v.Bool?
    ensures ReadValue(Dumps(v) + x) == Parsed(v, x)
  {
    var t := Dumps(v) + x;
    Lead(v, x);
    if v.Null? {
      assert "null" <= t && t[4..] == x;
    } else if v.b {
      assert t[0] == 't' && !("null" <= t) && "true" <= t && t[4..] == x;
    } else {
      assert t[0] == 'f' && !("null" <= t) && !("true" <= t) && "false" <= t && t[5..] == x;
    }
  }

  lemma IntReadsBack(i: int, x: string)
    requires Ends(x)
    ensures ReadValue(Dumps(Int(i)) + x) == Parsed(Int(i), x)
  {
    var t := Dumps(Int(i)) + x;
    Lead(Int(i), x);
    Decimal.SignSplit(i, x);
    assert t[0] == '-' || Decimal.IsDigit(t[0]) by {
      assert t[0] == Decimal.Str(i)[0];
    }
    assert !("null" <= t) && !("true" <= t) && !("false" <= t);
    NumberReadsBack(i, x);
  }

  lemma StrReadsBack(s: string, x: string)
    ensures ReadValue(Dumps(Str(s)) + x) == Parsed(Str(s), x)
  {
    var t := Dumps(Str(s)) + x;
    Lead(Str(s), x);
    StringReadsBack(s, x);
    QuoteSplits(s, x);
    assert t[1..] == Escape(s) + "\"" + x;
  }

  /** A printed value reads back as the value, and reading stops at its end. */
  lemma {:induction false} ReadBack(v: Value, x: string)
    requires Ends(x)
    ensures ReadValue(Dumps(v) + x) == Parsed(v, x)
    decreases v, 2
  {
    match v
    case Null => WordReadsBack(v, x);
    case Bool(_) => WordReadsBack(v, x);
    case Int(i) => IntReadsBack(i, x);
    case Str(s) => StrReadsBack(s, x);
    case Arr(es) =>
      if es != [] { ElemsReadBack(es, x); }
      ArrReads(es, x);
    case Obj(fs) =>
      if fs != [] { FieldsReadBack(fs, x); }
      ObjReads(fs, x);
  }

  lemma ArrReads(es: seq<Value>, x: string)
    requires es != [] ==> ReadElems(Dumps(es[0]) + (ElemsTail(es[1..]) + x)) == Parsed(es, x)
    ensures ReadValue(Dumps(Arr(es)) + x) == Parsed(Arr(es), x)
  {
    var t := Dumps(Arr(es)) + x;
    Lead(Arr(es), x);
    if es == [] {
      assert t[1..] == "]" + x && t[2..] == x;
      assert SkipSpace(t[1..]) == t[1..] && t[1..][1..] == x;
    } else {
      var body := Dumps(es[0]) + (ElemsTail(es[1..]) + x);
      ElemsStep("[", es, x);
      Lead(es[0], ElemsTail(es[1..]) + x);
      assert t == "[" + body && t[1..] == body;
    }
  }

  lemma ObjReads(fs: seq<Field>, x: string)
    requires fs != [] ==> ReadFields(Quote(fs[0].name) + (": " + (Dumps(fs[0].value) + (FieldsTail(fs[1..]) + x)))) == Parsed(fs, x)
    ensures ReadValue(Dumps(Obj(fs)) + x) == Parsed(Obj(fs), x)
  {
    var t := Dumps(Obj(fs)) + x;
    Lead(Obj(fs), x);
    if fs == [] {
      assert t[1..] == "}" + x && t[2..] == x;
      assert SkipSpace(t[1..]) == t[1..] && t[1..][1..] == x;
    } else {
      var rest := ": " + (Dumps(fs[0].value) + (FieldsTail(fs[1..]) + x));
      FieldsStep("{", fs, x);
      QuoteStarts(fs[0].name, rest);
      assert t == "{" + (Quote(fs[0].name) + rest) && t[1..] == Quote(fs[0].name) + rest;
    }
  }

  lemma {:induction false} ElemsReadBack(es: seq<Value>, x: string)
    requires es != []
    ensures ReadElems(Dumps(es[0]) + (ElemsTail(es[1..]) + x)) == Parsed(es, x)
    decreases es, 0
  {
    ReadBack(es[0], ElemsTail(es[1..]) + x);
    MoreElemsReadBack(es[1..], x);
    assert es == [es[0]] + es[1..];
  }

  lemma {:induction false} MoreElemsReadBack(es: seq<Value>, x: string)
    ensures Ends(ElemsTail(es) + x) && ReadMoreElems(ElemsTail(es) + x) == Parsed(es, x)
    decreases es, 1
  {
    if es == [] {
      assert ("]" + x)[1..] == x;
    } else {
      ElemsReadBack(es, x);
      ElemsStep(", ", es, x);
      Lead(es[0], ElemsTail(es[1..]) + x);
      MoreElemsRead(Dumps(es[0]) + (ElemsTail(es[1..]) + x), es, x);
    }
  }

  lemma MoreElemsRead(body: string, es: seq<Value>, x: string)
    requires body != [] && SkipSpace(body) == body && ReadElems(body) == Parsed(es, x)
    ensures Ends(", " + body) && ReadMoreElems(", " + body) == Parsed(es, x)
  {
    var t := ", " + body;
    assert t[0] == ',' && SkipSpace(t) == t && t[1..] == " " + body;
    SpaceBefore(body);
  }

  /** One space before a value that begins with none is skipped. */
  lemma SpaceBefore(body: string)
    requires body != [] && SkipSpace(body) == body
    ensures SkipSpace(" " + body) == body && ReadValue(" " + body) == ReadValue(body)
    ensures ReadElems(" " + body) == ReadElems(body) && ReadFields(" " + body) == ReadFields(body)
  {
    assert (" " + body)[1..] == body;
  }

  /** How fields are read, once the parts of the first are. */
  lemma FieldsOf(s: string, name: string, rest: string, v: Value, tail: string, more: seq<Field>, x: string)
    requires SkipSpace(s) == s && s != [] && s[0] == '"' && ReadString(s[1..]) == Parsed(name, rest)
    requires SkipSpace(rest) == rest && rest != [] && rest[0] == ':' && ReadValue(rest[1..]) == Parsed(v, tail)
    requires ReadMoreFields(tail) == Parsed(more, x)
    ensures ReadFields(s) == Parsed([Field(name, v)] + more, x)
  {
  }

  /** A name, a colon and a space, then a value and what follows it. */
  lemma FieldReads(name: string, v: Value, tail: string, more: seq<Field>, x: string)
    requires ReadValue(Dumps(v) + tail) == Parsed(v, tail) && ReadMoreFields(tail) == Parsed(more, x)
    ensures ReadFields(Quote(name) + (": " + (Dumps(v) + tail))) == Parsed([Field(name, v)] + more, x)
  {
    var body := Dumps(v) + tail;
    var rest := ": " + body;
    Lead(v, tail);
    SpaceBefore(body);
    StringReadsBack(name, rest);
    QuoteStarts(name, rest);
    assert rest[1..] == " " + body && SkipSpace(rest) == rest;
    FieldsOf(Quote(name) + rest, name, rest, v, tail, more, x);
  }

  lemma QuoteStarts(name: string, rest: string)
    ensures var t := Quote(name) + rest;
            && t != [] && t[0] == '"' && SkipSpace(t) == t && t[1..] == Escape(name) + "\"" + rest
  {
    QuoteSplits(name, rest);
  }

  lemma {:induction false} FieldsReadBack(fs: seq<Field>, x: string)
    requires fs != []
    ensures ReadFields(Quote(fs[0].name) + (": " + (Dumps(fs[0].value) + (FieldsTail(fs[1..]) + x)))) == Parsed(fs, x)
    decreases fs, 0
  {
    var tail := FieldsTail(fs[1..]) + x;
    MoreFieldsReadBack(fs[1..], x);
    ReadBack(fs[0].value, tail);
    FieldReads(fs[0].name, fs[0].value, tail, fs[1..], x);
    assert fs == [Field(fs[0].name, fs[0].value)] + fs[1..];
  }

  lemma {:induction false} MoreFieldsReadBack(fs: seq<Field>, x: string)
    ensures Ends(FieldsTail(fs) + x) && ReadMoreFields(FieldsTail(fs) + x) == Parsed(fs, x)
    decreases fs, 1
  {
    if fs == [] {
      assert ("}" + x)[1..] == x;
    } else {
      var rest := ": " + (Dumps(fs[0].value) + (FieldsTail(fs[1..]) + x));
      FieldsReadBack(fs, x);
      FieldsStep(", ", fs, x);
      QuoteStarts(fs[0].name, rest);
      MoreFieldsRead(Quote(fs[0].name) + rest, fs, x);
    }
  }

  lemma MoreFieldsRead(body: string, fs: seq<Field>, x: string)
    requires body != [] && SkipSpace(body) == body && ReadFields(body) == Parsed(fs, x)
    ensures Ends(", " + body) && ReadMoreFields(", " + body) == Parsed(fs, x)
  {
    var t := ", " + body;
    assert t[0] == ',' && SkipSpace(t) == t && t[1..] == " " + body;
    SpaceBefore(body);
  }

  /** The text of a value is read as that value and nothing more. */
  lemma TextReadsBack(v: Value)
    ensures ReadValue(Dumps(v)) == Parsed(v, [])
  {
    assert Dumps(v) + [] == Dumps(v);
    ReadBack(v, []);
  }

  /** Comparing printed texts is comparing values. */
  lemma DumpsInjective(v: Value, w: Value)
    requires Dumps(v) == Dumps(w)
    ensures v == w
  {
    TextReadsBack(v);
    TextReadsBack(w);
  }
}
