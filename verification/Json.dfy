// json.dumps with its default separators, for the values the API prints: null, booleans,
// integers, strings, lists and objects with their fields in a given order.

module Json {
  import opened Basics
  import Decimal
  import opened JsonString

  datatype Value =
    | Null
    | Bool(b: bool)
    | Int(i: int)
    | Str(s: string)
    | Arr(elems: seq<Value>)
    | Obj(fields: seq<Field>)

  datatype Field = Field(name: string, value: Value)

  function Dumps(v: Value): (s: string)
    ensures s != []
    decreases v, 1
  {
    match v
    case Null => "null"
    case Bool(b) => if b then "true" else "false"
    case Int(i) => Decimal.Str(i)
    case Str(s) => Quote(s)
    case Arr(es) => if es == [] then "[]" else "[" + Dumps(es[0]) + ElemsTail(es[1..])
    case Obj(fs) => if fs == [] then "{}" else "{" + Quote(fs[0].name) + ": " + Dumps(fs[0].value) + FieldsTail(fs[1..])
  }

  function ElemsTail(es: seq<Value>): (s: string)
    ensures s != [] && (s[0] == ',' || s[0] == ']')
    decreases es, 0
  {
    if es == [] then "]" else ", " + Dumps(es[0]) + ElemsTail(es[1..])
  }

  function FieldsTail(fs: seq<Field>): (s: string)
    ensures s != [] && (s[0] == ',' || s[0] == '}')
    decreases fs, 0
  {
    if fs == [] then "}" else ", " + Quote(fs[0].name) + ": " + Dumps(fs[0].value) + FieldsTail(fs[1..])
  }

  lemma StrPrintable(i: int)
    ensures Printable(Decimal.Str(i))
  {
    var s := Decimal.Str(i);
    forall k | 0 <= k < |s| ensures ' ' <= s[k] <= '~' {
      if i >= 0 {
        assert Decimal.IsDigit(s[k]);
      } else if k > 0 {
        assert s[k] == s[1..][k - 1];
      }
    }
  }

  /** A printed value is one line of printable ASCII. */
  lemma {:induction false} DumpsPrintable(v: Value)
    ensures Printable(Dumps(v))
    decreases v, 1
  {
    match v
    case Null =>
    case Bool(_) =>
    case Int(i) => StrPrintable(i);
    case Str(s) => QuotePrintable(s);
    case Arr(es) =>
      if es != [] {
        DumpsPrintable(es[0]);
        ElemsPrintable(es[1..]);
      }
    case Obj(fs) =>
      if fs != [] {
        QuotePrintable(fs[0].name);
        DumpsPrintable(fs[0].value);
        FieldsPrintable(fs[1..]);
      }
  }

  lemma {:induction false} ElemsPrintable(es: seq<Value>)
    ensures Printable(ElemsTail(es))
    decreases es, 0
  {
    if es != [] {
      DumpsPrintable(es[0]);
      ElemsPrintable(es[1..]);
    }
  }

  lemma {:induction false} FieldsPrintable(fs: seq<Field>)
    ensures Printable(FieldsTail(fs))
    decreases fs, 0
  {
    if fs != [] {
      QuotePrintable(fs[0].name);
      DumpsPrintable(fs[0].value);
      FieldsPrintable(fs[1..]);
    }
  }

  /** The text of a list from its first element on. */
  lemma ElemsStep(open: string, es: seq<Value>, x: string)
    requires es != []
    ensures open + Dumps(es[0]) + ElemsTail(es[1..]) + x == open + (Dumps(es[0]) + (ElemsTail(es[1..]) + x))
  {
    Assoc(open + Dumps(es[0]), ElemsTail(es[1..]), x);
    Assoc(open, Dumps(es[0]), ElemsTail(es[1..]) + x);
  }

  /** The text of an object from its first field on. */
  lemma FieldsStep(open: string, fs: seq<Field>, x: string)
    requires fs != []
    ensures open + Quote(fs[0].name) + ": " + Dumps(fs[0].value) + FieldsTail(fs[1..]) + x
         == open + (Quote(fs[0].name) + (": " + (Dumps(fs[0].value) + (FieldsTail(fs[1..]) + x))))
  {
    var n, v, t := Quote(fs[0].name), Dumps(fs[0].value), FieldsTail(fs[1..]);
    Assoc(open + n + ": " + v, t, x);
    Assoc(open + n + ": ", v, t + x);
    Assoc(open + n, ": ", v + (t + x));
    Assoc(open, n, ": " + (v + (t + x)));
  }
}
