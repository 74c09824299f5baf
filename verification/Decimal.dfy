// Decimal printing of integers, as Python's str() and json.dumps() produce it.  The facts
// proved here (a printed number determines the number, and where it stops) carry the claims
// about failure reasons, container names and JSON texts.

module Decimal {

  predicate IsDigit(c: char) {
    '0' <= c <= '9'
  }

  predicate AllDigits(s: string) {
    forall i :: 0 <= i < |s| ==> IsDigit(s[i])
  }

  function Digit(d: nat): (c: char)
    requires d < 10
  {
    ('0' as int + d) as char
  }

  /** The decimal digits of a natural number, most significant first. */
  function Digits(n: nat): (s: string)
    ensures s != [] && AllDigits(s)
  {
    if n < 10 then [Digit(n)] else Digits(n / 10) + [Digit(n % 10)]
  }

  /** Python's str(i). */
  function Str(i: int): (s: string)
    ensures s != []
    ensures s[0] == '-' <==> i < 0
    ensures i >= 0 ==> AllDigits(s)
    ensures i < 0 ==> AllDigits(s[1..])
  {
    if i < 0 then "-" + Digits(-i) else Digits(i)
  }

  /** Reads a string of digits back. */
  function Value(s: string): nat
    requires AllDigits(s)
  {
    if s == [] then 0 else Value(s[..|s| - 1]) * 10 + (s[|s| - 1] as int - '0' as int)
  }

  lemma {:induction false} ValueOfDigits(n: nat)
    ensures Value(Digits(n)) == n
  {
    if n < 10 {
      assert Digits(n)[..0] == [];
    } else {
      var d := Digits(n);
      assert d[..|d| - 1] == Digits(n / 10);
      ValueOfDigits(n / 10);
    }
  }

  /** How many digits a text starts with. */
  function DigitRun(s: string): (n: nat)
    ensures n <= |s|
  {
    if s == [] || !IsDigit(s[0]) then 0 else 1 + DigitRun(s[1..])
  }

  lemma {:induction false} RunOfDigits(d: string, x: string)
    requires AllDigits(d)
    requires x == [] || !IsDigit(x[0])
    ensures DigitRun(d + x) == |d|
  {
    if d == [] {
      assert d + x == x;
    } else {
      assert (d + x)[1..] == d[1..] + x;
      RunOfDigits(d[1..], x);
    }
  }

  lemma DigitsUnique(a: nat, b: nat, x: string, y: string)
    requires Digits(a) + x == Digits(b) + y
    requires x == [] || !IsDigit(x[0])
    requires y == [] || !IsDigit(y[0])
    ensures a == b && x == y
  {
    var p, q := Digits(a), Digits(b);
    RunOfDigits(p, x);
    RunOfDigits(q, y);
    assert p == (p + x)[..|p|] == (q + y)[..|q|] == q;
    assert x == (p + x)[|p|..] == (q + y)[|q|..] == y;
    ValueOfDigits(a);
    ValueOfDigits(b);
  }

  lemma SignSplit(a: int, x: string)
    ensures a < 0 ==> (Str(a) + x)[0] == '-' && (Str(a) + x)[1..] == Digits(-a) + x
    ensures a >= 0 ==> (Str(a) + x)[0] != '-'
  {
    assert (Str(a) + x)[0] == Str(a)[0];
    assert a >= 0 ==> IsDigit(Digits(a)[0]);
  }

  /** Two printed numbers followed by non-digits agree only if number and remainder agree. */
  lemma StrUnique(a: int, b: int, x: string, y: string)
    requires Str(a) + x == Str(b) + y
    requires x == [] || !IsDigit(x[0])
    requires y == [] || !IsDigit(y[0])
    ensures a == b && x == y
  {
    SignSplit(a, x);
    SignSplit(b, y);
    if a < 0 {
      DigitsUnique(-a, -b, x, y);
    } else {
      DigitsUnique(a, b, x, y);
    }
  }

  lemma StrInjective(a: int, b: int)
    requires Str(a) == Str(b)
    ensures a == b
  {
    assert Str(a) + [] == Str(a) && Str(b) + [] == Str(b);
    StrUnique(a, b, [], []);
  }
}
