// UTF-8 (RFC 3629) as Python encodes and decodes it.  Decoding uses the "replace" error
// handler, which the sandbox runner applies to captured output: every maximal invalid
// subpart becomes one U+FFFD.

module Utf8 {

  type byte = b: int | 0 <= b < 256

  const REPLACEMENT: char := 0xFFFD as char

  /** The bytes of one character (RFC 3629, section 3). */
  function EncodeChar(c: char): (bs: seq<byte>)
    ensures 1 <= |bs| <= 4
  {
    var u := c as int;
    if u < 0x80 then [u]
    else if u < 0x800 then [0xC0 + u / 64, 0x80 + u % 64]
    else if u < 0x10000 then [0xE0 + u / 4096, 0x80 + u / 64 % 64, 0x80 + u % 64]
    else [0xF0 + u / 262144, 0x80 + u / 4096 % 64, 0x80 + u / 64 % 64, 0x80 + u % 64]
  }

  function Encode(s: string): seq<byte> {
    if s == [] then [] else EncodeChar(s[0]) + Encode(s[1..])
  }

  predicate IsContinuation(b: byte) {
    0x80 <= b <= 0xBF
  }

  /** Which second bytes may follow a lead byte (RFC 3629, section 4). */
  predicate SecondOk(b0: byte, b1: byte) {
    if b0 == 0xE0 then 0xA0 <= b1 <= 0xBF
    else if b0 == 0xED then 0x80 <= b1 <= 0x9F
    else if b0 == 0xF0 then 0x90 <= b1 <= 0xBF
    else if b0 == 0xF4 then 0x80 <= b1 <= 0x8F
    else IsContinuation(b1)
  }

  function Scalar2(b0: int, b1: int): char
    requires 0xC2 <= b0 < 0xE0 && 0x80 <= b1 <= 0xBF
  {
    ((b0 - 0xC0) * 64 + (b1 - 0x80)) as char
  }

  function Scalar3(b0: int, b1: int, b2: int): char
    requires 0xE0 <= b0 < 0xF0 && 0x80 <= b1 <= 0xBF && 0x80 <= b2 <= 0xBF
    requires b0 == 0xED ==> b1 <= 0x9F
  {
    ((b0 - 0xE0) * 4096 + (b1 - 0x80) * 64 + (b2 - 0x80)) as char
  }

  function Scalar4(b0: int, b1: int, b2: int, b3: int): char
    requires 0xF0 <= b0 <= 0xF4 && 0x80 <= b1 <= 0xBF && 0x80 <= b2 <= 0xBF && 0x80 <= b3 <= 0xBF
    requires (b0 == 0xF0 ==> 0x90 <= b1) && (b0 == 0xF4 ==> b1 <= 0x8F)
  {
    ((b0 - 0xF0) * 262144 + (b1 - 0x80) * 4096 + (b2 - 0x80) * 64 + (b3 - 0x80)) as char
  }

  datatype Decoded = Decoded(c: char, used: nat)

  /** Decodes one character, or one maximal invalid subpart as U+FFFD. */
  function DecodeOne(bs: seq<byte>): (d: Decoded)
    requires bs != []
    ensures 1 <= d.used <= |bs|
  {
    var b0: int := bs[0];
    if b0 < 0x80 then
      Decoded(b0 as char, 1)
    else if b0 < 0xC2 || b0 > 0xF4 || |bs| < 2 || !SecondOk(b0, bs[1]) then
      Decoded(REPLACEMENT, 1)
    else if b0 < 0xE0 then
      Decoded(Scalar2(b0, bs[1]), 2)
    else if |bs| < 3 || !IsContinuation(bs[2]) then
      Decoded(REPLACEMENT, 2)
    else if b0 < 0xF0 then
      Decoded(Scalar3(b0, bs[1], bs[2]), 3)
    else if |bs| < 4 || !IsContinuation(bs[3]) then
      Decoded(REPLACEMENT, 3)
    else
      Decoded(Scalar4(b0, bs[1], bs[2], bs[3]), 4)
  }

  /** bytes.decode("utf-8", "replace"). */
  function Decode(bs: seq<byte>): string
    decreases |bs|
  {
    if bs == [] then [] else
      var d := DecodeOne(bs);
      [d.c] + Decode(bs[d.used..])
  }

  lemma DecodeOneOfChar(c: char, rest: seq<byte>)
    ensures DecodeOne(EncodeChar(c) + rest) == Decoded(c, |EncodeChar(c)|)
  {
    var u, e := c as int, EncodeChar(c);
    var bs := e + rest;
    assert forall i :: 0 <= i < |e| ==> bs[i] == e[i];
    if u < 0x80 {
    } else if u < 0x800 {
      assert Scalar2(e[0], e[1]) == c;
    } else if u < 0x10000 {
      Split3(u);
      assert SecondOk(e[0], e[1]);
      assert Scalar3(e[0], e[1], e[2]) == c;
    } else {
      Split4(u);
      assert SecondOk(e[0], e[1]);
      assert Scalar4(e[0], e[1], e[2], e[3]) == c;
    }
  }

  lemma Split3(u: int)
    requires 0 <= u
    ensures u == u / 4096 * 4096 + u / 64 % 64 * 64 + u % 64
  {
    assert u / 64 / 64 == u / 4096;
  }

  lemma Split4(u: int)
    requires 0 <= u
    ensures u == u / 262144 * 262144 + u / 4096 % 64 * 4096 + u / 64 % 64 * 64 + u % 64
  {
    Split3(u);
    assert u / 4096 / 64 == u / 262144;
  }

  /** Well-formed text survives the trip through bytes. */
  lemma {:induction false} DecodeEncode(s: string)
    ensures Decode(Encode(s)) == s
  {
    if s != [] {
      DecodeOneOfChar(s[0], Encode(s[1..]));
      assert Encode(s)[|EncodeChar(s[0])|..] == Encode(s[1..]);
      DecodeEncode(s[1..]);
    }
  }

  lemma EncodeInjective(s: string, t: string)
    requires Encode(s) == Encode(t)
    ensures s == t
  {
    DecodeEncode(s);
    DecodeEncode(t);
  }

  function Replacements(n: nat): (s: string)
    ensures |s| == n
  {
    seq(n, _ => REPLACEMENT)
  }

  predicate Stray(bs: seq<byte>) {
    forall i :: 0 <= i < |bs| ==> IsContinuation(bs[i])
  }

  lemma StrayFirst(bs: seq<byte>)
    requires bs != [] && IsContinuation(bs[0])
    ensures Decode(bs) == [REPLACEMENT] + Decode(bs[1..])
  {
    assert DecodeOne(bs) == Decoded(REPLACEMENT, 1);
  }

  lemma OneMore(n: nat, s: string)
    ensures Replacements(n + 1) + s == [REPLACEMENT] + (Replacements(n) + s)
  {
  }

  /** Stray continuation bytes each decode to one U+FFFD. */
  lemma {:induction false} DecodeStray(stray: seq<byte>, tail: seq<byte>)
    requires Stray(stray)
    ensures Decode(stray + tail) == Replacements(|stray|) + Decode(tail)
  {
    var bs := stray + tail;
    if stray == [] {
      assert bs == tail;
      assert Replacements(0) + Decode(tail) == Decode(tail);
    } else {
      assert bs[1..] == stray[1..] + tail && bs[0] == stray[0];
      StrayFirst(bs);
      DecodeStray(stray[1..], tail);
      OneMore(|stray| - 1, Decode(tail));
    }
  }

  lemma CutConcat(e: seq<byte>, rest: seq<byte>, cut: nat)
    requires cut <= |e| + |rest|
    ensures (e + rest)[cut..] == if cut >= |e| then rest[cut - |e|..] else e[cut..] + rest
  {
  }

  lemma Continuations(c: char)
    ensures var e := EncodeChar(c); |e| <= 4 && forall i :: 1 <= i < |e| ==> IsContinuation(e[i])
  {
  }

  /** Where a cut falls: after the first character, or inside it, before continuation bytes. */
  lemma {:induction false} CutFirst(s: string, cut: nat)
    requires s != [] && 0 < cut <= |Encode(s)|
    ensures var e := EncodeChar(s[0]);
            && |Encode(s)| == |e| + |Encode(s[1..])| && |e| <= 4
            && if cut >= |e| then Encode(s)[cut..] == Encode(s[1..])[cut - |e|..]
               else Encode(s)[cut..] == e[cut..] + Encode(s[1..]) && Stray(e[cut..])
  {
    var e, rest := EncodeChar(s[0]), Encode(s[1..]);
    assert Encode(s) == e + rest;
    CutConcat(e, rest, cut);
    Continuations(s[0]);
  }

  /**
   * Cutting well-formed text at any byte and decoding what follows with replacement gives at
   * most three U+FFFD (one for each byte of a character the cut fell inside) and then a suffix
   * of the text.  When the cut fell between characters there is no U+FFFD at all.
   */
  lemma {:induction false} DecodeTail(s: string, cut: nat) returns (stray: nat, from: nat)
    requires cut <= |Encode(s)|
    ensures stray <= 3 && from <= |s|
    ensures Decode(Encode(s)[cut..]) == Replacements(stray) + s[from..]
    ensures stray + |Encode(s[from..])| == |Encode(s)| - cut
  {
    if cut == 0 {
      stray, from := 0, 0;
      assert Encode(s)[0..] == Encode(s);
      assert s[0..] == s;
      DecodeEncode(s);
    } else {
      var n := |EncodeChar(s[0])|;
      CutFirst(s, cut);
      if cut >= n {
        var from';
        stray, from' := DecodeTail(s[1..], cut - n);
        from := from' + 1;
        assert s[1..][from'..] == s[from..];
      } else {
        var tail := EncodeChar(s[0])[cut..];
        DecodeStray(tail, Encode(s[1..]));
        DecodeEncode(s[1..]);
        stray, from := |tail|, 1;
      }
    }
  }
}
