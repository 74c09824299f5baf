// Small definitions that several components share.

module Basics {
  function Min(a: int, b: int): int {
    if a < b then a else b
  }

  function Max(a: int, b: int): int {
    if a < b then b else a
  }

  lemma Assoc<T>(a: seq<T>, b: seq<T>, c: seq<T>)
    ensures a + b + c == a + (b + c)
  {
  }

  lemma PrefixOfPrefix<T>(s: seq<T>, m: nat, k: nat)
    requires k <= m <= |s|
    ensures s[..m][..k] == s[..k]
  {
  }

  /** Python's `sub in s`. */
  predicate Contains(s: string, sub: string) {
    sub <= s || (s != [] && Contains(s[1..], sub))
  }

  /** Containment is occurrence at some position. */
  lemma {:induction false} ContainsIff(s: string, sub: string)
    ensures Contains(s, sub) <==> exists i :: 0 <= i <= |s| && sub <= s[i..]
  {
    if sub <= s {
      assert sub <= s[0..];
    } else if s != [] {
      ContainsIff(s[1..], sub);
      if Contains(s, sub) {
        var i :| 0 <= i <= |s[1..]| && sub <= s[1..][i..];
        assert s[1..][i..] == s[i + 1..];
      } else {
        forall i | 0 <= i <= |s| ensures !(sub <= s[i..]) {
          assert s[0..] == s;
          assert i > 0 ==> s[i..] == s[1..][i - 1..];
        }
      }
    }
  }

  lemma ContainsEnd(s: string, sub: string)
    ensures Contains(s + sub, sub)
  {
    assert (s + sub)[|s|..] == sub;
    ContainsIff(s + sub, sub);
  }

  lemma {:induction false} NotInShorter(s: string, sub: string)
    requires |s| < |sub|
    ensures !Contains(s, sub)
  {
    if s != [] {
      NotInShorter(s[1..], sub);
    }
  }
}
