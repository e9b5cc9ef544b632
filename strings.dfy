/** Character-string helpers: ASCII lower-casing, prefix/suffix/substring
    tests and Python's `sep.join(items)`. */
module Strings {

  /** `str.lower()` on one character, restricted to the ASCII letters. */
  function LowerChar(c: char): char
  {
    if 'A' <= c <= 'Z' then (c as int + 32) as char else c
  }

  function Lower(s: string): (r: string)
    ensures |r| == |s|
    ensures forall i :: 0 <= i < |s| ==> r[i] == LowerChar(s[i])
  {
    seq(|s|, i requires 0 <= i < |s| => LowerChar(s[i]))
  }

  predicate StartsWith(s: string, prefix: string)
  {
    |prefix| <= |s| && s[..|prefix|] == prefix
  }

  predicate EndsWith(s: string, suffix: string)
  {
    |suffix| <= |s| && s[|s| - |suffix|..] == suffix
  }

  /** Python's `sub in s`. */
  predicate Contains(s: string, sub: string)
    decreases |s|
  {
    StartsWith(s, sub) || (|s| > 0 && Contains(s[1..], sub))
  }

  /** Python's `sep.join(items)`. */
  function Join(sep: string, items: seq<string>): string
    decreases |items|
  {
    if |items| == 0 then ""
    else if |items| == 1 then items[0]
    else items[0] + sep + Join(sep, items[1..])
  }

  /** A string contains every one of its infixes. */
  lemma {:induction false} ContainsInfix(a: string, b: string, c: string)
    ensures Contains(a + b + c, b)
    decreases |a|
  {
    if |a| == 0 {
      assert a + b + c == b + c;
      assert (b + c)[..|b|] == b;
    } else {
      assert (a + b + c)[1..] == a[1..] + b + c;
      ContainsInfix(a[1..], b, c);
    }
  }

  /** Joining a list equals joining its two halves with one more separator. */
  lemma {:induction false} JoinSplit(sep: string, items: seq<string>, k: nat)
    requires 0 < k < |items|
    ensures Join(sep, items) == Join(sep, items[..k]) + sep + Join(sep, items[k..])
    decreases k
  {
    if k == 1 {
      assert items[..1] == [items[0]];
    } else {
      var rest := items[1..];
      JoinSplit(sep, rest, k - 1);
      assert rest[..k - 1] == items[1..k];
      assert rest[k - 1..] == items[k..];
      assert items[..k][1..] == items[1..k];
      assert Join(sep, items) == items[0] + sep + Join(sep, rest);
      assert Join(sep, items[..k]) == items[0] + sep + Join(sep, items[1..k]);
    }
  }

  /** Joining the first `k` items yields a prefix of joining all of them. */
  lemma JoinPrefix(sep: string, items: seq<string>, k: nat)
    requires k <= |items|
    ensures StartsWith(Join(sep, items), Join(sep, items[..k]))
  {
    if k == |items| {
      assert items[..k] == items;
    } else if 0 < k {
      JoinSplit(sep, items, k);
    }
  }
}
