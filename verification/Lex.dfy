/** The order of strings in Go, and slices.Sort.

    Go compares strings byte by byte.  UTF-8 keeps the order of code points, so
    comparing characters gives the same order, for byte strings as for texts. */
module Lex {
  /** a < b; characters compare as their UTF-8 bytes do. */
  predicate LexLess(a: string, b: string) {
    b != "" && (a == "" || a[0] < b[0] || (a[0] == b[0] && LexLess(a[1..], b[1..])))
  }

  lemma {:induction false} LexIsTotal(a: string, b: string)
    ensures LexLess(a, b) || LexLess(b, a) || a == b
    ensures !(LexLess(a, b) && LexLess(b, a)) && !LexLess(a, a)
  {
    if a != "" && b != "" {
      LexIsTotal(a[1..], b[1..]);
      assert a == [a[0]] + a[1..] && b == [b[0]] + b[1..];
    }
    if a != "" {
      LexIsTotal(a[1..], a[1..]);
    }
  }

  lemma {:induction false} LexIsTransitive(a: string, b: string, c: string)
    requires LexLess(a, b) && LexLess(b, c)
    ensures LexLess(a, c)
  {
    if a != "" && b != "" && c != "" && a[0] == b[0] == c[0] {
      LexIsTransitive(a[1..], b[1..], c[1..]);
    }
  }

  predicate Increasing(s: seq<string>) {
    forall j, k | 0 <= j < k < |s| :: LexLess(s[j], s[k])
  }

  lemma InsertKeepsIncreasing(s: seq<string>, n: string, p: nat)
    requires Increasing(s) && p <= |s|
    requires forall k | 0 <= k < p :: LexLess(s[k], n)
    requires p < |s| ==> LexLess(n, s[p])
    ensures Increasing(s[..p] + [n] + s[p..])
  {
    if p < |s| {
      forall k | p < k < |s| ensures LexLess(n, s[k]) {
        LexIsTransitive(n, s[p], s[k]);
      }
    }
  }

  method Insert(s: seq<string>, n: string) returns (out: seq<string>)
    requires Increasing(s) && n !in s
    ensures Increasing(out) && forall x :: x in out <==> x in s || x == n
  {
    var p := 0;
    while p < |s| && LexLess(s[p], n)
      invariant p <= |s| && forall k | 0 <= k < p :: LexLess(s[k], n)
    {
      p := p + 1;
    }
    if p < |s| {
      LexIsTotal(n, s[p]);
    }
    InsertKeepsIncreasing(s, n, p);
    out := s[..p] + [n] + s[p..];
    assert s == s[..p] + s[p..];
  }

  /** slices.Sort on the keys of a map. */
  method SortKeys(keys: set<string>) returns (sorted: seq<string>)
    ensures Increasing(sorted) && forall k :: k in sorted <==> k in keys
  {
    sorted := [];
    var rest := keys;
    while rest != {}
      invariant rest <= keys && Increasing(sorted)
      invariant forall k :: k in sorted <==> k in keys && k !in rest
      decreases |rest|
    {
      var k :| k in rest;
      sorted := Insert(sorted, k);
      rest := rest - {k};
    }
  }

  /** A set has one increasing enumeration. */
  lemma {:induction false} IncreasingIsUnique(a: seq<string>, b: seq<string>)
    requires Increasing(a) && Increasing(b) && forall n :: n in a <==> n in b
    ensures a == b
  {
    assert b != [] ==> b[0] in b;
    if a != [] {
      assert a[0] in a && a[0] in b;
      assert b[0] in a;
      LexIsTotal(a[0], b[0]);
      assert a[0] == b[0];
      forall n ensures n in a[1..] <==> n in b[1..] {
        LexIsTotal(n, n);
        assert n in a <==> n == a[0] || n in a[1..];
        assert n in b <==> n == b[0] || n in b[1..];
      }
      IncreasingIsUnique(a[1..], b[1..]);
    }
  }
}
