/** Ordering of object keys by UTF-16 code units (compareUTF16 in internal/authz/jcs.go). */
module Utf16 {
  // A Dafny char is a Unicode scalar value, so a Dafny string is exactly a valid
  // UTF-8 string.  The order is that of section 3.2.3 of RFC 8785.

  function Units(c: char): (u: seq<int>)
    ensures 1 <= |u| <= 2
  {
    var r := c as int;
    if r < 0x10000 then [r]
    else [0xD800 + (r - 0x10000) / 0x400, 0xDC00 + (r - 0x10000) % 0x400]
  }

  /** utf16.Encode([]rune(s)) */
  function Encode(s: string): seq<int> {
    if s == "" then [] else Units(s[0]) + Encode(s[1..])
  }

  /** The loop of compareUTF16 from index i on. */
  function CompareUnits(a: seq<int>, b: seq<int>): int {
    if a == [] then (if b == [] then 0 else -1)
    else if b == [] then 1
    else if a[0] < b[0] then -1
    else if a[0] > b[0] then 1
    else CompareUnits(a[1..], b[1..])
  }

  function Compare(a: string, b: string): int {
    if a == b then 0 else CompareUnits(Encode(a), Encode(b))
  }

  method CompareUTF16(a: string, b: string) returns (r: int)
    ensures r == Compare(a, b)
  {
    if a == b {
      return 0;
    }
    var ua, ub := Encode(a), Encode(b);
    var minLen := |ua|;
    if |ub| < minLen {
      minLen := |ub|;
    }
    for i := 0 to minLen
      invariant CompareUnits(ua[i..], ub[i..]) == CompareUnits(ua, ub)
    {
      if ua[i] < ub[i] {
        return -1;
      }
      if ua[i] > ub[i] {
        return 1;
      }
      assert ua[i..][1..] == ua[i + 1..] && ub[i..][1..] == ub[i + 1..];
    }
    if |ua| < |ub| {
      return -1;
    }
    if |ua| > |ub| {
      return 1;
    }
    return 0;
  }

  // ----- UTF-16 encoding is injective -----

  lemma UnitsPrefixFree(c: char, d: char, x: seq<int>, y: seq<int>)
    requires Units(c) + x == Units(d) + y
    ensures c == d && x == y
  {
    var a, b := Units(c), Units(d);
    assert (a + x)[0] == a[0] && (b + y)[0] == b[0];
    assert |a| == |b|;
    assert |a| == 2 ==> (a + x)[1] == a[1] && (b + y)[1] == b[1];
    assert x == (a + x)[|a|..] && y == (b + y)[|b|..];
    assert a == b;
    UnitsInjective(c, d);
  }

  lemma UnitsInjective(c: char, d: char)
    requires Units(c) == Units(d)
    ensures c == d
  {
    var r, q := c as int, d as int;
    if r >= 0x10000 {
      assert Units(c)[0] == Units(d)[0] && Units(c)[1] == Units(d)[1];
      assert (r - 0x10000) / 0x400 == (q - 0x10000) / 0x400 && (r - 0x10000) % 0x400 == (q - 0x10000) % 0x400;
      assert r - 0x10000 == (r - 0x10000) / 0x400 * 0x400 + (r - 0x10000) % 0x400;
      assert q - 0x10000 == (q - 0x10000) / 0x400 * 0x400 + (q - 0x10000) % 0x400;
    } else {
      assert Units(c)[0] == Units(d)[0];
    }
    assert r == q;
  }

  lemma {:induction false} EncodeInjective(a: string, b: string)
    requires Encode(a) == Encode(b)
    ensures a == b
  {
    if a == "" || b == "" {
      assert |Encode(a)| == |Encode(b)|;
    } else {
      UnitsPrefixFree(a[0], b[0], Encode(a[1..]), Encode(b[1..]));
      EncodeInjective(a[1..], b[1..]);
      assert a == [a[0]] + a[1..] && b == [b[0]] + b[1..];
    }
  }

  // ----- compareUTF16 is a total order -----

  lemma {:induction false} CompareUnitsLaws(a: seq<int>, b: seq<int>)
    ensures CompareUnits(a, b) == -CompareUnits(b, a)
    ensures CompareUnits(a, b) == 0 <==> a == b
    ensures -1 <= CompareUnits(a, b) <= 1
  {
    if a != [] && b != [] {
      CompareUnitsLaws(a[1..], b[1..]);
      assert a == [a[0]] + a[1..] && b == [b[0]] + b[1..];
    }
  }

  lemma {:induction false} CompareUnitsTransitive(a: seq<int>, b: seq<int>, c: seq<int>)
    requires CompareUnits(a, b) <= 0 && CompareUnits(b, c) <= 0
    ensures CompareUnits(a, c) <= 0
  {
    if a != [] && b != [] && c != [] {
      if a[0] == b[0] == c[0] {
        CompareUnitsTransitive(a[1..], b[1..], c[1..]);
      }
    }
  }

  /** Zero only on equal strings, antisymmetric, total. */
  lemma CompareIsAntisymmetric(a: string, b: string)
    ensures Compare(a, b) == 0 <==> a == b
    ensures Compare(a, b) == -Compare(b, a)
    ensures -1 <= Compare(a, b) <= 1
  {
    CompareUnitsLaws(Encode(a), Encode(b));
    if Encode(a) == Encode(b) {
      EncodeInjective(a, b);
    }
  }

  lemma CompareIsTransitive(a: string, b: string, c: string)
    requires Compare(a, b) <= 0 && Compare(b, c) <= 0
    ensures Compare(a, c) <= 0
  {
    CompareUnitsLaws(Encode(a), Encode(a));
    CompareUnitsLaws(Encode(b), Encode(b));
    CompareUnitsTransitive(Encode(a), Encode(b), Encode(c));
  }

  // ----- sorting keys -----

  predicate Before(a: string, b: string) {
    Compare(a, b) < 0
  }

  ghost predicate Sorted(keys: seq<string>) {
    forall i, j | 0 <= i < j < |keys| :: Before(keys[i], keys[j])
  }

  ghost predicate IsLeast(k: string, keys: set<string>) {
    k in keys && forall k' | k' in keys && k' != k :: Before(k, k')
  }

  lemma {:induction false} LeastExists(keys: set<string>)
    requires keys != {}
    ensures exists k :: IsLeast(k, keys)
  {
    var x :| x in keys;
    if keys == {x} {
      assert IsLeast(x, keys);
    } else {
      LeastExists(keys - {x});
      var y :| IsLeast(y, keys - {x});
      CompareIsAntisymmetric(x, y);
      if Before(x, y) {
        forall k | k in keys && k != x ensures Before(x, k) {
          if k != y {
            BeforeTransitive(x, y, k);
          }
        }
        assert IsLeast(x, keys);
      } else {
        assert IsLeast(y, keys);
      }
    }
  }

  lemma BeforeTransitive(a: string, b: string, c: string)
    requires Before(a, b) && Before(b, c)
    ensures Before(a, c)
  {
    CompareIsTransitive(a, b, c);
    CompareIsAntisymmetric(a, c);
    CompareIsAntisymmetric(b, c);
    CompareIsAntisymmetric(a, b);
  }

  /** The keys in increasing order: the one sorted enumeration of the set. */
  ghost function SortedKeys(keys: set<string>): (s: seq<string>)
    ensures |s| == |keys| && forall k :: k in s <==> k in keys
  {
    if keys == {} then [] else
      LeastExists(keys);
      var k :| IsLeast(k, keys);
      [k] + SortedKeys(keys - {k})
  }

  /** Any sorted enumeration is that one: the order in which a map hands out
      its keys leaves no trace. */
  lemma {:induction false} SortedIsUnique(s: seq<string>, keys: set<string>)
    requires Sorted(s) && forall k :: k in s <==> k in keys
    ensures s == SortedKeys(keys)
  {
    if s != [] {
      assert s[0] in keys;
      var k := SortedKeys(keys)[0];
      assert IsLeast(k, keys);
      forall k' | k' in keys && k' != s[0] ensures Before(s[0], k') {
        var j :| 0 <= j < |s| && s[j] == k';
      }
      CompareIsAntisymmetric(s[0], k);
      assert s[0] == k;
      forall k' ensures k' in s[1..] <==> k' in keys - {k} {
        if k' in s[1..] {
          var j :| 0 <= j < |s[1..]| && s[1..][j] == k';
          assert s[j + 1] == k' && Before(s[0], s[j + 1]);
          CompareIsAntisymmetric(k, k');
        }
        if k' in keys - {k} {
          var j :| 0 <= j < |s| && s[j] == k';
          assert s[1..][j - 1] == k';
        }
      }
      SortedIsUnique(s[1..], keys - {k});
      assert SortedKeys(keys) == [k] + SortedKeys(keys - {k});
    } else {
      assert forall k :: k in s <==> k in keys;
      assert keys == {};
    }
  }

  /** slices.SortFunc(keys, compareUTF16), for keys without repetition. */
  method SortKeys(keys: seq<string>) returns (sorted: seq<string>)
    requires forall i, j | 0 <= i < j < |keys| :: keys[i] != keys[j]
    ensures Sorted(sorted) && forall k :: k in sorted <==> k in keys
    ensures forall ks: set<string> :: (forall k :: k in keys <==> k in ks) ==> sorted == SortedKeys(ks)
  {
    sorted := [];
    for i := 0 to |keys|
      invariant Sorted(sorted)
      invariant forall k :: k in sorted <==> k in keys[..i]
    {
      var p := 0;
      while p < |sorted| && Before(sorted[p], keys[i])
        invariant p <= |sorted|
        invariant forall q | 0 <= q < p :: Before(sorted[q], keys[i])
      {
        p := p + 1;
      }
      assert keys[i] !in sorted;
      InsertKeepsSorted(sorted, keys[i], p);
      sorted := sorted[..p] + [keys[i]] + sorted[p..];
    }
    assert keys[..|keys|] == keys;
    forall ks: set<string> | forall k :: k in keys <==> k in ks ensures sorted == SortedKeys(ks) {
      SortedIsUnique(sorted, ks);
    }
  }

  lemma InsertKeepsSorted(s: seq<string>, k: string, p: nat)
    requires Sorted(s) && k !in s && p <= |s|
    requires forall q | 0 <= q < p :: Before(s[q], k)
    requires p < |s| ==> !Before(s[p], k)
    ensures Sorted(s[..p] + [k] + s[p..])
    ensures forall x :: x in s[..p] + [k] + s[p..] <==> x in s || x == k
  {
    forall q | p <= q < |s| ensures Before(k, s[q]) {
      CompareIsAntisymmetric(k, s[p]);
      if q > p {
        BeforeTransitive(k, s[p], s[q]);
      }
    }
    assert s == s[..p] + s[p..];
  }
}
