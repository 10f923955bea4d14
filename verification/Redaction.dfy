/** Redaction of secret needles (internal/authz/audit.go). */
module Redaction {
  // A Go string is a byte string.  It is modelled as a Dafny string with one
  // character per byte, so every result below holds for all byte strings.

  const MARKER: string := "[REDACTED]"
  const MIN_NEEDLE: nat := 12

  predicate OccursAt(s: string, n: string, i: int) {
    0 <= i && i + |n| <= |s| && s[i..i + |n|] == n
  }

  /** strings.Contains */
  predicate Contains(s: string, n: string) {
    exists i | 0 <= i <= |s| :: OccursAt(s, n, i)
  }

  /** strings.ReplaceAll(s, n, MARKER): leftmost, non-overlapping. */
  function ReplaceAll(s: string, n: string): (out: string)
    requires n != ""
  {
    if s == "" then ""
    else if OccursAt(s, n, 0) then MARKER + ReplaceAll(s[|n|..], n)
    else [s[0]] + ReplaceAll(s[1..], n)
  }

  predicate BracketFree(n: string) {
    '[' !in n && ']' !in n
  }

  // ----- how a needle may overlap the marker -----

  /** A non-empty suffix of the marker starts n. */
  predicate StartsInMarker(n: string) {
    exists k | 0 <= k < |MARKER| :: MARKER[k..] <= n
  }

  /** A non-empty prefix of the marker ends n. */
  predicate EndsInMarker(n: string) {
    exists k | 0 < k <= |MARKER| :: EndsWith(n, MARKER[..k])
  }

  predicate EndsWith(n: string, t: string) {
    |t| <= |n| && n[|n| - |t|..] == t
  }

  predicate OverlapsMarker(n: string) {
    StartsInMarker(n) || EndsInMarker(n) || Contains(n, MARKER)
  }

  /** A needle of the length that NewSecretScanner keeps, apart from the marker.
      NeedleAlwaysRemovedIff shows that this is exactly what redaction needs. */
  predicate Redactable(n: string) {
    |n| >= MIN_NEEDLE && !OverlapsMarker(n)
  }

  predicate AllRedactable(needles: seq<string>) {
    forall k | 0 <= k < |needles| :: Redactable(needles[k])
  }

  predicate NonEmpty(needles: seq<string>) {
    forall k | 0 <= k < |needles| :: needles[k] != ""
  }

  /** No needle occurs in s: ContainsSecret's loop would find nothing. */
  predicate Clean(needles: seq<string>, s: string) {
    forall k | 0 <= k < |needles| :: !Contains(s, needles[k])
  }

  /** One step of RedactString's loop. */
  function RedactOne(s: string, n: string): string
    requires n != ""
  {
    if Contains(s, n) then ReplaceAll(s, n) else s
  }

  /** RedactString: every needle in turn, in the scanner's order. */
  function Redact(needles: seq<string>, s: string): string
    requires NonEmpty(needles)
  {
    if needles == [] then s else Redact(needles[1..], RedactOne(s, needles[0]))
  }

  /** The loop of RedactString, updating out once per needle. */
  method RedactString(needles: seq<string>, s: string) returns (out: string)
    requires NonEmpty(needles)
    ensures out == Redact(needles, s)
  {
    out := s;
    for i := 0 to |needles|
      invariant Redact(needles[i..], out) == Redact(needles, s)
    {
      if Contains(out, needles[i]) {
        out := ReplaceAll(out, needles[i]);
      }
    }
  }

  // ----- what one replacement can and cannot create -----

  /** Text that no marker can reach into from behind. */
  predicate Separate(p: string) {
    !EndsInMarker(p) && !Contains(p, MARKER)
  }

  lemma OccursInSuffixOf(n: string, c: nat, m: string)
    requires c <= |n| && Contains(n[c..], m)
    ensures Contains(n, m)
  {
    var j :| 0 <= j <= |n[c..]| && OccursAt(n[c..], m, j);
    assert n[c..][j..j + |m|] == n[c + j..c + j + |m|];
    assert OccursAt(n, m, c + j);
  }

  lemma EndsInSuffixOf(n: string, c: nat, t: string)
    requires c <= |n| && EndsWith(n[c..], t)
    ensures EndsWith(n, t)
  {
    assert n[c..][|n[c..]| - |t|..] == n[|n| - |t|..];
  }

  /** What follows a point of a separate text is separate. */
  lemma SuffixIsSeparate(n: string, c: nat)
    requires Separate(n) && c <= |n|
    ensures Separate(n[c..])
  {
    hide EndsWith;
    if Contains(n[c..], MARKER) {
      OccursInSuffixOf(n, c, MARKER);
    }
    forall k | 0 < k <= |MARKER| ensures !EndsWith(n[c..], MARKER[..k]) {
      if EndsWith(n[c..], MARKER[..k]) {
        EndsInSuffixOf(n, c, MARKER[..k]);
      }
    }
  }

  /** A separate text that starts like a marker is empty. */
  lemma SeparateFromMarker(tail: string, p: string)
    requires Separate(p) && p <= MARKER + tail
    ensures p == ""
  {
    if |p| > |MARKER| {
      assert p[..|MARKER|] == (MARKER + tail)[..|MARKER|] == MARKER;
      assert OccursAt(p, MARKER, 0);
    } else if p != "" {
      assert p == MARKER[..|p|];
      assert EndsWith(p, MARKER[..|p|]);
    }
  }

  lemma OverlapHasBracket(n: string)
    requires OverlapsMarker(n)
    ensures '[' in n || ']' in n
  {
    if StartsInMarker(n) {
      var k :| 0 <= k < |MARKER| && MARKER[k..] <= n;
      assert n[9 - k] == MARKER[k..][9 - k] == ']';
    } else if EndsInMarker(n) {
      var k :| 0 < k <= |MARKER| && EndsWith(n, MARKER[..k]);
      assert n[|n| - k] == n[|n| - k..][0] == MARKER[..k][0] == '[';
    } else {
      var i :| 0 <= i <= |n| && OccursAt(n, MARKER, i);
      assert n[i] == n[i..i + |MARKER|][0] == '[';
    }
  }

  lemma BracketFreeIsSeparate(n: string)
    requires BracketFree(n)
    ensures !OverlapsMarker(n)
  {
    hide OverlapsMarker;
    if OverlapsMarker(n) {
      OverlapHasBracket(n);
    }
  }

  /** A needle that occurs from inside the marker on starts with the rest of it. */
  lemma OccurrenceStartsInMarker(tail: string, m: string, i: nat)
    requires |m| >= MIN_NEEDLE && i < |MARKER| && OccursAt(MARKER + tail, m, i)
    ensures StartsInMarker(m)
  {
    var s := MARKER + tail;
    assert m[..|MARKER| - i] == s[i..i + |m|][..|MARKER| - i] == s[i..|MARKER|] == MARKER[i..];
  }

  lemma NoOccurrenceInMarker(tail: string, m: string, i: nat)
    requires Redactable(m) && i < |MARKER|
    ensures !OccursAt(MARKER + tail, m, i)
  {
    hide OccursAt, StartsInMarker;
    if OccursAt(MARKER + tail, m, i) {
      OccurrenceStartsInMarker(tail, m, i);
    }
  }

  /** A separate prefix of the replaced text lies before the first marker, hence is
      a prefix of the original text. */
  lemma {:induction false} PrefixReflects(s: string, n: string, p: string)
    requires n != "" && Separate(p)
    requires p <= ReplaceAll(s, n)
    ensures p <= s
  {
    if s == "" || p == "" {
    } else if OccursAt(s, n, 0) {
      SeparateFromMarker(ReplaceAll(s[|n|..], n), p);
    } else {
      hide Separate;
      var out := ReplaceAll(s[1..], n);
      assert p[1..] <= out by {
        assert p == ([s[0]] + out)[..|p|];
        assert p[1..] == out[..|p| - 1];
      }
      SuffixIsSeparate(p, 1);
      PrefixReflects(s[1..], n, p[1..]);
      assert s == [s[0]] + s[1..] && p == [p[0]] + p[1..];
    }
  }

  lemma OccursInSuffix(s: string, m: string, k: nat, j: nat)
    requires k <= |s| && OccursAt(s[k..], m, j)
    ensures OccursAt(s, m, k + j) && Contains(s, m)
  {
    assert s[k..][j..j + |m|] == s[k + j..k + j + |m|];
    assert OccursAt(s, m, k + j);
  }

  lemma OccursInTail(head: string, tail: string, m: string, i: nat)
    requires i >= |head| && OccursAt(head + tail, m, i)
    ensures OccursAt(tail, m, i - |head|) && Contains(tail, m)
  {
    assert (head + tail)[i..i + |m|] == tail[i - |head|..i - |head| + |m|];
    assert OccursAt(tail, m, i - |head|);
  }

  /** Replacing n never creates an occurrence of another needle m. */
  lemma {:induction false} ReplaceReflects(s: string, n: string, m: string, i: nat)
    requires n != "" && Redactable(m)
    requires OccursAt(ReplaceAll(s, n), m, i)
    ensures Contains(s, m)
  {
    if s == "" {
    } else if OccursAt(s, n, 0) {
      var out := ReplaceAll(s[|n|..], n);
      if i < |MARKER| {
        NoOccurrenceInMarker(out, m, i);
      } else {
        OccursInTail(MARKER, out, m, i);
        ReplaceReflects(s[|n|..], n, m, i - |MARKER|);
        var j :| 0 <= j && OccursAt(s[|n|..], m, j);
        OccursInSuffix(s, m, |n|, j);
      }
    } else {
      var out := ReplaceAll(s[1..], n);
      if i == 0 {
        HeadOccurrence(s, n, m);
      } else {
        OccursInTail([s[0]], out, m, i);
        ReplaceReflects(s[1..], n, m, i - 1);
        var j :| 0 <= j && OccursAt(s[1..], m, j);
        OccursInSuffix(s, m, 1, j);
      }
    }
  }

  /** When no replacement happens at the head, an occurrence there was there before. */
  lemma HeadOccurrence(s: string, n: string, m: string)
    requires n != "" && s != "" && Redactable(m) && !OccursAt(s, n, 0)
    requires OccursAt(ReplaceAll(s, n), m, 0)
    ensures OccursAt(s, m, 0)
  {
    var out := ReplaceAll(s[1..], n);
    var all := [s[0]] + out;
    hide ReplaceAll, Separate;
    assert m == all[..|m|];
    assert m[1..] == out[..|m| - 1];
    SuffixIsSeparate(m, 1);
    PrefixReflects(s[1..], n, m[1..]);
    assert m == [s[0]] + m[1..];
    assert s == [s[0]] + s[1..];
  }

  /** After ReplaceAll the replaced needle itself is gone. */
  lemma {:induction false} ReplaceRemoves(s: string, n: string, i: nat)
    requires Redactable(n)
    ensures !OccursAt(ReplaceAll(s, n), n, i)
  {
    if s != "" && OccursAt(ReplaceAll(s, n), n, i) {
      if OccursAt(s, n, 0) {
        var out := ReplaceAll(s[|n|..], n);
        if i < |MARKER| {
          NoOccurrenceInMarker(out, n, i);
        } else {
          OccursInTail(MARKER, out, n, i);
          ReplaceRemoves(s[|n|..], n, i - |MARKER|);
        }
      } else if i == 0 {
        HeadOccurrence(s, n, n);
      } else {
        OccursInTail([s[0]], ReplaceAll(s[1..], n), n, i);
        ReplaceRemoves(s[1..], n, i - 1);
      }
    }
  }

  lemma RedactOneRemoves(s: string, n: string)
    requires Redactable(n)
    ensures !Contains(RedactOne(s, n), n)
  {
    if Contains(s, n) {
      forall i: int | 0 <= i ensures !OccursAt(ReplaceAll(s, n), n, i) {
        ReplaceRemoves(s, n, i);
      }
    }
  }

  lemma RedactOneReflects(s: string, n: string, m: string)
    requires n != "" && Redactable(m) && !Contains(s, m)
    ensures !Contains(RedactOne(s, n), m)
  {
    if Contains(RedactOne(s, n), m) {
      var i :| 0 <= i && OccursAt(RedactOne(s, n), m, i);
      if Contains(s, n) {
        ReplaceReflects(s, n, m, i);
      }
    }
  }

  lemma {:induction false} RedactReflects(needles: seq<string>, s: string, m: string)
    requires NonEmpty(needles)
    requires Redactable(m) && !Contains(s, m)
    ensures !Contains(Redact(needles, s), m)
  {
    if needles != [] {
      RedactOneReflects(s, needles[0], m);
      RedactReflects(needles[1..], RedactOne(s, needles[0]), m);
    }
  }

  /** Main result: however the needles overlap each other and whatever their
      order, RedactString leaves no redactable needle behind, whatever the others are. */
  lemma {:induction false} RedactRemoves(needles: seq<string>, s: string, n: string)
    requires NonEmpty(needles) && n in needles && Redactable(n)
    ensures !Contains(Redact(needles, s), n)
  {
    hide Redactable, Contains;
    var s' := RedactOne(s, needles[0]);
    if n == needles[0] {
      RedactOneRemoves(s, n);
      RedactReflects(needles[1..], s', n);
    } else {
      RedactRemoves(needles[1..], s', n);
    }
  }

  lemma RedactLeavesNoNeedle(needles: seq<string>, s: string)
    requires AllRedactable(needles)
    ensures NonEmpty(needles) && Clean(needles, Redact(needles, s))
  {
    RedactableIsNotEmpty(needles);
    hide Redactable, Contains;
    forall k | 0 <= k < |needles| ensures !Contains(Redact(needles, s), needles[k]) {
      RedactRemoves(needles, s, needles[k]);
    }
  }

  lemma RedactableIsNotEmpty(needles: seq<string>)
    requires AllRedactable(needles)
    ensures NonEmpty(needles)
  {
  }

  predicate AllLong(needles: seq<string>) {
    forall k | 0 <= k < |needles| :: |needles[k]| > |MARKER|
  }

  lemma {:induction false} ReplaceShrinks(s: string, n: string)
    requires |n| > |MARKER|
    ensures |ReplaceAll(s, n)| <= |s|
    ensures Contains(s, n) ==> |ReplaceAll(s, n)| < |s|
  {
    if s != "" && !OccursAt(s, n, 0) {
      ReplaceShrinks(s[1..], n);
      if Contains(s, n) {
        var i :| 0 <= i <= |s| && OccursAt(s, n, i);
        assert s[1..][i - 1..i - 1 + |n|] == s[i..i + |n|];
        assert OccursAt(s[1..], n, i - 1);
      }
    } else if s != "" {
      ReplaceShrinks(s[|n|..], n);
    }
  }

  lemma {:induction false} RedactShrinks(needles: seq<string>, s: string)
    requires NonEmpty(needles) && AllLong(needles)
    ensures |Redact(needles, s)| <= |s|
    ensures !Clean(needles, s) ==> |Redact(needles, s)| < |s|
  {
    if needles != [] {
      hide Contains, ReplaceAll;
      ReplaceShrinks(s, needles[0]);
      RedactShrinks(needles[1..], RedactOne(s, needles[0]));
      if !Contains(s, needles[0]) && !Clean(needles, s) {
        var k :| 0 <= k < |needles| && Contains(s, needles[k]);
        assert needles[1..][k - 1] == needles[k];
      }
    }
  }

  /** Redaction changes a text exactly when the text holds a needle. */
  lemma RedactIsIdentityIffClean(needles: seq<string>, s: string)
    requires NonEmpty(needles) && AllLong(needles)
    ensures Redact(needles, s) == s <==> Clean(needles, s)
  {
    if Clean(needles, s) {
      RedactKeepsClean(needles, s);
    } else {
      RedactShrinks(needles, s);
    }
  }

  lemma {:induction false} RedactKeepsClean(needles: seq<string>, s: string)
    requires NonEmpty(needles)
    requires Clean(needles, s)
    ensures Redact(needles, s) == s
  {
    if needles != [] {
      RedactKeepsClean(needles[1..], s);
    }
  }

  // ----- exactly which needles are always removed -----

  function Repeat(c: char, k: nat): string {
    seq(k, _ => c)
  }

  /** Characters that no encoding of a secret produces. */
  const FILLERS: string := "!#<>"

  /** One of them, different from three given characters. */
  function Letter(a: char, b: char, c: char): (l: char)
    ensures l != a && l != b && l != c && l in FILLERS
  {
    if a != '!' && b != '!' && c != '!' then '!'
    else if a != '#' && b != '#' && c != '#' then '#'
    else if a != '<' && b != '<' && c != '<' then '<'
    else '>'
  }

  /** What stands at i or further on in x, a run of c and y, if it is longer than x and
      than y and at least as long as the run, holds a c at one of its ends. */
  lemma RunIsMet(x: string, y: string, c: char, k: nat, f: string, i: nat)
    requires |x| < |f| && |y| < |f| && 0 < k <= |f| && |x| <= k && OccursAt(x + Repeat(c, k) + y, f, i)
    ensures c in f
    ensures |f| == k + 1 ==> f[0] == c || f[|f| - 1] == c
  {
    var s := x + Repeat(c, k) + y;
    var j := if i < |x| then |x| else i;
    assert s[j] == c && s[i..i + |f|][j - i] == s[j];
    if |f| == k + 1 && i < |x| {
      assert s[i + |f| - 1] == c && s[i..i + |f|][|f| - 1] == s[i + |f| - 1];
    }
  }

  lemma RunFoundFrom(x: string, y: string, c: char, k: nat, i: nat)
    requires |x| <= k && (x != "" ==> x[|x| - 1] != c) && i < |x|
    ensures !OccursAt(x + Repeat(c, k) + y, Repeat(c, k), i)
  {
    var s := x + Repeat(c, k) + y;
    assert i + k <= |s| && s[i..i + k][|x| - 1 - i] == s[|x| - 1] == x[|x| - 1] != c;
  }

  lemma {:induction false} ReplaceAbsent(y: string, m: string)
    requires m != "" && !Contains(y, m)
    ensures ReplaceAll(y, m) == y
  {
    if y != "" {
      assert !OccursAt(y, m, 0);
      if Contains(y[1..], m) {
        OccursInSuffixOf(y, 1, m);
      }
      ReplaceAbsent(y[1..], m);
    }
  }

  lemma ConsAppend(n: string, tail: string)
    requires n != ""
    ensures [n[0]] + (n[1..] + tail) == n + tail
  {
    assert n == [n[0]] + n[1..];
  }

  /** A text in which no occurrence begins is left alone. */
  lemma {:induction false} ReplaceSkips(x: string, tail: string, n: string)
    requires n != "" && forall i | 0 <= i < |x| :: !OccursAt(x + tail, n, i)
    ensures ReplaceAll(x + tail, n) == x + ReplaceAll(tail, n)
  {
    if x == "" {
      assert x + tail == tail;
    } else {
      hide OccursAt;
      var s, rest := x + tail, x[1..];
      assert s[1..] == rest + tail;
      forall i | 0 <= i < |rest| ensures !OccursAt(rest + tail, n, i) {
        if OccursAt(rest + tail, n, i) {
          OccursInSuffix(s, n, 1, i);
        }
      }
      ReplaceSkips(rest, tail, n);
      assert !OccursAt(s, n, 0);
      ConsAppend(x, ReplaceAll(tail, n));
    }
  }

  /** Only the run is replaced. */
  lemma ReplaceRun(x: string, y: string, m: string)
    requires m != "" && !Contains(y, m)
    requires forall i | 0 <= i < |x| :: !OccursAt(x + m + y, m, i)
    ensures ReplaceAll(x + m + y, m) == x + MARKER + y
  {
    assert x + m + y == x + (m + y);
    assert OccursAt(m + y, m, 0) && (m + y)[|m|..] == y;
    ReplaceAbsent(y, m);
    ReplaceSkips(x, m + y, m);
  }

  /** The run that, replaced between x and y, may bring n back. */
  function Filler(n: string, x: string): string
    requires n != ""
  {
    Repeat(FillerChar(n, x), |n| - 1)
  }

  function FillerChar(n: string, x: string): char
    requires n != ""
  {
    Letter(n[0], n[|n| - 1], if x == "" then n[0] else x[|x| - 1])
  }

  /** x and y are parts of n around the marker. */
  predicate Around(n: string, x: string, y: string) {
    |n| >= MIN_NEEDLE && |x| < |n| && |y| < |n| && EndsWith(n, y) && Contains(x + MARKER + y, n)
  }

  lemma FillerWorks(n: string, x: string, y: string)
    requires Around(n, x, y)
    ensures var m := Filler(n, x);
            var s := x + m + y;
            !Contains(s, n) && Contains(s, m) && ReplaceAll(s, m) == x + MARKER + y
  {
    hide Contains;
    var c, k := FillerChar(n, x), |n| - 1;
    var m := Filler(n, x);
    var s := x + m + y;
    NotInRun(n, x, y);
    forall i | 0 <= i < |x| ensures !OccursAt(s, m, i) {
      RunFoundFrom(x, y, c, k, i);
    }
    RunNotInEnd(n, x, y);
    ReplaceRun(x, y, m);
    assert s[|x|..|x| + |m|] == m;
    OccursIn(s, m, |x|);
  }

  lemma OccursIn(s: string, n: string, i: nat)
    requires OccursAt(s, n, i)
    ensures Contains(s, n)
  {
  }

  lemma NotInRun(n: string, x: string, y: string)
    requires |n| >= MIN_NEEDLE && |x| < |n| && |y| < |n|
    ensures !Contains(x + Filler(n, x) + y, n)
  {
    hide OccursAt;
    var s := x + Filler(n, x) + y;
    forall i: nat ensures !OccursAt(s, n, i) {
      if OccursAt(s, n, i) {
        RunIsMet(x, y, FillerChar(n, x), |n| - 1, n, i);
      }
    }
  }

  lemma RunNotInEnd(n: string, x: string, y: string)
    requires |n| >= MIN_NEEDLE && |y| < |n| && EndsWith(n, y)
    ensures !Contains(y, Filler(n, x))
  {
    var m := Filler(n, x);
    if |y| == |m| {
      assert y[|y| - 1] == n[|n| - 1] != m[|m| - 1];
    }
    forall i: nat ensures !OccursAt(y, m, i) {
      assert i + |m| <= |y| ==> i == 0 && y[0..|m|] == y;
    }
  }

  lemma MarkerBringsBack(n: string, x: string, y: string)
    requires Around(n, x, y)
    ensures var m := Filler(n, x); NonEmpty([n, m]) && Contains(Redact([n, m], x + m + y), n)
  {
    hide Contains, Redact, Filler;
    FillerWorks(n, x, y);
    FillerIsLong(n, x);
    TwoSteps(n, Filler(n, x), x + Filler(n, x) + y);
  }

  lemma FillerIsLong(n: string, x: string)
    requires n != ""
    ensures |Filler(n, x)| == |n| - 1
  {
  }

  lemma TwoSteps(n: string, m: string, s: string)
    requires n != "" && m != "" && !Contains(s, n) && Contains(s, m)
    ensures NonEmpty([n, m]) && Redact([n, m], s) == ReplaceAll(s, m)
  {
    assert [n, m][1..] == [m] && [m][1..] == [];
    assert Redact([m], s) == Redact([], ReplaceAll(s, m));
  }

  lemma StartSplits(n: string, k: nat)
    requires k < |MARKER| && MARKER[k..] <= n
    ensures Contains("" + MARKER + n[|MARKER| - k..], n)
  {
    var s := "" + MARKER + n[|MARKER| - k..];
    assert s[k..k + |n|] == n;
    assert OccursAt(s, n, k);
  }

  lemma EndSplits(n: string, k: nat)
    requires 0 < k <= |MARKER| && EndsWith(n, MARKER[..k])
    ensures Contains(n[..|n| - k] + MARKER + "", n)
  {
    var s := n[..|n| - k] + MARKER + "";
    assert s[0..|n|] == n;
    assert OccursAt(s, n, 0);
  }

  lemma MiddleSplits(n: string, i: nat)
    requires OccursAt(n, MARKER, i)
    ensures Contains(n[..i] + MARKER + n[i + |MARKER|..], n)
  {
    assert n[..i] + MARKER + n[i + |MARKER|..] == n;
    assert OccursAt(n, n, 0);
  }

  /** A needle that overlaps the marker lies in some x, marker, y. */
  lemma OverlapSplits(n: string) returns (x: string, y: string)
    requires |n| >= MIN_NEEDLE && OverlapsMarker(n)
    ensures Around(n, x, y)
  {
    if StartsInMarker(n) {
      var k :| 0 <= k < |MARKER| && MARKER[k..] <= n;
      x, y := "", n[|MARKER| - k..];
      StartSplits(n, k);
    } else if EndsInMarker(n) {
      var k :| 0 < k <= |MARKER| && EndsWith(n, MARKER[..k]);
      x, y := n[..|n| - k], "";
      EndSplits(n, k);
    } else {
      var i :| 0 <= i <= |n| && OccursAt(n, MARKER, i);
      x, y := n[..i], n[i + |MARKER|..];
      MiddleSplits(n, i);
    }
  }

  /** Every list of needles with n removes n from every text. */
  ghost predicate AlwaysRemoved(n: string) {
    forall needles, s :: NonEmpty(needles) && n in needles ==> !Contains(Redact(needles, s), n)
  }

  /** Main result: a needle is removed from every text by every list of needles
      exactly when it does not overlap the marker. */
  lemma NeedleAlwaysRemovedIff(n: string)
    requires |n| >= MIN_NEEDLE
    ensures AlwaysRemoved(n) <==> !OverlapsMarker(n)
  {
    hide Contains, OverlapsMarker, Redact;
    if OverlapsMarker(n) {
      var x, y := OverlapSplits(n);
      MarkerBringsBack(n, x, y);
    } else {
      forall needles, s | NonEmpty(needles) && n in needles ensures !Contains(Redact(needles, s), n) {
        RedactRemoves(needles, s, n);
      }
    }
  }

  // ----- redaction removes needle occurrences and nothing else -----

  /** One step of reading the original text: a character kept, or a whole needle dropped. */
  datatype Piece = Keep(c: char) | Drop(needle: string)

  function Original(ps: seq<Piece>): string {
    if ps == [] then "" else
      (match ps[0] case Keep(c) => [c] case Drop(n) => n) + Original(ps[1..])
  }

  function Redacted(ps: seq<Piece>): string {
    if ps == [] then "" else
      (match ps[0] case Keep(c) => [c] case Drop(_) => MARKER) + Redacted(ps[1..])
  }

  ghost predicate DropsOnly(ps: seq<Piece>, needles: seq<string>) {
    forall k | 0 <= k < |ps| :: ps[k].Drop? ==> ps[k].needle in needles
  }

  predicate KeptPrefix(ps: seq<Piece>, n: string) {
    n == "" || (ps != [] && ps[0] == Keep(n[0]) && KeptPrefix(ps[1..], n[1..]))
  }

  lemma {:induction false} KeptPrefixLength(ps: seq<Piece>, n: string)
    requires KeptPrefix(ps, n)
    ensures |n| <= |ps|
    ensures Original(ps) == n + Original(ps[|n|..])
    ensures Redacted(ps) == n + Redacted(ps[|n|..])
  {
    if n == "" {
      assert ps[0..] == ps;
    } else {
      KeptPrefixLength(ps[1..], n[1..]);
      var rest := ps[|n|..];
      assert ps[1..][|n| - 1..] == rest;
      ConsAppend(n, Original(rest));
      ConsAppend(n, Redacted(rest));
    }
  }

  /** A separate text at the start of the redacted text is made of kept characters only. */
  lemma {:induction false} OccurrenceIsKept(ps: seq<Piece>, n: string)
    requires Separate(n) && n <= Redacted(ps)
    ensures KeptPrefix(ps, n)
  {
    if n != "" {
      match ps[0] {
        case Drop(_) =>
          SeparateFromMarker(Redacted(ps[1..]), n);
        case Keep(c) =>
          hide Separate;
          assert Redacted(ps) == [c] + Redacted(ps[1..]);
          assert n[1..] <= Redacted(ps[1..]);
          SuffixIsSeparate(n, 1);
          OccurrenceIsKept(ps[1..], n[1..]);
      }
    }
  }

  function ReplacePieces(ps: seq<Piece>, n: string): seq<Piece>
    requires n != ""
  {
    if ps == [] then []
    else if KeptPrefix(ps, n) then (KeptPrefixLength(ps, n); [Drop(n)] + ReplacePieces(ps[|n|..], n))
    else [ps[0]] + ReplacePieces(ps[1..], n)
  }

  lemma ReplaceStep(c: char, rest: string, n: string)
    requires n != "" && !OccursAt([c] + rest, n, 0)
    ensures ReplaceAll([c] + rest, n) == [c] + ReplaceAll(rest, n)
  {
    assert ([c] + rest)[1..] == rest;
  }

  /** ReplaceAll walks over a marker without touching it. */
  lemma ReplaceSkipsMarker(tail: string, n: string)
    requires Redactable(n)
    ensures ReplaceAll(MARKER + tail, n) == MARKER + ReplaceAll(tail, n)
  {
    hide OccursAt;
    forall i | 0 <= i < |MARKER| ensures !OccursAt(MARKER + tail, n, i) {
      NoOccurrenceInMarker(tail, n, i);
    }
    ReplaceSkips(MARKER, tail, n);
  }

  /** The replaced pieces redact to the replaced text. */
  lemma {:induction false} ReplacePiecesCorrect(ps: seq<Piece>, n: string, needles: seq<string>)
    requires Redactable(n) && n in needles && DropsOnly(ps, needles)
    ensures Redacted(ReplacePieces(ps, n)) == ReplaceAll(Redacted(ps), n)
    ensures Original(ReplacePieces(ps, n)) == Original(ps)
    ensures DropsOnly(ReplacePieces(ps, n), needles)
  {
    if ps != [] {
      hide OccursAt;
      if KeptPrefix(ps, n) {
        ReplaceKeptPrefix(ps, n);
        ReplacePiecesCorrect(ps[|n|..], n, needles);
      } else {
        ReplacePiecesCorrect(ps[1..], n, needles);
        var rest := Redacted(ps[1..]);
        match ps[0] {
          case Keep(c) =>
            NotKeptNoMatch(ps, n);
            ReplaceStep(c, rest, n);
          case Drop(_) =>
            ReplaceSkipsMarker(rest, n);
        }
      }
    }
  }

  lemma ReplaceKeptPrefix(ps: seq<Piece>, n: string)
    requires n != "" && KeptPrefix(ps, n)
    ensures |n| <= |ps|
    ensures ReplaceAll(Redacted(ps), n) == MARKER + ReplaceAll(Redacted(ps[|n|..]), n)
    ensures Original(ps) == n + Original(ps[|n|..])
  {
    KeptPrefixLength(ps, n);
    var s := Redacted(ps);
    assert s[0..|n|] == n && s[|n|..] == Redacted(ps[|n|..]);
    assert OccursAt(s, n, 0);
  }

  lemma NotKeptNoMatch(ps: seq<Piece>, n: string)
    requires Redactable(n) && !KeptPrefix(ps, n)
    ensures !OccursAt(Redacted(ps), n, 0)
  {
    hide KeptPrefix, Redacted;
    if OccursAt(Redacted(ps), n, 0) {
      OccurrenceIsKept(ps, n);
    }
  }

  lemma {:induction false} NothingDropped(s: string) returns (ps: seq<Piece>)
    ensures Original(ps) == s && Redacted(ps) == s
    ensures forall k | 0 <= k < |ps| :: ps[k].Keep?
  {
    if s == "" {
      ps := [];
    } else {
      var rest := NothingDropped(s[1..]);
      ps := [Keep(s[0])] + rest;
    }
  }

  lemma {:induction false} RedactPieces(needles: seq<string>, all: seq<string>, ps: seq<Piece>) returns (qs: seq<Piece>)
    requires AllRedactable(needles) && DropsOnly(ps, all)
    requires forall k | 0 <= k < |needles| :: needles[k] in all
    ensures Original(qs) == Original(ps) && DropsOnly(qs, all)
    ensures Redacted(qs) == Redact(needles, Redacted(ps))
  {
    if needles == [] {
      qs := ps;
    } else {
      var next := ps;
      if Contains(Redacted(ps), needles[0]) {
        ReplacePiecesCorrect(ps, needles[0], all);
        next := ReplacePieces(ps, needles[0]);
      }
      qs := RedactPieces(needles[1..], all, next);
    }
  }

  /** The redacted text is the original with some disjoint needle occurrences
      turned into markers; every other character stays, in order. */
  lemma RedactOnlyRemovesNeedles(needles: seq<string>, s: string)
    requires AllRedactable(needles)
    ensures exists ps :: Original(ps) == s && Redacted(ps) == Redact(needles, s) && DropsOnly(ps, needles)
  {
    var ps := NothingDropped(s);
    var qs := RedactPieces(needles, needles, ps);
  }
}
