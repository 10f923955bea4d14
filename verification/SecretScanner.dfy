/** The needles of a SecretScanner and what they detect (internal/authz/audit.go). */
module SecretScanner {
  // Every secret of at least 16 bytes gives needles for its plain, its URL-escaped
  // and its base64 forms.  Inside a longer text, base64 groups bytes by threes, so
  // the symbols of a secret depend on the position of its first byte modulo three;
  // the symbols at the borders also depend on the neighbouring bytes and are left
  // out of the needle.

  import opened Base64
  import opened Redaction
  import opened Lex

  const MIN_SECRET: nat := 16

  predicate IsSpace(c: char) {
    c == ' ' || ('\t' <= c <= '\r')
  }

  /** The UTF-8 bytes of U+0085 and U+00A0. */
  const TWO_BYTE_SPACES: seq<string> := ["\U{C2}\U{85}", "\U{C2}\U{A0}"]

  /** The UTF-8 bytes of U+1680, U+2000 to U+200A, U+2028, U+2029, U+202F, U+205F and U+3000. */
  predicate IsThreeByteSpace(s: string)
    requires |s| == 3
  {
    || s == "\U{E1}\U{9A}\U{80}"
    || (s[0] == '\U{E2}' && s[1] == '\U{80}' && ('\U{80}' <= s[2] <= '\U{8A}' || s[2] in "\U{A8}\U{A9}\U{AF}"))
    || s == "\U{E2}\U{81}\U{9F}" || s == "\U{E3}\U{80}\U{80}"
  }

  /** The length of a white-space character at the start of s, or 0. */
  function SpaceAtStart(s: string): (n: nat)
    ensures n <= |s|
  {
    if |s| >= 1 && IsSpace(s[0]) then 1
    else if |s| >= 2 && s[..2] in TWO_BYTE_SPACES then 2
    else if |s| >= 3 && IsThreeByteSpace(s[..3]) then 3
    else 0
  }

  function SpaceAtEnd(s: string): (n: nat)
    ensures n <= |s|
  {
    if |s| >= 1 && IsSpace(s[|s| - 1]) then 1
    else if |s| >= 2 && s[|s| - 2..] in TWO_BYTE_SPACES then 2
    else if |s| >= 3 && IsThreeByteSpace(s[|s| - 3..]) then 3
    else 0
  }

  function TrimLeft(s: string): string {
    if SpaceAtStart(s) > 0 then TrimLeft(s[SpaceAtStart(s)..]) else s
  }

  function TrimRight(s: string): string {
    if SpaceAtEnd(s) > 0 then TrimRight(s[..|s| - SpaceAtEnd(s)]) else s
  }

  /** strings.TrimSpace */
  function TrimSpace(s: string): string {
    TrimRight(TrimLeft(s))
  }

  function HexDigit(v: int): char
    requires 0 <= v < 16
  {
    if v < 10 then '0' + v as char else 'A' + (v - 10) as char
  }

  predicate Unreserved(c: char) {
    'a' <= c <= 'z' || 'A' <= c <= 'Z' || '0' <= c <= '9' || c in "-_.~"
  }

  function Percent(c: char): string
    requires IsByte(c)
  {
    ['%', HexDigit(c as int / 16), HexDigit(c as int % 16)]
  }

  function QueryByte(c: char): string
    requires IsByte(c)
  {
    if Unreserved(c) then [c] else if c == ' ' then "+" else Percent(c)
  }

  /** url.QueryEscape */
  function QueryEscape(s: string): string
    requires IsBytes(s)
  {
    if s == "" then "" else QueryByte(s[0]) + QueryEscape(s[1..])
  }

  function PathByte(c: char): string
    requires IsByte(c)
  {
    if Unreserved(c) || c in "$&+:=@" then [c] else Percent(c)
  }

  /** url.PathEscape */
  function PathEscape(s: string): string
    requires IsBytes(s)
  {
    if s == "" then "" else PathByte(s[0]) + PathEscape(s[1..])
  }

  function Zeros(n: nat): string {
    seq(n, _ => 0 as char)
  }

  function SkipPrefix(offset: nat): nat {
    if offset == 1 then 2 else if offset == 2 then 3 else 0
  }

  /** The part of the encoding that depends on the secret alone, when the secret
      starts at byte offset 0, 1 or 2 of a triplet. */
  function AlignedNeedle(alpha: Alphabet, secret: string, offset: nat): string
    requires IsBytes(secret) && offset < 3 && |secret| >= MIN_SECRET
  {
    var padded := Zeros(offset) + secret;
    var enc := EncodeRaw(alpha, padded);
    var trim := if |padded| % 3 != 0 then 1 else 0;
    EncodeRawLength(alpha, padded);
    enc[SkipPrefix(offset)..|enc| - trim]
  }

  /** The aligned needles for the offsets below n. */
  function AlignedBelow(raw: string, n: nat): set<string>
    requires IsBytes(raw) && |raw| >= MIN_SECRET && n <= 3
  {
    if n == 0 then {} else
      AlignedBelow(raw, n - 1) + { AlignedNeedle(Std, raw, n - 1), AlignedNeedle(Url, raw, n - 1) }
  }

  function Candidates(raw: string): set<string>
    requires IsBytes(raw) && |raw| >= MIN_SECRET
  {
    { raw, QueryEscape(raw), PathEscape(raw) } + AlignedBelow(raw, 3)
    + { EncodePadded(Std, raw), EncodePadded(Url, raw) }
  }

  function LongEnough(candidates: set<string>): set<string> {
    set n | n in candidates && |n| >= MIN_NEEDLE
  }

  /** addAllVariants */
  function Variants(value: string): set<string>
    requires IsBytes(value)
  {
    var raw := TrimSpace(value);
    TrimIsBytes(value);
    if |raw| < MIN_SECRET then {} else LongEnough(Candidates(raw))
  }

  lemma {:induction false} TrimLeftIsSuffix(s: string)
    ensures exists k :: 0 <= k <= |s| && TrimLeft(s) == s[k..]
  {
    var n := SpaceAtStart(s);
    if n > 0 {
      TrimLeftIsSuffix(s[n..]);
      var k :| 0 <= k <= |s[n..]| && TrimLeft(s[n..]) == s[n..][k..];
      assert s[n..][k..] == s[k + n..];
    } else {
      assert s == s[0..];
    }
  }

  lemma {:induction false} TrimRightIsPrefix(s: string)
    ensures TrimRight(s) <= s
  {
    if SpaceAtEnd(s) > 0 {
      TrimRightIsPrefix(s[..|s| - SpaceAtEnd(s)]);
    }
  }

  lemma TrimIsBytes(s: string)
    requires IsBytes(s)
    ensures IsBytes(TrimSpace(s))
  {
    TrimLeftIsSuffix(s);
    TrimRightIsPrefix(TrimLeft(s));
    var t := TrimSpace(s);
    assert t == TrimLeft(s)[..|t|];
  }

  function SplitDots(s: string): (parts: seq<string>)
    ensures |parts| > 0
    ensures IsBytes(s) ==> forall k | 0 <= k < |parts| :: IsBytes(parts[k])
  {
    if s == "" then [""]
    else
      var rest := SplitDots(s[1..]);
      if s[0] == '.' then [""] + rest
      else [[s[0]] + rest[0]] + rest[1..]
  }

  /** An extra secret, with payload and signature of a three-part token. */
  function ExtraVariants(extra: string): set<string>
    requires IsBytes(extra)
  {
    var parts := SplitDots(extra);
    Variants(extra) + (if |parts| == 3 then Variants(parts[1]) + Variants(parts[2]) else {})
  }

  method AddNeedle(seen: set<string>, s: string) returns (out: set<string>)
    ensures out == seen + LongEnough({s})
  {
    if |s| < MIN_NEEDLE {
      return seen;
    }
    out := seen + {s};
  }

  method AddAligned(seen: set<string>, raw: string, offset: nat) returns (out: set<string>)
    requires IsBytes(raw) && |raw| >= MIN_SECRET && offset < 3
    ensures out == seen + LongEnough({ AlignedNeedle(Std, raw, offset), AlignedNeedle(Url, raw, offset) })
  {
    hide EncodeRaw;
    var padded := Zeros(offset) + raw;
    var stdEnc, urlEnc := EncodeRaw(Std, padded), EncodeRaw(Url, padded);
    EncodeRawLength(Std, padded);
    EncodeRawLength(Url, padded);
    var skip := if offset == 1 then 2 else if offset == 2 then 3 else 0;
    var trim := if |padded| % 3 != 0 then 1 else 0;
    out := seen;
    if |stdEnc| > skip + trim {
      out := AddNeedle(out, stdEnc[skip..|stdEnc| - trim]);
    }
    if |urlEnc| > skip + trim {
      out := AddNeedle(out, urlEnc[skip..|urlEnc| - trim]);
    }
  }

  lemma LongEnoughUnion(a: set<string>, b: set<string>)
    ensures LongEnough(a + b) == LongEnough(a) + LongEnough(b)
  {
  }

  method AddAllVariants(seen: set<string>, value: string) returns (out: set<string>)
    requires IsBytes(value)
    ensures out == seen + Variants(value)
  {
    hide TrimSpace, QueryEscape, PathEscape, EncodePadded, AlignedNeedle;
    TrimIsBytes(value);
    var raw := TrimSpace(value);
    out := seen;
    if |raw| < MIN_SECRET {
      return;
    }
    out := AddNeedle(out, raw);
    out := AddNeedle(out, QueryEscape(raw));
    out := AddNeedle(out, PathEscape(raw));
    ghost var plain := { raw, QueryEscape(raw), PathEscape(raw) };
    var offset := 0;
    while offset < 3
      invariant 0 <= offset <= 3
      invariant out == seen + LongEnough(plain + AlignedBelow(raw, offset))
    {
      out := AddAligned(out, raw, offset);
      LongEnoughUnion(plain + AlignedBelow(raw, offset),
                      { AlignedNeedle(Std, raw, offset), AlignedNeedle(Url, raw, offset) });
      offset := offset + 1;
      assert plain + AlignedBelow(raw, offset) == plain + AlignedBelow(raw, offset - 1)
          + { AlignedNeedle(Std, raw, offset - 1), AlignedNeedle(Url, raw, offset - 1) };
    }
    out := AddNeedle(out, EncodePadded(Std, raw));
    out := AddNeedle(out, EncodePadded(Url, raw));
    LongEnoughUnion(plain + AlignedBelow(raw, 3), { EncodePadded(Std, raw), EncodePadded(Url, raw) });
  }

  predicate AllBytes(values: seq<string>) {
    forall k | 0 <= k < |values| :: IsBytes(values[k])
  }

  function UnionVariants(values: seq<string>): set<string>
    requires AllBytes(values)
  {
    if values == [] then {} else UnionVariants(values[..|values| - 1]) + Variants(values[|values| - 1])
  }

  function UnionExtras(extras: seq<string>): set<string>
    requires AllBytes(extras)
  {
    if extras == [] then {} else UnionExtras(extras[..|extras| - 1]) + ExtraVariants(extras[|extras| - 1])
  }

  /** The needles of a scanner. */
  function Needles(values: seq<string>, extras: seq<string>): set<string>
    requires AllBytes(values) && AllBytes(extras)
  {
    UnionVariants(values) + UnionExtras(extras)
  }

  // ----- the order of the needles -----

  /** The comparison of NewSecretScanner: the longer first. */
  predicate Precedes(a: string, b: string) {
    |a| > |b| || (|a| == |b| && LexLess(a, b))
  }

  predicate Ordered(needles: seq<string>) {
    forall j, k | 0 <= j < k < |needles| :: Precedes(needles[j], needles[k])
  }

  /** The list is determined by its needles: map iteration order does not matter. */
  lemma {:induction false} OrderIsUnique(a: seq<string>, b: seq<string>)
    requires Ordered(a) && Ordered(b) && forall n :: n in a <==> n in b
    ensures a == b
  {
    assert b != [] ==> b[0] in b;
    if a != [] {
      assert a[0] in a && a[0] in b;
      assert b[0] in a;
      LexIsTotal(a[0], b[0]);
      assert a[0] == b[0];
      forall n ensures n in a[1..] <==> n in b[1..] {
        LexIsTotal(n, n);
        assert n in a <==> n == a[0] || n in a[1..];
        assert n in b <==> n == b[0] || n in b[1..];
      }
      OrderIsUnique(a[1..], b[1..]);
    }
  }

  /** Every set of needles has such a list. */
  lemma {:induction false} OrderExists(seen: set<string>) returns (needles: seq<string>)
    ensures Ordered(needles) && forall n :: n in needles <==> n in seen
  {
    needles := [];
    var rest := seen;
    while rest != {}
      invariant rest <= seen && Ordered(needles)
      invariant forall n :: n in needles <==> n in seen && n !in rest
      decreases |rest|
    {
      var n :| n in rest;
      var p := 0;
      while p < |needles| && Precedes(needles[p], n)
        invariant p <= |needles| && forall k | 0 <= k < p :: Precedes(needles[k], n)
      {
        p := p + 1;
      }
      if p < |needles| {
        LexIsTotal(n, needles[p]);
      }
      InsertKeepsOrder(needles, n, p);
      assert needles == needles[..p] + needles[p..];
      needles := needles[..p] + [n] + needles[p..];
      rest := rest - {n};
    }
  }

  lemma InsertKeepsOrder(s: seq<string>, n: string, p: nat)
    requires Ordered(s) && n !in s && p <= |s|
    requires forall k | 0 <= k < p :: Precedes(s[k], n)
    requires p < |s| ==> Precedes(n, s[p])
    ensures Ordered(s[..p] + [n] + s[p..])
  {
    if p < |s| {
      forall k | p < k < |s| ensures Precedes(n, s[k]) {
        PrecedesIsTransitive(n, s[p], s[k]);
      }
    }
  }

  lemma PrecedesIsTransitive(a: string, b: string, c: string)
    requires Precedes(a, b) && Precedes(b, c)
    ensures Precedes(a, c)
  {
    if |a| == |b| == |c| {
      LexIsTransitive(a, b, c);
    }
  }

  /** slices.SortFunc, as insertion of one needle after another. */
  method InsertNeedle(s: seq<string>, n: string) returns (out: seq<string>)
    requires Ordered(s) && n !in s
    ensures Ordered(out) && forall x :: x in out <==> x in s || x == n
  {
    var p := 0;
    while p < |s| && Precedes(s[p], n)
      invariant p <= |s| && forall k | 0 <= k < p :: Precedes(s[k], n)
    {
      p := p + 1;
    }
    if p < |s| {
      LexIsTotal(n, s[p]);
    }
    InsertKeepsOrder(s, n, p);
    out := s[..p] + [n] + s[p..];
    assert s == s[..p] + s[p..];
  }

  method SortNeedles(seen: set<string>) returns (needles: seq<string>)
    ensures Ordered(needles) && forall n :: n in needles <==> n in seen
  {
    needles := [];
    var rest := seen;
    while rest != {}
      invariant rest <= seen && Ordered(needles)
      invariant forall n :: n in needles <==> n in seen && n !in rest
      decreases |rest|
    {
      var n :| n in rest;
      needles := InsertNeedle(needles, n);
      rest := rest - {n};
    }
  }

  lemma UnionVariantsStep(values: seq<string>, i: nat)
    requires AllBytes(values) && i < |values|
    ensures UnionVariants(values[..i + 1]) == UnionVariants(values[..i]) + Variants(values[i])
  {
    assert values[..i + 1][..i] == values[..i];
  }

  lemma UnionExtrasStep(extras: seq<string>, i: nat)
    requires AllBytes(extras) && i < |extras|
    ensures UnionExtras(extras[..i + 1]) == UnionExtras(extras[..i]) + ExtraVariants(extras[i])
  {
    assert extras[..i + 1][..i] == extras[..i];
  }

  /** The body of the loop over the extra secrets. */
  method AddExtra(seen: set<string>, extra: string) returns (out: set<string>)
    requires IsBytes(extra)
    ensures out == seen + ExtraVariants(extra)
  {
    hide Variants;
    out := AddAllVariants(seen, extra);
    var parts := SplitDots(extra);
    if |parts| == 3 {
      out := AddAllVariants(out, parts[1]);
      out := AddAllVariants(out, parts[2]);
    }
  }

  /** NewSecretScanner */
  method NewSecretScanner(values: seq<string>, extras: seq<string>) returns (needles: seq<string>)
    requires AllBytes(values) && AllBytes(extras)
    ensures Ordered(needles)
    ensures forall n :: n in needles <==> n in Needles(values, extras)
  {
    hide Variants, ExtraVariants, UnionVariants, UnionExtras, Ordered;
    var seen := {};
    UnionsOfNone();
    for i := 0 to |values|
      invariant seen == UnionVariants(values[..i])
    {
      seen := AddAllVariants(seen, values[i]);
      UnionVariantsStep(values, i);
    }
    assert values[..|values|] == values;
    for i := 0 to |extras|
      invariant seen == UnionVariants(values) + UnionExtras(extras[..i])
    {
      seen := AddExtra(seen, extras[i]);
      UnionExtrasStep(extras, i);
    }
    assert extras[..|extras|] == extras;
    needles := SortNeedles(seen);
  }

  lemma UnionsOfNone()
    ensures UnionVariants([]) == {} && UnionExtras([]) == {}
  {
  }

  // ----- completeness: secrets inside larger encoded texts -----

  lemma AlignedByte(p: string, secret: string, q: string, i: nat)
    requires IsBytes(p) && IsBytes(secret) && IsBytes(q) && |p| % 3 <= i < |p| % 3 + |secret|
    ensures ByteAt(p + secret + q, |p| / 3 * 3 + i) == ByteAt(Zeros(|p| % 3) + secret, i)
  {
    var o := |p| % 3;
    assert |p| / 3 * 3 + i == |p| + (i - o);
    assert (p + secret + q)[|p| + (i - o)] == secret[i - o] == (Zeros(o) + secret)[i];
  }

  /** A symbol depends on one or two bytes. */
  lemma SextetShift(a: string, b: string, m: nat, k: nat)
    requires IsBytes(a) && IsBytes(b)
    requires var i := k / 4 * 3;
             && (k % 4 <= 1 ==> ByteAt(a, m * 3 + i) == ByteAt(b, i))
             && (1 <= k % 4 <= 2 ==> ByteAt(a, m * 3 + (i + 1)) == ByteAt(b, i + 1))
             && (2 <= k % 4 ==> ByteAt(a, m * 3 + (i + 2)) == ByteAt(b, i + 2))
    ensures Sextet(a, m * 4 + k) == Sextet(b, k)
  {
    hide ByteAt;
    assert (m * 4 + k) / 4 == m + k / 4 && (m * 4 + k) % 4 == k % 4;
  }

  /** The bytes behind a symbol of the needle belong to the secret. */
  lemma SymbolBytes(o: nat, n: nat, k: nat)
    requires o < 3 && n >= MIN_SECRET && SkipPrefix(o) <= k
    requires k < RawLength(o + n) - (if (o + n) % 3 != 0 then 1 else 0)
    ensures var i := k / 4 * 3;
            && (k % 4 <= 1 ==> o <= i < o + n) && (1 <= k % 4 <= 2 ==> o <= i + 1 < o + n)
            && (2 <= k % 4 ==> o <= i + 2 < o + n)
  {
  }

  /** Symbols that depend on the secret only are the same in both texts. */
  lemma AlignedSextet(p: string, secret: string, q: string, k: nat)
    requires IsBytes(p) && IsBytes(secret) && IsBytes(q) && |secret| >= MIN_SECRET
    requires SkipPrefix(|p| % 3) <= k
    requires k < RawLength(|p| % 3 + |secret|) - (if (|p| % 3 + |secret|) % 3 != 0 then 1 else 0)
    ensures Sextet(p + secret + q, |p| / 3 * 4 + k) == Sextet(Zeros(|p| % 3) + secret, k)
  {
    hide Sextet, ByteAt, RawLength, SkipPrefix;
    var i := k / 4 * 3;
    SymbolBytes(|p| % 3, |secret|, k);
    if k % 4 <= 1 {
      AlignedByte(p, secret, q, i);
    }
    if 1 <= k % 4 <= 2 {
      AlignedByte(p, secret, q, i + 1);
    }
    if 2 <= k % 4 {
      AlignedByte(p, secret, q, i + 2);
    }
    SextetShift(p + secret + q, Zeros(|p| % 3) + secret, |p| / 3, k);
  }

  /** Symbol j of the aligned needle stands at its place in the larger text. */
  lemma SameSymbol(alpha: Alphabet, p: string, secret: string, q: string, j: nat)
    requires IsBytes(p) && IsBytes(secret) && IsBytes(q) && |secret| >= MIN_SECRET
    requires j < |AlignedNeedle(alpha, secret, |p| % 3)|
    ensures IsBytes(p + secret + q)
    ensures var at := |p| / 3 * 4 + SkipPrefix(|p| % 3);
            at + j < |EncodeRaw(alpha, p + secret + q)|
            && EncodeRaw(alpha, p + secret + q)[at + j] == AlignedNeedle(alpha, secret, |p| % 3)[j]
  {
    hide EncodeRaw, Symbol, Sextet;
    var o, m := |p| % 3, |p| / 3;
    var padded := Zeros(o) + secret;
    EncodeRawLength(alpha, padded);
    RawLengthFits(|p|, |secret|, |q|);
    var k := SkipPrefix(o) + j;
    AlignedSextet(p, secret, q, k);
    EncodeRawAt(alpha, padded, k);
    EncodeRawAt(alpha, p + secret + q, m * 4 + k);
  }

  lemma AlignedNeedleAt(alpha: Alphabet, p: string, secret: string, q: string)
    requires IsBytes(p) && IsBytes(secret) && IsBytes(q) && |secret| >= MIN_SECRET
    ensures Contains(EncodeRaw(alpha, p + secret + q), AlignedNeedle(alpha, secret, |p| % 3))
  {
    hide EncodeRaw, AlignedNeedle;
    var e, n := EncodeRaw(alpha, p + secret + q), AlignedNeedle(alpha, secret, |p| % 3);
    var at := |p| / 3 * 4 + SkipPrefix(|p| % 3);
    forall j: nat | j < |n| ensures at + j < |e| && e[at + j] == n[j] {
      SameSymbol(alpha, p, secret, q, j);
    }
    NeedleNotEmpty(alpha, secret, |p| % 3);
    SameSymbol(alpha, p, secret, q, |n| - 1);
    assert e[at..at + |n|] == n;
    assert OccursAt(e, n, at);
  }

  lemma NeedleNotEmpty(alpha: Alphabet, secret: string, o: nat)
    requires IsBytes(secret) && |secret| >= MIN_SECRET && o < 3
    ensures AlignedNeedle(alpha, secret, o) != ""
  {
    hide EncodeRaw;
    EncodeRawLength(alpha, Zeros(o) + secret);
  }

  lemma RawLengthFits(p: nat, s: nat, q: nat)
    ensures p / 3 * 4 + RawLength(p % 3 + s) - (if (p % 3 + s) % 3 != 0 then 1 else 0) <= RawLength(p + s + q)
  {
    var a, b := p % 3 + s, p + s + q;
    assert p / 3 + a / 3 <= b / 3;
  }

  /** ContainsSecret */
  predicate ContainsSecret(needles: seq<string>, s: string) {
    s != "" &&
    ((Contains(s, "-----BEGIN ") && Contains(s, "PRIVATE KEY-----"))
     || exists k | 0 <= k < |needles| :: Contains(s, needles[k]))
  }

  predicate HoldsNeedles(needles: seq<string>, wanted: set<string>) {
    forall n | n in wanted :: n in needles
  }

  lemma AlignedNeedleIsVariant(alpha: Alphabet, value: string, offset: nat)
    requires IsBytes(value) && IsBytes(TrimSpace(value)) && |TrimSpace(value)| >= MIN_SECRET && offset < 3
    ensures AlignedNeedle(alpha, TrimSpace(value), offset) in Variants(value)
  {
    var raw := TrimSpace(value);
    EncodeRawLength(alpha, Zeros(offset) + raw);
    assert AlignedNeedle(alpha, raw, offset) in AlignedBelow(raw, 3) by {
      assert AlignedNeedle(alpha, raw, offset) in AlignedBelow(raw, offset + 1);
      assert AlignedBelow(raw, 1) <= AlignedBelow(raw, 2) <= AlignedBelow(raw, 3);
    }
  }

  function Encode(alpha: Alphabet, padded: bool, b: string): string
    requires IsBytes(b)
  {
    if padded then EncodePadded(alpha, b) else EncodeRaw(alpha, b)
  }

  lemma EncodingHoldsNeedle(alpha: Alphabet, padded: bool, p: string, value: string, q: string)
    requires IsBytes(p) && IsBytes(q) && IsBytes(value) && IsBytes(TrimSpace(value))
    requires |TrimSpace(value)| >= MIN_SECRET
    ensures exists n :: n in Variants(value) && Contains(Encode(alpha, padded, p + TrimSpace(value) + q), n)
  {
    EncodingHoldsAligned(alpha, padded, p, value, q);
    AlignedNeedleIsVariant(alpha, value, |p| % 3);
  }

  lemma EncodingHoldsAligned(alpha: Alphabet, padded: bool, p: string, value: string, q: string)
    requires IsBytes(p) && IsBytes(q) && IsBytes(TrimSpace(value)) && |TrimSpace(value)| >= MIN_SECRET
    ensures Contains(Encode(alpha, padded, p + TrimSpace(value) + q), AlignedNeedle(alpha, TrimSpace(value), |p| % 3))
  {
    var raw := TrimSpace(value);
    var n, e := AlignedNeedle(alpha, raw, |p| % 3), EncodeRaw(alpha, p + raw + q);
    AlignedNeedleAt(alpha, p, raw, q);
    var full := Encode(alpha, padded, p + raw + q);
    var i :| 0 <= i <= |e| && OccursAt(e, n, i);
    assert full[i..i + |n|] == e[i..i + |n|];
    assert OccursAt(full, n, i);
  }

  lemma ContainsInContext(pre: string, s: string, post: string, n: string)
    requires Contains(s, n)
    ensures Contains(pre + s + post, n)
  {
    var i :| 0 <= i <= |s| && OccursAt(s, n, i);
    var all := pre + s + post;
    assert all[|pre| + i..|pre| + i + |n|] == s[i..i + |n|];
    assert OccursAt(all, n, |pre| + i);
  }

  /** Main result: a secret placed anywhere inside a larger blob is recognised in
      either base64 alphabet, padded or not, whatever surrounds the encoded text. */
  lemma EncodedSecretIsDetected(needles: seq<string>, value: string, alpha: Alphabet, padded: bool,
                                p: string, q: string, pre: string, post: string)
    requires IsBytes(p) && IsBytes(q) && IsBytes(value) && IsBytes(TrimSpace(value))
    requires |TrimSpace(value)| >= MIN_SECRET && HoldsNeedles(needles, Variants(value))
    ensures ContainsSecret(needles, pre + Encode(alpha, padded, p + TrimSpace(value) + q) + post)
  {
    EncodingHoldsNeedle(alpha, padded, p, value, q);
    var e := Encode(alpha, padded, p + TrimSpace(value) + q);
    var n :| n in Variants(value) && Contains(e, n);
    ContainsInContext(pre, e, post, n);
    assert n in needles;
    assert |n| >= MIN_NEEDLE;
    var s := pre + e + post;
    var i :| 0 <= i <= |s| && OccursAt(s, n, i);
  }

  // ----- which secrets give redactable needles, and how long they are -----

  /** Without brackets and fillers. */
  predicate Unmarked(s: string) {
    forall k | 0 <= k < |s| :: !Marked(s[k])
  }

  lemma UnmarkedIsBracketFree(s: string)
    requires Unmarked(s)
    ensures BracketFree(s)
  {
  }

  predicate Marked(c: char) {
    c in "[]" || c in FILLERS
  }

  lemma PercentShape(c: char)
    requires IsByte(c)
    ensures Unmarked(Percent(c)) && |Percent(c)| == 3
  {
  }

  /** One byte, escaped. */
  lemma ByteShape(c: char)
    requires IsByte(c)
    ensures Unmarked(QueryByte(c)) && 1 <= |QueryByte(c)| <= 3 && (Marked(c) ==> |QueryByte(c)| == 3)
    ensures Unmarked(PathByte(c)) && 1 <= |PathByte(c)| <= 3 && (Marked(c) ==> |PathByte(c)| == 3)
  {
    hide Percent;
    PercentShape(c);
  }

  lemma UnmarkedConcat(a: string, b: string)
    requires Unmarked(a) && Unmarked(b)
    ensures Unmarked(a + b)
  {
    hide Marked;
  }

  /** Neither kind of escaping leaves a marked character or shortens the text, and a
      marked character costs two more. */
  lemma {:induction false} EscapeShape(s: string)
    requires IsBytes(s)
    ensures Unmarked(QueryEscape(s)) && |s| <= |QueryEscape(s)| <= 3 * |s|
    ensures Unmarked(PathEscape(s)) && |s| <= |PathEscape(s)| <= 3 * |s|
    ensures !Unmarked(s) ==> |QueryEscape(s)| >= |s| + 2 && |PathEscape(s)| >= |s| + 2
  {
    hide Unmarked, Marked, QueryByte, PathByte;
    if s == "" {
      NothingUnmarked();
    } else {
      ByteShape(s[0]);
      EscapeShape(s[1..]);
      UnmarkedHead(s);
      UnmarkedConcat(QueryByte(s[0]), QueryEscape(s[1..]));
      UnmarkedConcat(PathByte(s[0]), PathEscape(s[1..]));
    }
  }

  lemma NothingUnmarked()
    ensures Unmarked("")
  {
  }

  lemma UnmarkedHead(s: string)
    requires s != ""
    ensures Unmarked(s) <==> !Marked(s[0]) && Unmarked(s[1..])
  {
    assert forall k | 1 <= k < |s| :: s[k] == s[1..][k - 1];
  }

  lemma SymbolsAreUnmarked(s: string)
    requires forall k | 0 <= k < |s| :: IsSymbol(s[k]) || s[k] == '='
    ensures Unmarked(s)
  {
  }

  /** Base64 makes a secret longer by at least two. */
  lemma AlignedNeedleShape(alpha: Alphabet, raw: string, offset: nat)
    requires IsBytes(raw) && |raw| >= MIN_SECRET && offset < 3
    ensures var n := AlignedNeedle(alpha, raw, offset); Unmarked(n) && |raw| + 2 <= |n| <= 3 * |raw|
  {
    hide Unmarked, EncodeRaw;
    EncodeRawLength(alpha, Zeros(offset) + raw);
    EncodeRawSymbols(alpha, Zeros(offset) + raw);
    SymbolsAreUnmarked(AlignedNeedle(alpha, raw, offset));
  }

  lemma EncodePaddedShape(alpha: Alphabet, raw: string)
    requires IsBytes(raw) && |raw| >= MIN_SECRET
    ensures var n := EncodePadded(alpha, raw); Unmarked(n) && |raw| + 2 <= |n| <= 3 * |raw|
  {
    hide Unmarked, EncodeRaw;
    EncodeRawLength(alpha, raw);
    EncodeRawSymbols(alpha, raw);
    SymbolsAreUnmarked(EncodePadded(alpha, raw));
  }

  /** A form of raw other than raw itself. */
  predicate EncodedForm(raw: string, n: string) {
    && Unmarked(n) && MIN_NEEDLE <= |n| <= 3 * |raw|
    && (!Unmarked(raw) ==> |n| >= |raw| + 2)
  }

  /** Every form of a secret but the plain one is unmarked, and longer than a marked secret. */
  lemma VariantShape(value: string, n: string)
    requires IsBytes(value) && n in Variants(value)
    ensures n == TrimSpace(value) || EncodedForm(TrimSpace(value), n)
    ensures MIN_NEEDLE <= |n| <= 3 * |TrimSpace(value)|
  {
    hide Unmarked, QueryEscape, PathEscape, EncodePadded, AlignedBelow, TrimSpace;
    TrimIsBytes(value);
    var raw := TrimSpace(value);
    EscapeShape(raw);
    EncodePaddedShape(Std, raw);
    EncodePaddedShape(Url, raw);
    if n in AlignedBelow(raw, 3) {
      AlignedBelowShape(raw, 3, n);
    }
  }

  lemma {:induction false} AlignedBelowShape(raw: string, k: nat, n: string)
    requires IsBytes(raw) && |raw| >= MIN_SECRET && k <= 3 && n in AlignedBelow(raw, k)
    ensures Unmarked(n) && |raw| + 2 <= |n| <= 3 * |raw|
  {
    hide Unmarked, AlignedNeedle;
    if k > 0 {
      AlignedNeedleShape(Std, raw, k - 1);
      AlignedNeedleShape(Url, raw, k - 1);
      if n in AlignedBelow(raw, k - 1) {
        AlignedBelowShape(raw, k - 1, n);
      }
    }
  }

  // ----- where the needles come from -----

  /** A configured value, an extra secret, or payload or signature of a token. */
  ghost predicate Source(values: seq<string>, extras: seq<string>, v: string) {
    v in values || v in extras || exists e :: e in extras && TokenPart(e, v)
  }

  predicate TokenPart(e: string, v: string) {
    var parts := SplitDots(e);
    |parts| == 3 && (v == parts[1] || v == parts[2])
  }

  lemma {:induction false} UnionVariantsFrom(values: seq<string>, n: string)
    requires AllBytes(values)
    ensures n in UnionVariants(values) <==> exists v :: v in values && IsBytes(v) && n in Variants(v)
  {
    hide Variants;
    if values != [] {
      var last := |values| - 1;
      UnionVariantsFrom(values[..last], n);
      assert values == values[..last] + [values[last]];
    }
  }

  predicate FromExtra(e: string, n: string) {
    IsBytes(e) && n in ExtraVariants(e)
  }

  lemma {:induction false} UnionExtrasFrom(extras: seq<string>, n: string)
    requires AllBytes(extras)
    ensures n in UnionExtras(extras) <==> exists e :: e in extras && FromExtra(e, n)
  {
    hide ExtraVariants;
    if extras != [] {
      var last := |extras| - 1;
      UnionExtrasFrom(extras[..last], n);
      assert n in ExtraVariants(extras[last]) <==> FromExtra(extras[last], n);
      assert extras == extras[..last] + [extras[last]];
    }
  }

  /** The needles are the forms of the sources, and of nothing else. */
  lemma NeedleSources(values: seq<string>, extras: seq<string>, n: string)
    requires AllBytes(values) && AllBytes(extras)
    ensures n in Needles(values, extras) <==> exists v :: Source(values, extras, v) && IsBytes(v) && n in Variants(v)
  {
    hide Variants;
    UnionVariantsFrom(values, n);
    UnionExtrasFrom(extras, n);
    if n in UnionExtras(extras) {
      var e :| e in extras && FromExtra(e, n);
      var parts := SplitDots(e);
      if n !in Variants(e) {
        assert TokenPart(e, parts[1]) && TokenPart(e, parts[2]);
      }
    }
    if v :| Source(values, extras, v) && IsBytes(v) && n in Variants(v) {
      if v !in values {
        SourceInExtras(extras, v, n);
      }
    }
  }

  lemma SourceInExtras(extras: seq<string>, v: string, n: string)
    requires AllBytes(extras) && IsBytes(v) && n in Variants(v)
    requires v in extras || exists e :: e in extras && TokenPart(e, v)
    ensures exists e :: e in extras && FromExtra(e, n)
  {
    hide Variants;
    if v in extras {
      assert FromExtra(v, n);
    } else {
      var e :| e in extras && TokenPart(e, v);
      assert FromExtra(e, n);
    }
  }

  /** A needle is the plain text of a source or free of brackets, and at most three times as long. */
  lemma NeedleShape(values: seq<string>, extras: seq<string>, n: string)
    requires AllBytes(values) && AllBytes(extras) && n in Needles(values, extras)
    ensures exists v :: Source(values, extras, v) && (n == TrimSpace(v) || Unmarked(n))
                        && MIN_NEEDLE <= |n| <= 3 * |TrimSpace(v)|
  {
    hide Source, Needles, Variants, Unmarked, TrimSpace;
    NeedleSources(values, extras, n);
    var v :| Source(values, extras, v) && IsBytes(v) && n in Variants(v);
    VariantShape(v, n);
  }

  /** No secret long enough to give needles overlaps the marker. */
  ghost predicate ApartFromMarker(values: seq<string>, extras: seq<string>) {
    forall v | Source(values, extras, v) && |TrimSpace(v)| >= MIN_SECRET :: !OverlapsMarker(TrimSpace(v))
  }

  lemma PlainIsVariant(v: string)
    requires IsBytes(v) && |TrimSpace(v)| >= MIN_SECRET
    ensures TrimSpace(v) in Variants(v)
  {
  }

  /** Exactly when all needles of a scanner are redactable. */
  lemma NeedlesRedactableIff(values: seq<string>, extras: seq<string>)
    requires AllBytes(values) && AllBytes(extras)
    ensures (forall n | n in Needles(values, extras) :: Redactable(n)) <==> ApartFromMarker(values, extras)
  {
    hide Source, Needles, Unmarked, TrimSpace, OverlapsMarker;
    if ApartFromMarker(values, extras) {
      forall n | n in Needles(values, extras) ensures Redactable(n) {
        NeedleSources(values, extras, n);
        var v :| Source(values, extras, v) && IsBytes(v) && n in Variants(v);
        VariantShape(v, n);
        if Unmarked(n) {
          UnmarkedIsBracketFree(n);
          BracketFreeIsSeparate(n);
        }
      }
    } else {
      var v :| Source(values, extras, v) && |TrimSpace(v)| >= MIN_SECRET && OverlapsMarker(TrimSpace(v));
      SourceIsBytes(values, extras, v);
      PlainIsVariant(v);
      NeedleSources(values, extras, TrimSpace(v));
    }
  }

  lemma SourceIsBytes(values: seq<string>, extras: seq<string>, v: string)
    requires AllBytes(values) && AllBytes(extras) && Source(values, extras, v)
    ensures IsBytes(v)
  {
    if v !in values && v !in extras {
      var e :| e in extras && TokenPart(e, v);
      assert IsBytes(e);
    }
  }
}
