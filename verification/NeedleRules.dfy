/** The needles of a scanner, spelled out on the secrets and on RFC 4648, without the
    helpers that compute them (internal/authz/audit.go). */
module NeedleRules {
  import opened Base64
  import opened Redaction
  import opened Lex
  import opened SecretScanner

  // ----- base64 -----

  /** How a decoder reads a symbol: tables 1 and 2 of RFC 4648. */
  function Reads(alpha: Alphabet, c: char): int {
    if 'A' <= c <= 'Z' then c as int - 'A' as int
    else if 'a' <= c <= 'z' then 26 + (c as int - 'a' as int)
    else if '0' <= c <= '9' then 52 + (c as int - '0' as int)
    else if alpha.Std? then (if c == '+' then 62 else if c == '/' then 63 else -1)
    else if c == '-' then 62 else if c == '_' then 63 else -1
  }

  lemma ReadsSymbol(alpha: Alphabet, v: nat)
    requires v < 64
    ensures Reads(alpha, Symbol(alpha, v)) == v
  {
  }

  /** Four symbols carry three bytes, most significant bits first. */
  predicate Carries(alpha: Alphabet, e: string, x: int, y: int, z: int) {
    && |e| == 4 && (forall i | 0 <= i < 4 :: Reads(alpha, e[i]) >= 0)
    && Reads(alpha, e[0]) * 262144 + Reads(alpha, e[1]) * 4096 + Reads(alpha, e[2]) * 64 + Reads(alpha, e[3])
       == x * 65536 + y * 256 + z
  }

  lemma FourCarry(alpha: Alphabet, x: nat, y: nat, z: nat)
    requires x < 256 && y < 256 && z < 256
    ensures Carries(alpha, [Symbol(alpha, x / 4), Symbol(alpha, x % 4 * 16 + y / 16),
                            Symbol(alpha, y % 16 * 4 + z / 64), Symbol(alpha, z % 64)], x, y, z)
  {
    hide Symbol, Reads;
    ReadsSymbol(alpha, x / 4);
    ReadsSymbol(alpha, x % 4 * 16 + y / 16);
    ReadsSymbol(alpha, y % 16 * 4 + z / 64);
    ReadsSymbol(alpha, z % 64);
  }

  lemma ZeroSymbol(alpha: Alphabet)
    ensures Symbol(alpha, 0) == 'A'
  {
  }

  /** Section 4 of RFC 4648: every full group of three bytes is carried by four
      symbols. */
  lemma FullGroup(alpha: Alphabet, b: string, rest: string)
    requires IsBytes(b) && IsBytes(rest) && |b| == 3
    ensures |EncodeRaw(alpha, b)| == 4 && Carries(alpha, EncodeRaw(alpha, b), b[0] as int, b[1] as int, b[2] as int)
    ensures EncodeRaw(alpha, b + rest) == EncodeRaw(alpha, b) + EncodeRaw(alpha, rest)
  {
    hide Symbol, Carries;
    var x, y, z := b[0] as int, b[1] as int, b[2] as int;
    FourCarry(alpha, x, y, z);
    assert (b + rest)[3..] == rest && b[3..] == "";
    assert EncodeRaw(alpha, "") == "";
    assert EncodeRaw(alpha, b) == [Symbol(alpha, x / 4), Symbol(alpha, x % 4 * 16 + y / 16),
                                   Symbol(alpha, y % 16 * 4 + z / 64), Symbol(alpha, z % 64)];
  }

  /** Of a last group, filled up with zeros, the symbols that hold its bits are kept. */
  lemma LastGroup(alpha: Alphabet, b: string)
    requires IsBytes(b) && 1 <= |b| <= 2
    ensures |EncodeRaw(alpha, b)| == |b| + 1
    ensures |b| == 2 ==> Carries(alpha, EncodeRaw(alpha, b) + "A", b[0] as int, b[1] as int, 0)
    ensures |b| == 1 ==> Carries(alpha, EncodeRaw(alpha, b) + "AA", b[0] as int, 0, 0)
  {
    hide Symbol, Carries;
    ZeroSymbol(alpha);
    var x, y := b[0] as int, if |b| == 2 then b[1] as int else 0;
    FourCarry(alpha, x, y, 0);
    var four := [Symbol(alpha, x / 4), Symbol(alpha, x % 4 * 16 + y / 16),
                 Symbol(alpha, y % 16 * 4 + 0 / 64), Symbol(alpha, 0 % 64)];
    if |b| == 2 {
      assert EncodeRaw(alpha, b) + "A" == four;
    } else {
      assert EncodeRaw(alpha, b) + "AA" == four;
    }
  }

  /** Padding fills the last group up to four. */
  lemma PaddingFills(alpha: Alphabet, b: string)
    requires IsBytes(b)
    ensures EncodeRaw(alpha, b) <= EncodePadded(alpha, b)
    ensures |EncodePadded(alpha, b)| == (|b| + 2) / 3 * 4
    ensures forall i :: |EncodeRaw(alpha, b)| <= i < |EncodePadded(alpha, b)| ==> EncodePadded(alpha, b)[i] == '='
  {
    hide EncodeRaw;
    EncodeRawLength(alpha, b);
  }

  // ----- URL escapes -----

  const HEX: string := "0123456789ABCDEF"

  /** One byte as url.QueryEscape and url.PathEscape write it. */
  lemma EscapedByte(c: char)
    requires IsByte(c)
    ensures var plain := 'a' <= c <= 'z' || 'A' <= c <= 'Z' || '0' <= c <= '9'
                         || c == '-' || c == '_' || c == '.' || c == '~';
            var code := ['%', HEX[c as int / 16], HEX[c as int % 16]];
            && QueryEscape([c]) == (if plain then [c] else if c == ' ' then "+" else code)
            && PathEscape([c]) == if plain || c == '$' || c == '&' || c == '+' || c == ':' || c == '=' || c == '@' then [c] else code
  {
    hide QueryByte, PathByte;
    assert QueryEscape([c][1..]) == "" && PathEscape([c][1..]) == "";
    assert QueryEscape([c]) == QueryByte(c) && PathEscape([c]) == PathByte(c);
    ByteEscapes(c);
  }

  lemma ByteEscapes(c: char)
    requires IsByte(c)
    ensures var plain := 'a' <= c <= 'z' || 'A' <= c <= 'Z' || '0' <= c <= '9'
                         || c == '-' || c == '_' || c == '.' || c == '~';
            var code := ['%', HEX[c as int / 16], HEX[c as int % 16]];
            && QueryByte(c) == (if plain then [c] else if c == ' ' then "+" else code)
            && PathByte(c) == if plain || c == '$' || c == '&' || c == '+' || c == ':' || c == '=' || c == '@' then [c] else code
  {
    assert forall v | 0 <= v < 16 :: HexDigit(v) == HEX[v];
  }

  /** A text is escaped byte by byte. */
  lemma {:induction false} EscapesConcat(a: string, b: string)
    requires IsBytes(a) && IsBytes(b)
    ensures QueryEscape(a + b) == QueryEscape(a) + QueryEscape(b)
    ensures PathEscape(a + b) == PathEscape(a) + PathEscape(b)
  {
    hide QueryByte, PathByte;
    if a == "" {
      assert a + b == b;
    } else {
      assert (a + b)[1..] == a[1..] + b;
      EscapesConcat(a[1..], b);
    }
  }

  // ----- white space and token parts -----

  /** The UTF-8 form of a character that strings.TrimSpace removes. */
  predicate WhiteSpace(w: string) {
    || (|w| == 1 && w[0] as int in {9, 10, 11, 12, 13, 32})
    || (|w| == 2 && w[0] as int == 0xC2 && w[1] as int in {0x85, 0xA0})
    || (|w| == 3 && w[0] as int == 0xE1 && w[1] as int == 0x9A && w[2] as int == 0x80)
    || (|w| == 3 && w[0] as int == 0xE2 && w[1] as int == 0x80
        && (0x80 <= w[2] as int <= 0x8A || w[2] as int in {0xA8, 0xA9, 0xAF}))
    || (|w| == 3 && w[0] as int == 0xE2 && w[1] as int == 0x81 && w[2] as int == 0x9F)
    || (|w| == 3 && w[0] as int == 0xE3 && w[1] as int == 0x80 && w[2] as int == 0x80)
  }

  lemma WhiteAtStart(w: string, s: string)
    requires WhiteSpace(w)
    ensures SpaceAtStart(w + s) == |w|
  {
    var t := w + s;
    assert t[0] == w[0];
    if |w| >= 2 {
      assert t[1] == w[1] && t[..2] == [w[0], w[1]];
    }
    if |w| == 3 {
      assert t[2] == w[2] && t[..3] == w;
    }
  }

  lemma WhiteAtEnd(s: string, w: string)
    requires WhiteSpace(w)
    ensures SpaceAtEnd(s + w) == |w|
  {
    var t := s + w;
    assert t[|t| - 1] == w[|w| - 1];
    if |w| >= 2 {
      assert t[|t| - 2] == w[|w| - 2] && t[|t| - 2..] == [w[|w| - 2], w[|w| - 1]];
    }
    if |w| == 3 {
      assert t[|t| - 3..] == w;
    }
  }

  lemma ShortSpaces(w: string)
    ensures |w| == 1 && IsSpace(w[0]) ==> WhiteSpace(w)
    ensures |w| == 2 && w in TWO_BYTE_SPACES ==> WhiteSpace(w)
  {
  }

  lemma LongSpaces(w: string)
    ensures |w| == 3 && IsThreeByteSpace(w) ==> WhiteSpace(w)
  {
  }

  lemma SpaceIsWhite(s: string)
    ensures SpaceAtStart(s) > 0 ==> WhiteSpace(s[..SpaceAtStart(s)])
    ensures SpaceAtEnd(s) > 0 ==> WhiteSpace(s[|s| - SpaceAtEnd(s)..])
  {
    hide WhiteSpace, IsSpace, IsThreeByteSpace, TWO_BYTE_SPACES;
    ShortSpaces(s[..SpaceAtStart(s)]);
    LongSpaces(s[..SpaceAtStart(s)]);
    ShortSpaces(s[|s| - SpaceAtEnd(s)..]);
    LongSpaces(s[|s| - SpaceAtEnd(s)..]);
  }

  lemma WhiteBytes(w: string)
    requires WhiteSpace(w)
    ensures w != "" && !(0x80 <= w[0] as int <= 0xAF)
    ensures forall i :: 1 <= i < |w| ==> 0x80 <= w[i] as int <= 0xAF
  {
  }

  lemma Beyond(v: string, s: string, w: string)
    requires v <= s + w && |s| < |v| && w != ""
    ensures v[|s|] == w[0]
  {
    assert (s + w)[|s|] == w[0];
  }

  /** No white-space character ends in the first byte of another. */
  lemma WhiteDoesNotSpan(v: string, s: string, w: string)
    requires s != "" && WhiteSpace(v) && WhiteSpace(w) && v <= s + w
    ensures v <= s
  {
    hide WhiteSpace;
    WhiteBytes(v);
    WhiteBytes(w);
    if |v| <= |s| {
      assert (s + w)[..|v|] == s[..|v|];
    } else {
      Beyond(v, s, w);
      assert false;
    }
  }

  lemma SomeAtStart(v: string, s: string)
    requires WhiteSpace(v) && v <= s
    ensures SpaceAtStart(s) > 0
  {
    hide WhiteSpace, SpaceAtStart;
    WhiteAtStart(v, s[|v|..]);
    WhiteBytes(v);
    assert s == v + s[|v|..];
  }

  lemma NoneAtStart(s: string)
    ensures SpaceAtStart(s) > 0 <==> exists v :: WhiteSpace(v) && v <= s
  {
    hide WhiteSpace, SpaceAtStart;
    if v :| WhiteSpace(v) && v <= s {
      SomeAtStart(v, s);
    }
    if SpaceAtStart(s) > 0 {
      SpaceIsWhite(s);
      assert s[..SpaceAtStart(s)] <= s;
    }
  }

  /** White space falls away at either end, and nothing else does: with it a text is
      trimmed in one way only. */
  lemma TrimIs(w: string, s: string)
    requires WhiteSpace(w)
    ensures TrimSpace(w + s) == TrimSpace(s)
    ensures s != "" && (forall v :: WhiteSpace(v) ==> !(v <= s)) ==> TrimSpace(s + w) == TrimSpace(s)
    ensures (forall v :: WhiteSpace(v) ==> !(v <= s) && !EndsWith(s, v)) ==> TrimSpace(s) == s
    ensures TrimSpace("") == ""
  {
    hide WhiteSpace, SpaceAtStart, SpaceAtEnd;
    WhiteAtStart(w, s);
    assert (w + s)[|w|..] == s;
    SpaceIsWhite(s);
    SpaceIsWhite("");
    if s != "" && forall v :: WhiteSpace(v) ==> !(v <= s) {
      NoneAtStart(s);
      NoneAtStart(s + w);
      forall v | WhiteSpace(v) && v <= s + w ensures v <= s {
        WhiteDoesNotSpan(v, s, w);
      }
      WhiteAtEnd(s, w);
      assert (s + w)[..|s + w| - |w|] == s;
    }
    if forall v :: WhiteSpace(v) ==> !(v <= s) && !EndsWith(s, v) {
      assert s[..SpaceAtStart(s)] <= s && EndsWith(s, s[|s| - SpaceAtEnd(s)..]);
    }
  }

  predicate NoDot(s: string) {
    '.' !in s
  }

  /** The three parts of a token. */
  lemma SplitsInThree(e: string, a: string, b: string, c: string)
    requires NoDot(a) && NoDot(b) && NoDot(c)
    ensures SplitDots(e) == [a, b, c] <==> e == a + "." + b + "." + c
  {
    hide NoDot;
    if SplitDots(e) == [a, b, c] {
      SplitJoins(e);
      assert [b, c][1..] == [c] && [a, b, c][1..] == [b, c];
      assert Joined([b, c]) == b + ("." + c);
      Regroup(a, b, c);
    }
    if e == a + "." + b + "." + c {
      ThreeSplit(a, b, c);
    }
  }

  lemma ThreeSplit(a: string, b: string, c: string)
    requires NoDot(a) && NoDot(b) && NoDot(c)
    ensures SplitDots(a + "." + b + "." + c) == [a, b, c]
  {
    hide NoDot, SplitDots;
    var rest := b + ("." + c);
    SplitNone(c);
    SplitFirst(b, c);
    SplitFirst(a, rest);
    assert SplitDots(rest) == [b, c];
    Regroup(a, b, c);
  }

  lemma Regroup(a: string, b: string, c: string)
    ensures a + ("." + (b + ("." + c))) == a + "." + b + "." + c
  {
    assert a + "." + b == a + ("." + b);
  }

  function Joined(parts: seq<string>): string
    requires parts != []
  {
    if |parts| == 1 then parts[0] else parts[0] + ("." + Joined(parts[1..]))
  }

  lemma {:induction false} SplitJoins(e: string)
    ensures Joined(SplitDots(e)) == e
    ensures forall k | 0 <= k < |SplitDots(e)| :: NoDot(SplitDots(e)[k])
  {
    if e != "" {
      SplitJoins(e[1..]);
      var rest := SplitDots(e[1..]);
      if e[0] != '.' {
        assert ([[e[0]] + rest[0]] + rest[1..])[1..] == rest[1..];
      } else {
        assert ([""] + rest)[1..] == rest;
      }
    }
  }

  lemma {:induction false} SplitFirst(a: string, rest: string)
    requires NoDot(a)
    ensures SplitDots(a + ("." + rest)) == [a] + SplitDots(rest)
  {
    var e := a + ("." + rest);
    if a == "" {
      assert e[1..] == rest;
    } else {
      assert e[1..] == a[1..] + ("." + rest);
      SplitFirst(a[1..], rest);
      assert [a[0]] + a[1..] == a;
    }
  }

  lemma {:induction false} SplitNone(c: string)
    requires NoDot(c)
    ensures SplitDots(c) == [c]
  {
    if c != "" {
      SplitNone(c[1..]);
      assert [c[0]] + c[1..] == c;
    }
  }

  // ----- the needles -----

  /** The aligned needle is the stretch of a larger encoded text that carries bits of
      the secret only, whatever stands before and after it. */
  lemma AlignedNeedleIs(alpha: Alphabet, p: string, secret: string, q: string)
    requires IsBytes(p) && IsBytes(secret) && IsBytes(q) && |secret| >= MIN_SECRET
    ensures var first, beyond := (8 * |p| + 5) / 6, 8 * (|p| + |secret|) / 6;
            0 <= first <= beyond <= |EncodeRaw(alpha, p + secret + q)|
            && AlignedNeedle(alpha, secret, |p| % 3) == EncodeRaw(alpha, p + secret + q)[first..beyond]
  {
    hide EncodeRaw, AlignedNeedle;
    var n, e := AlignedNeedle(alpha, secret, |p| % 3), EncodeRaw(alpha, p + secret + q);
    var at := |p| / 3 * 4 + SkipPrefix(|p| % 3);
    forall j: nat | j < |n| ensures at + j < |e| && e[at + j] == n[j] {
      SameSymbol(alpha, p, secret, q, j);
    }
    AlignedPlace(alpha, secret, |p|);
    SameSymbol(alpha, p, secret, q, |n| - 1);
    assert e[at..at + |n|] == n;
  }

  lemma AlignedPlace(alpha: Alphabet, secret: string, p: nat)
    requires IsBytes(secret) && |secret| >= MIN_SECRET
    ensures var at := p / 3 * 4 + SkipPrefix(p % 3);
            at == (8 * p + 5) / 6 && at + |AlignedNeedle(alpha, secret, p % 3)| == 8 * (p + |secret|) / 6
    ensures AlignedNeedle(alpha, secret, p % 3) != ""
  {
    hide EncodeRaw;
    EncodeRawLength(alpha, Zeros(p % 3) + secret);
  }

  /** Exactly the needles of one secret: of at least 12 bytes, from a trimmed secret
      of at least 16, and its plain form, an escaped form, a padded encoding, or what
      of it shows in the encoding of a larger text. */
  lemma VariantIff(value: string, n: string)
    requires IsBytes(value) && IsBytes(TrimSpace(value))
    ensures n in Variants(value) <==>
            && |TrimSpace(value)| >= 16 && |n| >= 12
            && (n == TrimSpace(value) || n == QueryEscape(TrimSpace(value)) || n == PathEscape(TrimSpace(value))
                || n == EncodePadded(Std, TrimSpace(value)) || n == EncodePadded(Url, TrimSpace(value))
                || exists alpha, p, q :: IsBytes(p) && IsBytes(q) && Shows(alpha, p, TrimSpace(value), q, n))
  {
    hide TrimSpace, QueryEscape, PathEscape, EncodePadded, AlignedNeedle, Shows;
    var raw := TrimSpace(value);
    if |raw| >= MIN_SECRET {
      AlignedBelowIff(raw, n);
    }
  }

  /** n is the stretch of the encoded text that carries bits of the secret only. */
  predicate Shows(alpha: Alphabet, p: string, secret: string, q: string, n: string)
    requires IsBytes(p) && IsBytes(secret) && IsBytes(q)
  {
    var e := EncodeRaw(alpha, p + secret + q);
    var first, beyond := (8 * |p| + 5) / 6, 8 * (|p| + |secret|) / 6;
    first <= beyond <= |e| && n == e[first..beyond]
  }

  lemma ShowsAligned(alpha: Alphabet, p: string, secret: string, q: string, n: string)
    requires IsBytes(p) && IsBytes(secret) && IsBytes(q) && |secret| >= MIN_SECRET
    ensures Shows(alpha, p, secret, q, n) <==> n == AlignedNeedle(alpha, secret, |p| % 3)
  {
    hide EncodeRaw, AlignedNeedle;
    AlignedNeedleIs(alpha, p, secret, q);
  }

  lemma AlignedBelowIff(raw: string, n: string)
    requires IsBytes(raw) && |raw| >= MIN_SECRET
    ensures n in AlignedBelow(raw, 3) <==>
            exists alpha, p, q :: IsBytes(p) && IsBytes(q) && Shows(alpha, p, raw, q, n)
  {
    hide AlignedNeedle, Shows, AlignedBelow;
    AlignedBelowThree(raw, n);
    if alpha, p, q :| IsBytes(p) && IsBytes(q) && Shows(alpha, p, raw, q, n) {
      ShowsAligned(alpha, p, raw, q, n);
    }
    if alpha, o: nat :| o < 3 && n == AlignedNeedle(alpha, raw, o) {
      ShowsAligned(alpha, Zeros(o), raw, "", n);
    }
  }

  lemma AlignedBelowThree(raw: string, n: string)
    requires IsBytes(raw) && |raw| >= MIN_SECRET
    ensures n in AlignedBelow(raw, 3) <==> exists alpha, o: nat :: o < 3 && n == AlignedNeedle(alpha, raw, o)
  {
    hide AlignedNeedle;
    assert AlignedBelow(raw, 1) == { AlignedNeedle(Std, raw, 0), AlignedNeedle(Url, raw, 0) };
    assert AlignedBelow(raw, 2) == AlignedBelow(raw, 1) + { AlignedNeedle(Std, raw, 1), AlignedNeedle(Url, raw, 1) };
    if alpha, o: nat :| o < 3 && n == AlignedNeedle(alpha, raw, o) {
      assert alpha.Std? || alpha.Url?;
    }
  }

  ghost predicate NeedleOf(v: string, n: string) {
    IsBytes(v) && n in Variants(v)
  }

  /** Exactly the needles of a scanner: those of the secret values, of the extra
      secrets, and of the second and third parts of the three-part ones. */
  lemma NeedlesIff(values: seq<string>, extras: seq<string>, n: string)
    requires AllBytes(values) && AllBytes(extras)
    ensures n in Needles(values, extras) <==>
            || (exists v :: v in values && NeedleOf(v, n))
            || (exists e :: e in extras && NeedleOf(e, n))
            || exists a, b, c :: NoDot(a) && NoDot(b) && NoDot(c) && a + "." + b + "." + c in extras
                                 && (NeedleOf(b, n) || NeedleOf(c, n))
  {
    hide Variants, Needles, NoDot, TokenPart, NeedleOf, AllBytes;
    NeedleSources(values, extras, n);
    forall v ensures IsBytes(v) && n in Variants(v) <==> NeedleOf(v, n) {
      NeedleOfIff(v, n);
    }
    if v, e :| e in extras && TokenPart(e, v) && NeedleOf(v, n) {
      PartOf(e, v);
    }
    if a, b, c :| NoDot(a) && NoDot(b) && NoDot(c) && a + "." + b + "." + c in extras && (NeedleOf(b, n) || NeedleOf(c, n)) {
      PartIs(a, b, c);
    }
  }

  lemma NeedleOfIff(v: string, n: string)
    ensures NeedleOf(v, n) <==> IsBytes(v) && n in Variants(v)
  {
  }

  lemma PartIs(a: string, b: string, c: string)
    requires NoDot(a) && NoDot(b) && NoDot(c)
    ensures TokenPart(a + "." + b + "." + c, b) && TokenPart(a + "." + b + "." + c, c)
  {
    ThreeSplit(a, b, c);
  }

  lemma PartOf(e: string, v: string)
    requires TokenPart(e, v)
    ensures exists a, b, c :: NoDot(a) && NoDot(b) && NoDot(c) && e == a + "." + b + "." + c && (v == b || v == c)
  {
    hide NoDot;
    ThreeParts(e);
  }

  lemma ThreeParts(e: string)
    requires |SplitDots(e)| == 3
    ensures var parts := SplitDots(e);
            NoDot(parts[0]) && NoDot(parts[1]) && NoDot(parts[2]) && e == parts[0] + "." + parts[1] + "." + parts[2]
  {
    hide NoDot;
    var parts := SplitDots(e);
    SplitJoins(e);
    SplitsInThree(e, parts[0], parts[1], parts[2]);
  }

  /** a comes before b in byte order: at the first difference, or as a shorter beginning. */
  lemma {:induction false} LexLessIff(a: string, b: string)
    ensures LexLess(a, b) <==>
            exists k :: 0 <= k <= |a| && k < |b| && a[..k] == b[..k] && (k < |a| ==> a[k] < b[k])
  {
    if a != "" && b != "" && a[0] == b[0] {
      LexLessIff(a[1..], b[1..]);
      if k :| 0 <= k <= |a| && k < |b| && a[..k] == b[..k] && (k < |a| ==> a[k] < b[k]) {
        assert a[..k][0] == a[0] || k == 0;
        assert a[1..][..k - 1] == a[..k][1..] && b[1..][..k - 1] == b[..k][1..];
      }
      if LexLess(a[1..], b[1..]) {
        var k :| 0 <= k <= |a[1..]| && k < |b[1..]| && a[1..][..k] == b[1..][..k] && (k < |a[1..]| ==> a[1..][k] < b[1..][k]);
        assert a[..k + 1] == [a[0]] + a[1..][..k] && b[..k + 1] == [b[0]] + b[1..][..k];
      }
    } else if b != "" {
      assert a[..0] == b[..0];
    }
  }

  /** In the scanner's list a longer needle stands before a shorter one, and needles
      of one length stand in byte order. */
  lemma OrderIs(needles: seq<string>, j: nat, k: nat)
    requires Ordered(needles) && j < k < |needles|
    ensures |needles[j]| >= |needles[k]|
    ensures |needles[j]| == |needles[k]| ==>
              exists i :: 0 <= i < |needles[j]| && needles[j][..i] == needles[k][..i] && needles[j][i] < needles[k][i]
  {
    LexLessIff(needles[j], needles[k]);
  }

  /** What is taken for secret: a needle in it, or the two ends of a PEM private-key header. */
  lemma ContainsSecretIff(needles: seq<string>, s: string)
    requires NonEmpty(needles)
    ensures ContainsSecret(needles, s) <==>
            || (exists n, pre, post :: n in needles && s == pre + n + post)
            || ((exists pre, post :: s == pre + "-----BEGIN " + post) && exists pre, post :: s == pre + "PRIVATE KEY-----" + post)
  {
    ContainsIff(s, "-----BEGIN ");
    ContainsIff(s, "PRIVATE KEY-----");
    forall n ensures Contains(s, n) <==> exists pre, post :: s == pre + n + post {
      ContainsIff(s, n);
    }
  }

  lemma ContainsIff(s: string, n: string)
    ensures Contains(s, n) <==> exists pre, post :: s == pre + n + post
  {
    if i :| 0 <= i <= |s| && OccursAt(s, n, i) {
      assert s == s[..i] + n + s[i + |n|..];
    }
    if pre, post :| s == pre + n + post {
      assert OccursAt(s, n, |pre|);
    }
  }
}
