/** The scanner, the redactor and the stderr scrubber put together. */
module SecretFlow {
  import opened Base64
  import opened Redaction
  import opened Scrubber
  import opened Lex
  import opened SecretScanner

  /** needles is what NewSecretScanner returns. */
  ghost predicate ScannerFor(needles: seq<string>, values: seq<string>, extras: seq<string>) {
    && AllBytes(values) && AllBytes(extras) && Ordered(needles)
    && forall n :: n in needles <==> n in Needles(values, extras)
  }

  lemma ScannerNeedles(needles: seq<string>, values: seq<string>, extras: seq<string>)
    requires ScannerFor(needles, values, extras)
    ensures NonEmpty(needles)
  {
    hide Needles, Ordered;
    forall k | 0 <= k < |needles| ensures needles[k] != "" {
      assert needles[k] in needles;
      NeedleShape(values, extras, needles[k]);
    }
  }

  lemma ScannerHoldsSecret(needles: seq<string>, values: seq<string>, extras: seq<string>, v: string)
    requires ScannerFor(needles, values, extras) && Source(values, extras, v)
    ensures IsBytes(v) && HoldsNeedles(needles, Variants(v))
  {
    hide Source, Needles, Variants;
    SourceIsBytes(values, extras, v);
    forall n | n in Variants(v) ensures n in needles {
      NeedleSources(values, extras, n);
    }
  }

  /** One needle inside every base64 form of a secret: redactable whatever the
      secret holds, since base64 has no brackets. */
  lemma EncodedSecretHoldsRedactable(needles: seq<string>, v: string, alpha: Alphabet, padded: bool, p: string, q: string)
      returns (n: string)
    requires IsBytes(p) && IsBytes(q) && IsBytes(v) && IsBytes(TrimSpace(v))
    requires |TrimSpace(v)| >= MIN_SECRET && HoldsNeedles(needles, Variants(v))
    ensures n in needles && Redactable(n) && |n| <= 3 * |TrimSpace(v)|
    ensures Contains(Encode(alpha, padded, p + TrimSpace(v) + q), n)
  {
    var raw := TrimSpace(v);
    n := AlignedNeedle(alpha, raw, |p| % 3);
    EncodingHoldsAligned(alpha, padded, p, v, q);
    AlignedNeedleIsVariant(alpha, v, |p| % 3);
    AlignedNeedleShape(alpha, raw, |p| % 3);
    UnmarkedIsBracketFree(n);
    BracketFreeIsSeparate(n);
  }

  /** End to end for RedactString: no base64 form of a secret survives redaction,
      whatever characters the secrets hold. */
  lemma RedactionHidesEncodedSecrets(needles: seq<string>, values: seq<string>, extras: seq<string>,
                                     v: string, alpha: Alphabet, padded: bool, p: string, q: string, s: string)
    requires ScannerFor(needles, values, extras) && Source(values, extras, v)
    requires IsBytes(p) && IsBytes(q) && IsBytes(TrimSpace(v)) && |TrimSpace(v)| >= MIN_SECRET
    ensures NonEmpty(needles)
    ensures !Contains(Redact(needles, s), Encode(alpha, padded, p + TrimSpace(v) + q))
  {
    hide Contains, Redact, Encode, Source;
    ScannerNeedles(needles, values, extras);
    ScannerHoldsSecret(needles, values, extras, v);
    var n := EncodedSecretHoldsRedactable(needles, v, alpha, padded, p, q);
    RedactRemoves(needles, s, n);
    var out, e := Redact(needles, s), Encode(alpha, padded, p + TrimSpace(v) + q);
    if Contains(out, e) {
      ContainsTransitive(out, e, n);
    }
  }

  /** End to end for the stderr scrubber: for a secret of up to 5461 bytes no
      stream, however cut into reads, makes it write a base64 form of the secret. */
  lemma ScrubberHidesEncodedSecrets(needles: seq<string>, values: seq<string>, extras: seq<string>,
                                    v: string, alpha: Alphabet, padded: bool, p: string, q: string, chunks: seq<string>)
    requires ScannerFor(needles, values, extras) && Source(values, extras, v)
    requires IsBytes(p) && IsBytes(q) && IsBytes(TrimSpace(v)) && MIN_SECRET <= |TrimSpace(v)| <= 5461
    ensures NonEmpty(needles)
    ensures !Contains(Output(needles, chunks), Encode(alpha, padded, p + TrimSpace(v) + q))
  {
    hide Contains, Output, Encode, Source;
    ScannerNeedles(needles, values, extras);
    ScannerHoldsSecret(needles, values, extras, v);
    var n := EncodedSecretHoldsRedactable(needles, v, alpha, padded, p, q);
    ShortNeedleNeverWritten(needles, chunks, n);
    var out, e := Output(needles, chunks), Encode(alpha, padded, p + TrimSpace(v) + q);
    if Contains(out, e) {
      ContainsTransitive(out, e, n);
    }
  }

  /** Exactly when all needles of a scanner are redactable: when no secret overlaps the marker. */
  lemma ScannerRedactableIff(needles: seq<string>, values: seq<string>, extras: seq<string>)
    requires ScannerFor(needles, values, extras)
    ensures AllRedactable(needles) <==> ApartFromMarker(values, extras)
  {
    hide Needles, ApartFromMarker, Redactable, Ordered;
    NeedlesRedactableIff(values, extras);
    assert AllRedactable(needles) <==> forall n | n in needles :: Redactable(n);
  }

  // ----- exactly which secrets every scanner removes -----

  /** Every scanner configured with v removes its plain text from every text. */
  ghost predicate AlwaysRedacted(v: string) {
    forall needles, values, extras, s ::
      ScannerFor(needles, values, extras) && Source(values, extras, v) && NonEmpty(needles) ==>
        !Contains(Redact(needles, s), TrimSpace(v))
  }

  lemma FillerIsSecret(n: string, x: string)
    requires IsBytes(n) && |n| > MIN_SECRET
    ensures var m := Filler(n, x); IsBytes(m) && TrimSpace(m) == m && !Unmarked(m) && m != n
  {
    var m := Filler(n, x);
    assert m[0] in FILLERS && m[|m| - 1] in FILLERS;
    hide Filler;
    assert SpaceAtStart(m) == 0 && SpaceAtEnd(m) == 0;
  }

  lemma PairSources(v: string, m: string, w: string)
    ensures Source([v, m], [], w) <==> w == v || w == m
  {
    assert [v, m][0] == v && [v, m][1] == m;
  }

  lemma MarkedForms(w: string, f: string)
    requires IsBytes(w) && f in Variants(w) && !Unmarked(TrimSpace(w))
    ensures f == TrimSpace(w) || (Unmarked(f) && |f| >= |TrimSpace(w)| + 2)
  {
    hide Unmarked, TrimSpace, Variants;
    VariantShape(w, f);
  }

  /** A needle of the scanner with v and the run: the plain v, the run, or longer than v and unmarked. */
  lemma NeedleOfPair(v: string, x: string, f: string)
    requires IsBytes(v) && IsBytes(TrimSpace(v)) && |TrimSpace(v)| > MIN_SECRET && !Unmarked(TrimSpace(v))
    requires IsBytes(Filler(TrimSpace(v), x)) && f in Needles([v, Filler(TrimSpace(v), x)], [])
    ensures var n := TrimSpace(v); f == n || f == Filler(n, x) || (Unmarked(f) && |f| > |n|)
  {
    var n := TrimSpace(v);
    var m := Filler(n, x);
    FillerIsSecret(n, x);
    FillerIsLong(n, x);
    hide Unmarked, TrimSpace, Filler, Needles, Variants, Source;
    NeedleSources([v, m], [], f);
    var w :| Source([v, m], [], w) && IsBytes(w) && f in Variants(w);
    PairSources(v, m, w);
    MarkedForms(w, f);
  }

  /** None of the needles but the run occurs in the text around the run. */
  lemma OnlyRunOccurs(n: string, x: string, y: string, f: string)
    requires Around(n, x, y) && (f == n || (Unmarked(f) && |f| > |n|))
    ensures !Contains(x + Filler(n, x) + y, f)
  {
    var s := x + Filler(n, x) + y;
    if f == n {
      NotInRun(n, x, y);
    } else {
      hide OccursAt;
      forall i: nat ensures !OccursAt(s, f, i) {
        if OccursAt(s, f, i) {
          RunIsMet(x, y, FillerChar(n, x), |n| - 1, f, i);
        }
      }
    }
  }

  lemma {:induction false} RedactLast(needles: seq<string>, m: string, s: string)
    requires m != "" && NonEmpty(needles + [m]) && Clean(needles, s)
    ensures Redact(needles + [m], s) == RedactOne(s, m)
    decreases |needles|
  {
    var all := needles + [m];
    if needles == [] {
      assert all[1..] == [];
    } else {
      assert all[0] == needles[0] && all[1..] == needles[1..] + [m];
      assert RedactOne(s, all[0]) == s;
      RedactLast(needles[1..], m, s);
    }
  }

  /** The run is the shortest needle, hence the last. */
  lemma RunIsLast(needles: seq<string>, m: string)
    requires Ordered(needles) && m in needles && forall f | f in needles && f != m :: |f| > |m|
    ensures needles == needles[..|needles| - 1] + [m] && m !in needles[..|needles| - 1]
  {
    var last := needles[|needles| - 1];
    assert last in needles;
    LexIsTotal(m, m);
    assert last == m by {
      var i :| 0 <= i < |needles| && needles[i] == m;
      assert i < |needles| - 1 ==> Precedes(m, last);
    }
    forall k | 0 <= k < |needles| - 1 ensures needles[k] != m {
      assert Precedes(needles[k], needles[|needles| - 1]);
    }
  }

  lemma PairHoldsRun(v: string, m: string)
    requires IsBytes(v) && IsBytes(m) && TrimSpace(m) == m && |m| >= MIN_SECRET
    ensures m in Needles([v, m], [])
  {
    hide TrimSpace, Variants, Needles, Source;
    PlainIsVariant(m);
    PairSources(v, m, m);
    NeedleSources([v, m], [], m);
  }

  /** All needles of a scanner but the last are absent from s, and the last, the run, is there. */
  lemma LastNeedleDecides(needles: seq<string>, m: string, s: string)
    requires Ordered(needles) && NonEmpty(needles) && m in needles && Contains(s, m)
    requires forall f | f in needles && f != m :: |f| > |m| && !Contains(s, f)
    ensures m != "" && Redact(needles, s) == ReplaceAll(s, m)
  {
    hide Ordered, Contains, ReplaceAll;
    RunIsLast(needles, m);
    var init := needles[..|needles| - 1];
    assert needles[|needles| - 1] == m;
    forall k | 0 <= k < |init| ensures !Contains(s, init[k]) {
      assert init[k] in needles && init[k] in init;
    }
    RedactLast(init, m, s);
  }

  lemma ScannerBringsBack(v: string, x: string, y: string) returns (needles: seq<string>)
    requires IsBytes(v) && IsBytes(TrimSpace(v)) && |TrimSpace(v)| > MIN_SECRET && !Unmarked(TrimSpace(v))
    requires Around(TrimSpace(v), x, y)
    ensures var n := TrimSpace(v); var m := Filler(n, x);
            ScannerFor(needles, [v, m], []) && NonEmpty(needles) && Contains(Redact(needles, x + m + y), n)
  {
    var n := TrimSpace(v);
    var m := Filler(n, x);
    FillerIsSecret(n, x);
    FillerIsLong(n, x);
    hide Filler, TrimSpace, Needles, Ordered, Contains, Around, Unmarked, Redact;
    PairHoldsRun(v, m);
    needles := OrderExists(Needles([v, m], []));
    ScannerNeedles(needles, [v, m], []);
    forall f | f in needles && f != m ensures |f| > |m| && !Contains(x + m + y, f) {
      NeedleOfPair(v, x, f);
      OnlyRunOccurs(n, x, y, f);
    }
    FillerWorks(n, x, y);
    LastNeedleDecides(needles, m, x + m + y);
    AroundContains(n, x, y);
  }

  lemma AroundContains(n: string, x: string, y: string)
    requires Around(n, x, y)
    ensures Contains(x + MARKER + y, n)
  {
  }

  /** Main result: for secrets of more than 16 bytes, every scanner with the secret
      removes it from every text exactly when it does not overlap the marker. */
  lemma SecretAlwaysRedactedIff(v: string)
    requires IsBytes(v) && |TrimSpace(v)| > MIN_SECRET
    ensures AlwaysRedacted(v) <==> !OverlapsMarker(TrimSpace(v))
  {
    hide Contains, OverlapsMarker, Redact, TrimSpace, Source, Variants, Ordered, Unmarked;
    TrimIsBytes(v);
    var n := TrimSpace(v);
    if OverlapsMarker(n) {
      OverlapIsMarked(n);
      var x, y := OverlapSplits(n);
      var needles := ScannerBringsBack(v, x, y);
      PairSources(v, Filler(n, x), v);
    } else {
      forall needles, values, extras, s |
        ScannerFor(needles, values, extras) && Source(values, extras, v) && NonEmpty(needles)
        ensures !Contains(Redact(needles, s), n)
      {
        ScannerHoldsSecret(needles, values, extras, v);
        PlainIsVariant(v);
        RedactRemoves(needles, s, n);
      }
    }
  }

  lemma OverlapIsMarked(n: string)
    requires OverlapsMarker(n)
    ensures !Unmarked(n)
  {
    OverlapHasBracket(n);
  }
}
