/** What the stderr scrubber lets through: everything but needles, however the stream is read. */
module ScrubberOutput {
  import opened Redaction
  import opened Scrubber

  /** The whole stream. */
  function Concat(chunks: seq<string>): string {
    if chunks == [] then "" else chunks[0] + Concat(chunks[1..])
  }

  // ----- a stream without needles -----

  lemma CleanPart(needles: seq<string>, a: string, b: string, c: string)
    requires Clean(needles, a + b + c)
    ensures Clean(needles, b)
  {
    forall k | 0 <= k < |needles| ensures !Contains(b, needles[k]) {
      if Contains(b, needles[k]) {
        PartContains(a, b, c, needles[k]);
      }
    }
  }

  lemma PartContains(a: string, b: string, c: string, n: string)
    requires Contains(b, n)
    ensures Contains(a + b + c, n)
  {
    var i :| 0 <= i <= |b| && OccursAt(b, n, i);
    assert (a + b + c)[|a| + i..|a| + i + |n|] == b[i..i + |n|];
    assert OccursAt(a + b + c, n, |a| + i);
  }

  lemma CleanFeed(needles: seq<string>, st: State, data: string, rest: string)
    requires NonEmpty(needles) && Clean(needles, st.written + (st.window + data) + rest)
    ensures var st' := Feed(needles, st, data); st'.written + st'.window == st.written + (st.window + data)
  {
    hide Clean, Redact;
    CleanPart(needles, st.written, st.window + data, rest);
    RedactKeepsClean(needles, st.window + data);
    assert data == "" ==> st.window + data == st.window;
  }

  lemma {:induction false} CleanFeedAll(needles: seq<string>, st: State, chunks: seq<string>)
    requires NonEmpty(needles) && Clean(needles, st.written + st.window + Concat(chunks))
    ensures var st' := FeedAll(needles, st, chunks);
            st'.written + st'.window == st.written + st.window + Concat(chunks)
    decreases |chunks|
  {
    hide Clean, Feed;
    if chunks == [] {
      assert st.written + st.window + "" == st.written + st.window;
    } else {
      var data, rest := chunks[0], Concat(chunks[1..]);
      assert st.written + st.window + (data + rest) == st.written + (st.window + data) + rest;
      CleanFeed(needles, st, data, rest);
      CleanFeedAll(needles, Feed(needles, st, data), chunks[1..]);
    }
  }

  /** Main result: a stream in which no needle occurs comes out as it is, whatever the
      needles and however it is cut into reads. */
  lemma CleanStreamPasses(needles: seq<string>, chunks: seq<string>)
    requires NonEmpty(needles) && Clean(needles, Concat(chunks))
    ensures Output(needles, chunks) == Concat(chunks)
  {
    hide Clean, FeedAll, Redact;
    assert "" + "" + Concat(chunks) == Concat(chunks);
    CleanFeedAll(needles, START, chunks);
    var st := FeedAll(needles, START, chunks);
    assert st.written + st.window + "" == Concat(chunks);
    CleanPart(needles, st.written, st.window, "");
    RedactKeepsClean(needles, st.window);
  }

  // ----- any stream -----

  lemma Assoc(a: string, b: string, c: string)
    ensures (a + b) + c == a + (b + c)
  {
  }

  /** One piece, before and after redaction. */
  function Before(p: Piece): string {
    match p case Keep(c) => [c] case Drop(n) => n
  }

  function After(p: Piece): string {
    match p case Keep(c) => [c] case Drop(_) => MARKER
  }

  lemma PiecesCons(p: Piece, ps: seq<Piece>)
    ensures Original([p] + ps) == Before(p) + Original(ps) && Redacted([p] + ps) == After(p) + Redacted(ps)
  {
    assert ([p] + ps)[1..] == ps;
  }

  lemma {:induction false} PiecesConcat(a: seq<Piece>, b: seq<Piece>)
    ensures Original(a + b) == Original(a) + Original(b) && Redacted(a + b) == Redacted(a) + Redacted(b)
    decreases |a|
  {
    if a == [] {
      assert a + b == b;
      assert "" + Original(b) == Original(b) && "" + Redacted(b) == Redacted(b);
    } else {
      PiecesConcat(a[1..], b);
      hide Original, Redacted, Before, After;
      PiecesCons(a[0], a[1..]);
      PiecesCons(a[0], a[1..] + b);
      assert [a[0]] + a[1..] == a && [a[0]] + (a[1..] + b) == a + b;
      Assoc(Before(a[0]), Original(a[1..]), Original(b));
      Assoc(After(a[0]), Redacted(a[1..]), Redacted(b));
    }
  }

  /** What is left of a marker. */
  function Rest(k: nat): string
    requires k <= |MARKER|
  {
    MARKER[k..]
  }

  lemma CutFront(frag: string, r: string, f: nat)
    requires f <= |frag|
    ensures (frag + r)[..f] == frag[..f] && (frag + r)[f..] == frag[f..] + r && frag[..f] + frag[f..] == frag
  {
  }

  lemma CutBack(frag: string, r: string, g: nat)
    requires g <= |r|
    ensures (frag + r)[..|frag| + g] == frag + r[..g] && (frag + r)[|frag| + g..] == r[g..]
  {
  }

  /** A needle does not begin in what is left of a marker. */
  lemma NoneInFragment(k: nat, tail: string, n: string, i: nat)
    requires Redactable(n) && k + i < |MARKER|
    ensures !OccursAt(MARKER[k..] + tail, n, i)
  {
    NoOccurrenceInMarker(tail, n, k + i);
    SliceShift(MARKER, tail, k, i, |n|);
  }

  lemma SliceShift(m: string, tail: string, k: nat, i: nat, n: nat)
    requires k <= |m|
    ensures i + n <= |m[k..] + tail| ==> (m[k..] + tail)[i..i + n] == (m + tail)[k + i..k + i + n]
  {
    assert m[k..] + tail == (m + tail)[k..];
  }

  lemma RedactOneSkipsFragment(k: nat, tail: string, n: string)
    requires Redactable(n) && k <= |MARKER|
    ensures RedactOne(MARKER[k..] + tail, n) == MARKER[k..] + RedactOne(tail, n)
  {
    var frag := MARKER[k..];
    hide Redactable, OccursAt, ReplaceAll;
    forall i | 0 <= i < |frag| ensures !OccursAt(frag + tail, n, i) {
      NoneInFragment(k, tail, n, i);
    }
    ReplaceSkips(frag, tail, n);
    FragmentContains(frag, tail, n);
  }

  lemma FragmentContains(frag: string, tail: string, n: string)
    requires forall i | 0 <= i < |frag| :: !OccursAt(frag + tail, n, i)
    ensures Contains(frag + tail, n) <==> Contains(tail, n)
  {
    if Contains(frag + tail, n) {
      var i :| 0 <= i <= |frag + tail| && OccursAt(frag + tail, n, i);
      OccursInTail(frag, tail, n, i);
    }
    if Contains(tail, n) {
      PartContains(frag, tail, "", n);
      assert frag + tail + "" == frag + tail;
    }
  }

  /** Redaction leaves alone what is left of a marker at the front. */
  lemma {:induction false} RedactSkipsFragment(needles: seq<string>, k: nat, tail: string)
    requires AllRedactable(needles) && NonEmpty(needles) && k <= |MARKER|
    ensures Redact(needles, MARKER[k..] + tail) == MARKER[k..] + Redact(needles, tail)
  {
    if needles != [] {
      hide Redactable, RedactOne;
      RedactOneSkipsFragment(k, tail, needles[0]);
      RedactSkipsFragment(needles[1..], k, RedactOne(tail, needles[0]));
    }
  }

  /** Cutting redacted text after g characters, perhaps inside a marker. */
  lemma {:induction false} CutPieces(qs: seq<Piece>, g: nat) returns (a: seq<Piece>, k: nat, b: seq<Piece>)
    requires g <= |Redacted(qs)|
    ensures k <= |MARKER| && a + b == qs
    ensures Redacted(a) == Redacted(qs)[..g] + Rest(k) && Redacted(qs)[g..] == Rest(k) + Redacted(b)
    decreases |qs|
  {
    NoPieces();
    if g == 0 {
      a, k, b := [], |MARKER|, qs;
      assert "" + "" == "" && "" + Redacted(qs) == Redacted(qs)[0..];
    } else {
      var head, rest := After(qs[0]), Redacted(qs[1..]);
      CutNonEmpty(qs);
      PiecesCons(qs[0], qs[1..]);
      PiecesCons(qs[0], []);
      assert [qs[0]] + qs[1..] == qs && [qs[0]] + [] == [qs[0]];
      hide Redacted, Original, Before;
      if g < |head| {
        InsideMarker(qs[0]);
        a, k, b := [qs[0]], g, qs[1..];
        CutFront(head, rest, g);
        assert head + "" == head;
      } else {
        hide After, Rest;
        a, k, b := CutPieces(qs[1..], g - |head|);
        CutLater(head, rest, g, Redacted(a), Redacted(b), Rest(k));
        PiecesCons(qs[0], a);
        a := [qs[0]] + a;
      }
    }
  }

  lemma NoPieces()
    ensures Original([]) == "" && Redacted([]) == ""
  {
  }

  lemma CutLater(head: string, rest: string, g: nat, done: string, left: string, frag: string)
    requires |head| <= g <= |head + rest| && done == rest[..g - |head|] + frag && rest[g - |head|..] == frag + left
    ensures head + done == (head + rest)[..g] + frag && (head + rest)[g..] == frag + left
  {
    CutBack(head, rest, g - |head|);
    Assoc(head, rest[..g - |head|], frag);
  }

  lemma CutNonEmpty(qs: seq<Piece>)
    requires |Redacted(qs)| > 0
    ensures qs != []
  {
  }

  lemma InsideMarker(p: Piece)
    requires |After(p)| > 1
    ensures After(p) == MARKER
  {
  }

  /** What has been read, in pieces: ps for what is written, with the rest of a marker
      that the window begins with, and qs for what follows in the window. */
  ghost predicate Explains(needles: seq<string>, st: State, input: string, ps: seq<Piece>, k: nat, qs: seq<Piece>) {
    && k <= |MARKER| && DropsOnly(ps, needles) && DropsOnly(qs, needles)
    && st.written + Rest(k) == Redacted(ps) && st.window == Rest(k) + Redacted(qs)
    && Original(ps) + Original(qs) == input
  }

  /** The redacted window, in pieces. */
  lemma WindowPieces(needles: seq<string>, k: nat, qs: seq<Piece>, data: string) returns (qs': seq<Piece>)
    requires AllRedactable(needles) && NonEmpty(needles) && k <= |MARKER| && DropsOnly(qs, needles)
    ensures DropsOnly(qs', needles) && Original(qs') == Original(qs) + data
    ensures Redact(needles, Rest(k) + Redacted(qs) + data) == Rest(k) + Redacted(qs')
  {
    var kept := NothingDropped(data);
    hide AllRedactable, NonEmpty, Redact, Original, Redacted;
    PiecesConcat(qs, kept);
    qs' := RedactPieces(needles, needles, qs + kept);
    RedactSkipsFragment(needles, k, Redacted(qs) + data);
    Assoc(Rest(k), Redacted(qs), data);
  }

  lemma FlushWithin(st: State, k: nat, f: nat, r: string)
    requires k <= |MARKER| && f <= |Rest(k)| && st.window == Rest(k) + r
    ensures k + f <= |MARKER| && Rest(k + f) == Rest(k)[f..]
    ensures (st.written + st.window[..f]) + Rest(k + f) == st.written + Rest(k) && st.window[f..] == Rest(k + f) + r
  {
    CutFront(Rest(k), r, f);
    Assoc(st.written, Rest(k)[..f], Rest(k + f));
  }

  lemma FlushBeyond(st: State, frag: string, r: string, g: nat, rest: string, done: string, left: string)
    requires g <= |r| && st.window == frag + r && done == r[..g] + rest && r[g..] == rest + left
    ensures (st.written + st.window[..|frag| + g]) + rest == (st.written + frag) + done
    ensures st.window[|frag| + g..] == rest + left
  {
    CutBack(frag, r, g);
    Assoc(st.written, frag, r[..g]);
    Assoc(st.written + frag, r[..g], rest);
  }

  /** Moving the first f characters of the window to the output. */
  lemma FlushExplained(needles: seq<string>, st: State, input: string, ps: seq<Piece>, k: nat, qs: seq<Piece>, f: nat)
      returns (ps': seq<Piece>, k': nat, qs': seq<Piece>)
    requires Explains(needles, st, input, ps, k, qs) && f <= |st.window|
    ensures Explains(needles, State(st.written + st.window[..f], st.window[f..]), input, ps', k', qs')
  {
    hide Original, Redacted, Rest;
    var frag, r := Rest(k), Redacted(qs);
    if f <= |frag| {
      FlushWithin(st, k, f, r);
      ps', k', qs' := ps, k + f, qs;
    } else {
      var a, k2, b := CutPieces(qs, f - |frag|);
      FlushBeyond(st, frag, r, f - |frag|, Rest(k2), Redacted(a), Redacted(b));
      ps', k', qs' := ps + a, k2, b;
      PiecesConcat(ps, a);
      PiecesConcat(a, b);
      Assoc(Original(ps), Original(a), Original(b));
      DropsSplit(a, b, needles);
      DropsJoin(ps, a, needles);
    }
  }

  lemma DropsSplit(a: seq<Piece>, b: seq<Piece>, needles: seq<string>)
    requires DropsOnly(a + b, needles)
    ensures DropsOnly(a, needles) && DropsOnly(b, needles)
  {
    assert forall i | 0 <= i < |b| :: b[i] == (a + b)[|a| + i];
    assert forall i | 0 <= i < |a| :: a[i] == (a + b)[i];
  }

  lemma DropsJoin(a: seq<Piece>, b: seq<Piece>, needles: seq<string>)
    requires DropsOnly(a, needles) && DropsOnly(b, needles)
    ensures DropsOnly(a + b, needles)
  {
  }

  /** The window after the new data has been redacted into it. */
  lemma RedactExplained(needles: seq<string>, st: State, data: string, input: string, ps: seq<Piece>, k: nat, qs: seq<Piece>)
      returns (more: seq<Piece>)
    requires AllRedactable(needles) && NonEmpty(needles) && Explains(needles, st, input, ps, k, qs)
    ensures Explains(needles, State(st.written, Redact(needles, st.window + data)), input + data, ps, k, more)
  {
    hide AllRedactable, NonEmpty, Redact, Original, Redacted, Rest, DropsOnly;
    more := WindowPieces(needles, k, qs, data);
    Assoc(Original(ps), Original(qs), data);
  }

  lemma FeedExplained(needles: seq<string>, st: State, data: string, input: string, ps: seq<Piece>, k: nat, qs: seq<Piece>)
      returns (ps': seq<Piece>, k': nat, qs': seq<Piece>)
    requires AllRedactable(needles) && NonEmpty(needles) && Explains(needles, st, input, ps, k, qs)
    ensures Explains(needles, Feed(needles, st, data), input + data, ps', k', qs')
  {
    hide AllRedactable, NonEmpty, Redact, Explains;
    if data == "" {
      ps', k', qs' := ps, k, qs;
      assert input + data == input;
    } else {
      var w := Redact(needles, st.window + data);
      var more := RedactExplained(needles, st, data, input, ps, k, qs);
      ps', k', qs' := ps, k, more;
      if |w| > WINDOW {
        ps', k', qs' := FlushExplained(needles, State(st.written, w), input + data, ps, k, more, |w| - RETAINED);
      }
    }
  }

  lemma {:induction false} FeedAllExplained(needles: seq<string>, st: State, chunks: seq<string>, input: string,
                                            ps: seq<Piece>, k: nat, qs: seq<Piece>)
      returns (ps': seq<Piece>, k': nat, qs': seq<Piece>)
    requires AllRedactable(needles) && NonEmpty(needles) && Explains(needles, st, input, ps, k, qs)
    ensures Explains(needles, FeedAll(needles, st, chunks), input + Concat(chunks), ps', k', qs')
    decreases |chunks|
  {
    hide AllRedactable, NonEmpty, Explains, Feed;
    if chunks == [] {
      ps', k', qs' := ps, k, qs;
      assert input + "" == input;
    } else {
      ps', k', qs' := FeedExplained(needles, st, chunks[0], input, ps, k, qs);
      assert input + chunks[0] + Concat(chunks[1..]) == input + (chunks[0] + Concat(chunks[1..]));
      ps', k', qs' := FeedAllExplained(needles, Feed(needles, st, chunks[0]), chunks[1..], input + chunks[0], ps', k', qs');
    }
  }

  /** Main result: for every stream and every way of reading it, the output is the stream
      with some disjoint needle occurrences turned into markers; every other character
      comes out, in order. */
  lemma ScrubberOnlyRemovesNeedles(needles: seq<string>, chunks: seq<string>)
    requires AllRedactable(needles)
    ensures NonEmpty(needles)
    ensures exists ps :: Original(ps) == Concat(chunks) && Redacted(ps) == Output(needles, chunks) && DropsOnly(ps, needles)
  {
    RedactableIsNotEmpty(needles);
    StartExplained(needles);
    hide AllRedactable, NonEmpty, Redact, FeedAll, Explains, Original, Redacted, DropsOnly;
    var ps, k, qs := FeedAllExplained(needles, START, chunks, "", [], |MARKER|, []);
    var st := FeedAll(needles, START, chunks);
    assert "" + Concat(chunks) == Concat(chunks) && st.window + "" == st.window && Concat(chunks) + "" == Concat(chunks);
    var last := RedactExplained(needles, st, "", Concat(chunks), ps, k, qs);
    AllExplained(needles, State(st.written, Redact(needles, st.window)), Concat(chunks), ps, k, last);
  }

  lemma StartExplained(needles: seq<string>)
    ensures Explains(needles, START, "", [], |MARKER|, [])
  {
  }

  lemma AllExplained(needles: seq<string>, st: State, input: string, ps: seq<Piece>, k: nat, qs: seq<Piece>)
    requires Explains(needles, st, input, ps, k, qs)
    ensures Original(ps + qs) == input && Redacted(ps + qs) == st.written + st.window && DropsOnly(ps + qs, needles)
  {
    hide Original, Redacted, Rest;
    PiecesConcat(ps, qs);
    Assoc(st.written, Rest(k), Redacted(qs));
    DropsJoin(ps, qs, needles);
  }

  // ----- the reads and the memory -----

  /** The reads up to the first error count, the data that comes with it included. */
  lemma {:induction false} ReadsUpToError(results: seq<Read>, n: nat)
    requires n < |results| && (forall i | 0 <= i < n :: !results[i].err) && (results[n].err || n == |results| - 1)
    ensures Chunks(results) == seq(n + 1, i requires 0 <= i < n + 1 => results[i].data)
    decreases n
  {
    if n == 0 {
      if !results[0].err {
        assert results[1..] == [];
      }
    } else {
      ReadsUpToError(results[1..], n - 1);
    }
  }

  /** No more than 32768 bytes are held back after a read. */
  lemma {:induction false} WindowIsBounded(needles: seq<string>, st: State, chunks: seq<string>)
    requires NonEmpty(needles) && |st.window| <= 32768
    ensures |FeedAll(needles, st, chunks).window| <= 32768
    decreases |chunks|
  {
    hide Redact;
    if chunks != [] {
      WindowIsBounded(needles, Feed(needles, st, chunks[0]), chunks[1..]);
    }
  }
}
