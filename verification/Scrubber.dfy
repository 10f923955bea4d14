/** The sliding-window scrubber over the child's stderr (internal/authz/pin.go).

    Whatever is read is appended to a window, the window is redacted, and all but
    its last half is written once it is full. */
module Scrubber {
  import opened Redaction

  const WINDOW: nat := 32768
  const RETAINED: nat := WINDOW / 2

  /** What has been written so far, and the bytes still held back. */
  datatype State = State(written: string, window: string)

  const START := State("", "")

  /** One r.Read that returned data. */
  function Feed(needles: seq<string>, st: State, data: string): State
    requires NonEmpty(needles)
  {
    if data == "" then st else
      var window := Redact(needles, st.window + data);
      if |window| > WINDOW then
        var flush := |window| - RETAINED;
        State(st.written + window[..flush], window[flush..])
      else
        State(st.written, window)
  }

  function FeedAll(needles: seq<string>, st: State, chunks: seq<string>): State
    requires NonEmpty(needles)
    decreases |chunks|
  {
    if chunks == [] then st else FeedAll(needles, Feed(needles, st, chunks[0]), chunks[1..])
  }

  /** Everything written once the stream has ended. */
  function Output(needles: seq<string>, chunks: seq<string>): string
    requires NonEmpty(needles)
  {
    var st := FeedAll(needles, START, chunks);
    st.written + Redact(needles, st.window)
  }

  /** The result of one Read call: some data, and whether an error came with it. */
  datatype Read = Read(data: string, err: bool)

  function Chunks(results: seq<Read>): seq<string> {
    if results == [] then []
    else if results[0].err then [results[0].data]
    else [results[0].data] + Chunks(results[1..])
  }

  /** The handling of the bytes that one read returned. */
  method Take(needles: seq<string>, written: string, window: string, data: string) returns (written': string, window': string)
    requires NonEmpty(needles)
    ensures State(written', window') == Feed(needles, State(written, window), data)
  {
    hide Redact;
    written', window' := written, window;
    if data != "" {
      window' := RedactString(needles, window + data);
      if |window'| > WINDOW {
        var flush := |window'| - RETAINED;
        written' := written + window'[..flush];
        window' := window'[flush..];
      }
    }
  }

  /** What is still to be fed after the first i reads. */
  function Unread(results: seq<Read>, i: nat, done: bool): seq<string>
    requires i <= |results|
  {
    if done then [] else Chunks(results[i..])
  }

  lemma UnreadStep(needles: seq<string>, st: State, results: seq<Read>, i: nat)
    requires NonEmpty(needles) && i < |results|
    ensures FeedAll(needles, st, Unread(results, i, false))
         == FeedAll(needles, Feed(needles, st, results[i].data), Unread(results, i + 1, results[i].err))
  {
    hide Feed;
    var rest := Unread(results, i + 1, results[i].err);
    assert Unread(results, i, false) == [results[i].data] + rest by {
      assert results[i..][1..] == results[i + 1..];
    }
    assert ([results[i].data] + rest)[1..] == rest;
  }

  lemma UnreadAll(results: seq<Read>)
    ensures Unread(results, 0, false) == Chunks(results)
  {
    assert results[0..] == results;
  }

  lemma UnreadEnds(needles: seq<string>, st: State, results: seq<Read>, i: nat, done: bool)
    requires NonEmpty(needles) && (i == |results| || (done && i <= |results|))
    ensures FeedAll(needles, st, Unread(results, i, done)) == st
  {
  }

  /** drainAndRedactChildStderr: reads until an error (or the end of the reads given here). */
  method DrainAndRedactChildStderr(needles: seq<string>, results: seq<Read>) returns (written: string)
    requires NonEmpty(needles)
    ensures written == Output(needles, Chunks(results))
  {
    hide Feed, FeedAll, Redact, Chunks, Unread;
    written := "";
    var window := "";
    var done := false;
    var i := 0;
    UnreadAll(results);
    while i < |results| && !done
      invariant i <= |results|
      invariant FeedAll(needles, State(written, window), Unread(results, i, done))
             == FeedAll(needles, START, Chunks(results))
    {
      var r := results[i];
      UnreadStep(needles, State(written, window), results, i);
      written, window := Take(needles, written, window, r.data);
      done := r.err;
      i := i + 1;
    }
    UnreadEnds(needles, State(written, window), results, i, done);
    var last := RedactString(needles, window);
    written := written + last;
  }

  // ----- soundness -----

  lemma {:induction false} RedactPrefixReflects(needles: seq<string>, s: string, p: string)
    requires NonEmpty(needles) && Separate(p) && p <= Redact(needles, s)
    ensures p <= s
  {
    if needles != [] {
      RedactPrefixReflects(needles[1..], RedactOne(s, needles[0]), p);
      if Contains(s, needles[0]) {
        PrefixReflects(s, needles[0], p);
      }
    }
  }

  /** A replacement leaves a marker. */
  lemma {:induction false} ReplaceWritesMarker(s: string, n: string)
    requires n != "" && Contains(s, n)
    ensures Contains(ReplaceAll(s, n), MARKER)
  {
    var out := ReplaceAll(s, n);
    if OccursAt(s, n, 0) {
      assert out[0..|MARKER|] == MARKER;
      assert OccursAt(out, MARKER, 0);
    } else {
      var i :| 0 <= i <= |s| && OccursAt(s, n, i);
      assert s[1..][i - 1..i - 1 + |n|] == s[i..i + |n|];
      assert OccursAt(s[1..], n, i - 1);
      ReplaceWritesMarker(s[1..], n);
      var j :| 0 <= j && OccursAt(out[1..], MARKER, j);
      OccursInSuffix(out, MARKER, 1, j);
    }
  }

  /** A marker already in the text, or a replacement, leaves a marker. */
  lemma {:induction false} RedactKeepsMarker(needles: seq<string>, s: string)
    requires NonEmpty(needles)
    requires Contains(s, MARKER) || Redact(needles, s) != s
    ensures Contains(Redact(needles, s), MARKER)
  {
    hide Contains, ReplaceAll;
    if needles != [] {
      if Contains(s, needles[0]) {
        ReplaceWritesMarker(s, needles[0]);
      }
      RedactKeepsMarker(needles[1..], RedactOne(s, needles[0]));
    }
  }

  /** What holds after every read, for a needle n. */
  ghost predicate Safe(st: State, n: string) {
    && !Contains(st.written + st.window, n)
    && (st.written == "" || |st.window| >= RETAINED || Contains(st.window, MARKER))
  }

  lemma MarkerCarriesOver(w: string, data: string, p: string)
    requires p <= w + data && |p| > |w| && Contains(w, MARKER)
    ensures Contains(p, MARKER)
  {
    var k :| 0 <= k <= |w| && OccursAt(w, MARKER, k);
    assert p[k..k + |MARKER|] == (w + data)[k..k + |MARKER|] == w[k..k + |MARKER|];
    assert OccursAt(p, MARKER, k);
  }

  /** An occurrence across the border is a suffix of head and a prefix of tail. */
  lemma StraddleSplits(head: string, tail: string, n: string, i: nat)
    requires i < |head| < i + |n|
    ensures OccursAt(head + tail, n, i) <==>
            |head| + |n[|head| - i..]| <= |head| + |tail| && n[..|head| - i] == head[i..] && n[|head| - i..] <= tail
  {
    var c := |head| - i;
    var all := head + tail;
    if i + |n| <= |all| {
      assert all[i..i + |n|] == head[i..] + tail[..|n| - c];
      assert n == n[..c] + n[c..];
      assert (head[i..] + tail[..|n| - c])[..c] == head[i..] && (head[i..] + tail[..|n| - c])[c..] == tail[..|n| - c];
    }
  }

  /** A needle cannot straddle what was written and the freshly redacted window:
      its part inside the window was already there before the new data came. */
  lemma NoStraddle(needles: seq<string>, st: State, data: string, n: string, i: nat)
    requires NonEmpty(needles) && Redactable(n) && |n| <= RETAINED + 1 && Safe(st, n)
    requires i < |st.written| < i + |n|
    ensures !OccursAt(st.written + Redact(needles, st.window + data), n, i)
  {
    hide Redact, OccursAt;
    var w, w' := st.window, Redact(needles, st.window + data);
    StraddleSplits(st.written, w', n, i);
    StraddleSplits(st.written, w, n, i);
    NotAt(st.written + w, n, i);
    var p := n[|st.written| - i..];
    SuffixIsSeparate(n, |st.written| - i);
    if p <= w' {
      RedactPrefixReflects(needles, w + data, p);
      if |p| > |w| {
        MarkerCarriesOver(w, data, p);
      }
      assert |p| <= |w| ==> p <= w;
    }
  }

  lemma NotAt(s: string, n: string, i: nat)
    requires !Contains(s, n)
    ensures !OccursAt(s, n, i)
  {
  }

  /** An occurrence in front does not depend on what follows. */
  lemma OccursInFront(head: string, a: string, b: string, n: string, i: nat)
    requires i + |n| <= |head|
    ensures OccursAt(head + a, n, i) <==> OccursAt(head + b, n, i)
  {
    assert (head + a)[i..i + |n|] == head[i..i + |n|] == (head + b)[i..i + |n|];
  }

  lemma WindowKeepsGuard(needles: seq<string>, w: string, data: string)
    requires NonEmpty(needles) && (|w| >= RETAINED || Contains(w, MARKER))
    ensures |Redact(needles, w + data)| >= RETAINED || Contains(Redact(needles, w + data), MARKER)
  {
    if Contains(w, MARKER) {
      var i :| 0 <= i <= |w| && OccursAt(w, MARKER, i);
      OccursInFront(w, data, "", MARKER, i);
      assert w + "" == w;
      assert OccursAt(w + data, MARKER, i);
    }
    hide Redact;
    if Contains(w + data, MARKER) || Redact(needles, w + data) != w + data {
      RedactKeepsMarker(needles, w + data);
    }
  }

  lemma RedactedStaysSafe(needles: seq<string>, st: State, data: string, n: string)
    requires NonEmpty(needles) && n in needles && Redactable(n) && |n| <= RETAINED + 1 && Safe(st, n)
    ensures Safe(State(st.written, Redact(needles, st.window + data)), n)
  {
    var w' := Redact(needles, st.window + data);
    var all := st.written + w';
    RedactRemoves(needles, st.window + data, n);
    if st.written != "" {
      WindowKeepsGuard(needles, st.window, data);
    }
    forall i: int | 0 <= i ensures !OccursAt(all, n, i) {
      if i < |st.written| < i + |n| {
        NoStraddle(needles, st, data, n, i);
      } else if i + |n| <= |st.written| {
        OccursInFront(st.written, w', st.window, n, i);
      } else if OccursAt(all, n, i) {
        OccursInTail(st.written, w', n, i);
      }
    }
  }

  lemma FeedStaysSafe(needles: seq<string>, st: State, data: string, n: string)
    requires NonEmpty(needles) && n in needles && Redactable(n) && |n| <= RETAINED + 1 && Safe(st, n)
    ensures Safe(Feed(needles, st, data), n)
  {
    hide Redact, Redactable, Contains;
    if data != "" {
      RedactedStaysSafe(needles, st, data, n);
      var next, w := Feed(needles, st, data), Redact(needles, st.window + data);
      assert next.written + next.window == st.written + w;
    }
  }

  lemma {:induction false} FeedAllStaysSafe(needles: seq<string>, st: State, chunks: seq<string>, n: string)
    requires NonEmpty(needles) && n in needles && Redactable(n) && |n| <= RETAINED + 1 && Safe(st, n)
    ensures Safe(FeedAll(needles, st, chunks), n)
    decreases |chunks|
  {
    if chunks != [] {
      FeedStaysSafe(needles, st, chunks[0], n);
      FeedAllStaysSafe(needles, Feed(needles, st, chunks[0]), chunks[1..], n);
    }
  }

  /** Whatever the stream and however it is cut into reads, a redactable needle of at
      most RETAINED + 1 bytes never appears in the output, whatever the others are. */
  lemma ShortNeedleNeverWritten(needles: seq<string>, chunks: seq<string>, n: string)
    requires NonEmpty(needles) && n in needles && Redactable(n) && |n| <= 16385
    ensures !Contains(Output(needles, chunks), n)
  {
    assert Safe(START, n) by {
      forall i ensures !OccursAt("" + "", n, i) {}
    }
    FeedAllStaysSafe(needles, START, chunks, n);
    var st := FeedAll(needles, START, chunks);
    RedactedStaysSafe(needles, st, "", n);
    assert st.window + "" == st.window;
  }

  // ----- exactness: where the window is too short -----

  /** Every needle contains a redactable one that fits the retained half-window plus one byte. */
  ghost predicate ShortFactors(needles: seq<string>) {
    forall k | 0 <= k < |needles| :: HasShortFactor(needles, needles[k])
  }

  ghost predicate HasShortFactor(needles: seq<string>, m: string) {
    exists n :: n in needles && Redactable(n) && |n| <= RETAINED + 1 && Contains(m, n)
  }

  lemma ContainsTransitive(s: string, m: string, n: string)
    requires Contains(s, m) && Contains(m, n)
    ensures Contains(s, n)
  {
    var i :| 0 <= i <= |s| && OccursAt(s, m, i);
    var j :| 0 <= j <= |m| && OccursAt(m, n, j);
    var a, b := s[i + j..i + j + |n|], m[j..j + |n|];
    assert forall k | 0 <= k < |n| :: a[k] == s[i..i + |m|][j + k] == b[k];
    assert a == b;
    assert OccursAt(s, n, i + j);
  }

  lemma ContainsShrinks(s: string, n: string)
    requires Contains(s, n)
    ensures |n| < |s| || n == s
  {
  }

  /** Among the needles inside m there is one with no other needle inside it. */
  lemma {:induction false} InnermostNeedle(needles: seq<string>, m: string) returns (inner: string)
    requires m in needles
    ensures inner in needles && Contains(m, inner)
    ensures forall n :: n in needles && Contains(inner, n) ==> n == inner
    decreases |m|
  {
    assert OccursAt(m, m, 0);
    if n :| n in needles && Contains(m, n) && n != m {
      ContainsShrinks(m, n);
      inner := InnermostNeedle(needles, n);
      ContainsTransitive(m, n, inner);
    } else {
      inner := m;
    }
  }

  function Padding(): string {
    seq(RETAINED, _ => ']')
  }

  /** The stream byte by byte. */
  function Singles(s: string): seq<string> {
    seq(|s|, i requires 0 <= i < |s| => [s[i]])
  }

  /** The only needle in the padding followed by m is m itself, at the very end. */
  lemma NeedlesInStream(needles: seq<string>, m: string, n: string, i: nat)
    requires n in needles && Redactable(n) && OccursAt(Padding() + m, n, i)
    requires forall n :: n in needles && Contains(m, n) ==> n == m
    ensures n == m && i == RETAINED
  {
    var s := Padding() + m;
    assert n[0] != ']' by {
      assert !(MARKER[9..] <= n);
    }
    assert i >= RETAINED by {
      assert forall k | 0 <= k < RETAINED :: s[k] == ']';
      assert s[i] == s[i..i + |n|][0] == n[0];
    }
    assert s[i..i + |n|] == m[i - RETAINED..i - RETAINED + |n|];
    assert OccursAt(m, n, i - RETAINED);
  }

  /** The scrubber's state after the first t bytes of that stream. */
  ghost predicate Quiet(m: string, st: State, t: nat) {
    var s := Padding() + m;
    && t <= |s|
    && st.written + st.window == s[..t]
    && |st.window| <= WINDOW
    && (st.written == "" || |st.written| > RETAINED)
  }

  /** A needle inside the window is m, where m stands in the stream. */
  lemma WindowOccurrence(needles: seq<string>, m: string, written: string, w: string, t: nat, n: string, j: nat)
    requires n in needles && Redactable(n) && OccursAt(w, n, j)
    requires forall n :: n in needles && Contains(m, n) ==> n == m
    requires t <= RETAINED + |m| && written + w == (Padding() + m)[..t]
    ensures n == m && |written| + j == RETAINED && j + |m| <= |w|
  {
    var s := Padding() + m;
    var i := |written| + j;
    assert s[i..i + |n|] == s[..t][i..i + |n|] == w[j..j + |n|];
    assert OccursAt(s, n, i);
    hide OccursAt;
    NeedlesInStream(needles, m, n, i);
  }

  /** No needle is ever complete inside the window. */
  lemma WindowStaysClean(needles: seq<string>, m: string, written: string, w: string, t: nat)
    requires AllRedactable(needles) && |m| > RETAINED + 1
    requires forall n :: n in needles && Contains(m, n) ==> n == m
    requires t <= RETAINED + |m| && written + w == (Padding() + m)[..t]
    requires |w| <= WINDOW + 1 && (written == "" || |written| > RETAINED)
    ensures Redact(needles, w) == w
  {
    hide Redact, OccursAt, Padding;
    forall k | 0 <= k < |needles| ensures !Contains(w, needles[k]) {
      if Contains(w, needles[k]) {
        var j :| 0 <= j <= |w| && OccursAt(w, needles[k], j);
        WindowOccurrence(needles, m, written, w, t, needles[k], j);
        assert false;
      }
    }
    RedactIsIdentityIffClean(needles, w);
  }

  lemma {:induction false} StreamPassesThrough(needles: seq<string>, m: string, st: State, t: nat)
    requires AllRedactable(needles) && |m| > RETAINED + 1
    requires forall n :: n in needles && Contains(m, n) ==> n == m
    requires Quiet(m, st, t)
    ensures Quiet(m, FeedAll(needles, st, Singles(Padding() + m)[t..]), RETAINED + |m|)
    decreases RETAINED + |m| - t
  {
    var s := Padding() + m;
    var chunks := Singles(s)[t..];
    if t < |s| {
      hide Quiet, Feed, Redactable;
      assert chunks[0] == [s[t]] && chunks[1..] == Singles(s)[t + 1..];
      ByteStaysQuiet(needles, m, st, t);
      StreamPassesThrough(needles, m, Feed(needles, st, chunks[0]), t + 1);
    }
  }

  lemma ByteStaysQuiet(needles: seq<string>, m: string, st: State, t: nat)
    requires AllRedactable(needles) && |m| > RETAINED + 1
    requires forall n :: n in needles && Contains(m, n) ==> n == m
    requires Quiet(m, st, t) && t < RETAINED + |m|
    ensures Quiet(m, Feed(needles, st, [(Padding() + m)[t]]), t + 1)
  {
    hide Redact;
    var s := Padding() + m;
    var w := st.window + [s[t]];
    assert st.written + w == s[..t + 1];
    WindowStaysClean(needles, m, st.written, w, t + 1);
    var next := Feed(needles, st, [s[t]]);
    assert next.written + next.window == st.written + w;
  }

  lemma LongNeedleLeaks(needles: seq<string>, m: string)
    requires AllRedactable(needles) && m in needles && |m| > RETAINED + 1
    requires forall n :: n in needles && Contains(m, n) ==> n == m
    ensures Contains(Output(needles, Singles(Padding() + m)), m)
  {
    var s := Padding() + m;
    var chunks := Singles(s);
    assert chunks[0..] == chunks && s[..0] == "";
    StreamPassesThrough(needles, m, START, 0);
    var st := FeedAll(needles, START, chunks);
    WindowStaysClean(needles, m, st.written, st.window, |s|);
    assert s[..|s|] == s;
    assert OccursAt(s, m, RETAINED);
  }

  /** A needle that contains a short redactable one is never written either. */
  lemma ShortFactorNeverWritten(needles: seq<string>, chunks: seq<string>, m: string)
    requires NonEmpty(needles) && HasShortFactor(needles, m)
    ensures !Contains(Output(needles, chunks), m)
  {
    var n :| n in needles && Redactable(n) && |n| <= RETAINED + 1 && Contains(m, n);
    hide Redactable, Contains, Output;
    ShortNeedleNeverWritten(needles, chunks, n);
    if Contains(Output(needles, chunks), m) {
      ContainsTransitive(Output(needles, chunks), m, n);
    }
  }

  /** Exactly when the scrubber is safe for every stream and every way of reading it. */
  lemma ScrubberSafeIff(needles: seq<string>)
    requires AllRedactable(needles)
    ensures (forall chunks :: Clean(needles, Output(needles, chunks))) <==> ShortFactors(needles)
  {
    RedactableIsNotEmpty(needles);
    if ShortFactors(needles) {
      forall chunks, k | 0 <= k < |needles| ensures !Contains(Output(needles, chunks), needles[k]) {
        ShortFactorNeverWritten(needles, chunks, needles[k]);
      }
    } else {
      hide Redactable, Contains, Output;
      var k :| 0 <= k < |needles| && !HasShortFactor(needles, needles[k]);
      var inner := InnermostNeedle(needles, needles[k]);
      LongNeedleLeaks(needles, inner);
      var j :| 0 <= j < |needles| && needles[j] == inner;
      assert !Clean(needles, Output(needles, Singles(Padding() + inner)));
    }
  }
}
