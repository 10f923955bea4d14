/** Files of newline-terminated lines, one record each (internal/authz/statedb.go). */
module Framing {
  datatype Option<T> = None | Some(value: T)

  /** How records become lines: format is the serialiser without the newline,
      parse the verifying parser of one line, and fits says which records the
      serialiser is meant for. */
  datatype Codec<!R> = Codec(format: R -> string, parse: string -> Option<R>, fits: R -> bool)

  predicate OneLine(s: string) {
    forall k | 0 <= k < |s| :: s[k] != '\n'
  }

  ghost predicate FormatOk<R(!new)>(c: Codec<R>) {
    forall r :: c.fits(r) ==> OneLine(c.format(r)) && c.parse(c.format(r)) == Some(r)
  }

  /** A line that parses is the canonical form of the record it stands for. */
  ghost predicate ParseOk<R(!new)>(c: Codec<R>) {
    forall l :: c.parse(l).Some? ==> c.fits(c.parse(l).value) && c.format(c.parse(l).value) == l
  }

  ghost predicate CodecOk<R(!new)>(c: Codec<R>) {
    FormatOk(c) && ParseOk(c)
  }

  /** The lines of a file whose records are recs. */
  function Frame<R>(c: Codec<R>, recs: seq<R>): string {
    if recs == [] then "" else Frame(c, recs[..|recs| - 1]) + c.format(recs[|recs| - 1]) + "\n"
  }

  ghost predicate AllFit<R>(c: Codec<R>, recs: seq<R>) {
    forall k | 0 <= k < |recs| :: c.fits(recs[k])
  }

  // ----- splitting at newlines -----

  /** Where the first newline is, or |s|. */
  function LineEnd(s: string): (k: nat)
    ensures k <= |s| && OneLine(s[..k]) && (k < |s| ==> s[k] == '\n')
  {
    if s == "" || s[0] == '\n' then 0
    else
      var k := LineEnd(s[1..]);
      assert s[..k + 1] == [s[0]] + s[1..][..k];
      k + 1
  }

  /** bytes.Split(s, "\n") */
  function Split(s: string): (lines: seq<string>)
    ensures lines != []
    decreases |s|
  {
    var k := LineEnd(s);
    if k == |s| then [s] else [s[..k]] + Split(s[k + 1..])
  }

  lemma {:induction false} LineEndOf(line: string, rest: string)
    requires OneLine(line)
    ensures LineEnd(line + "\n" + rest) == |line| && LineEnd(line) == |line|
  {
    if line != "" {
      assert (line + "\n" + rest)[1..] == line[1..] + "\n" + rest;
      LineEndOf(line[1..], rest);
    }
  }

  lemma SplitCons(line: string, rest: string)
    requires OneLine(line)
    ensures Split(line + "\n" + rest) == [line] + Split(rest)
    ensures Split(line) == [line]
  {
    var s := line + "\n" + rest;
    LineEndOf(line, rest);
    assert s[..|line|] == line && s[|line| + 1..] == rest;
  }

  /** Splitting a text at a newline splits its lines. */
  lemma {:induction false} SplitConcat(a: string, b: string)
    ensures Split(a + "\n" + b) == Split(a) + Split(b)
    decreases |a|
  {
    var k := LineEnd(a);
    if k == |a| {
      SplitCons(a, b);
    } else {
      var rest := a[k + 1..];
      assert a == a[..k] + "\n" + rest;
      assert a + "\n" + b == a[..k] + "\n" + (rest + "\n" + b);
      SplitCons(a[..k], rest + "\n" + b);
      SplitConcat(rest, b);
    }
  }

  lemma {:induction false} SplitLinesAreSingle(s: string)
    ensures forall k | 0 <= k < |Split(s)| :: OneLine(Split(s)[k])
    decreases |s|
  {
    var k := LineEnd(s);
    if k == |s| {
      assert s[..k] == s;
    } else {
      SplitLinesAreSingle(s[k + 1..]);
    }
  }

  /** Lines joined with a newline after each. */
  function Join(lines: seq<string>): string {
    if lines == [] then "" else lines[0] + "\n" + Join(lines[1..])
  }

  lemma JoinCons(line: string, lines: seq<string>)
    ensures Join([line] + lines) == line + "\n" + Join(lines)
  {
    assert ([line] + lines)[1..] == lines;
  }

  lemma Resplit(s: string, k: nat)
    requires k < |s| && s[k] == '\n'
    ensures s[..k] + "\n" + (s[k + 1..] + "\n") == s + "\n"
  {
  }

  /** Splitting loses nothing. */
  lemma {:induction false} JoinSplit(s: string)
    ensures Join(Split(s)) == s + "\n"
    decreases |s|
  {
    var k := LineEnd(s);
    if k == |s| {
      assert [s][1..] == [];
    } else {
      JoinSplit(s[k + 1..]);
      JoinCons(s[..k], Split(s[k + 1..]));
      Resplit(s, k);
    }
  }

  lemma {:induction false} JoinConcat(a: seq<string>, b: seq<string>)
    ensures Join(a + b) == Join(a) + Join(b)
    decreases |a|
  {
    if a == [] {
      assert a + b == b;
    } else {
      assert (a + b)[1..] == a[1..] + b;
      JoinConcat(a[1..], b);
      assert a[0] + "\n" + (Join(a[1..]) + Join(b)) == a[0] + "\n" + Join(a[1..]) + Join(b);
    }
  }

  // ----- files of records -----

  predicate EndsLine(data: string) {
    data != "" && data[|data| - 1] == '\n'
  }

  /** The lines of a file that ends with a newline. */
  function LinesOf(data: string): seq<string>
    requires EndsLine(data)
  {
    Split(data[..|data| - 1])
  }

  /** All lines parsed, or nothing. */
  function ParseAll<R>(c: Codec<R>, lines: seq<string>): (r: Option<seq<R>>)
    ensures r.Some? ==> |r.value| == |lines|
  {
    if lines == [] then Some([])
    else
      match ParseAll(c, lines[..|lines| - 1])
      case None => None
      case Some(recs) =>
        match c.parse(lines[|lines| - 1])
        case None => None
        case Some(r) => Some(recs + [r])
  }

  /** The records of a file, if every line of it verifies. */
  function Unframe<R>(c: Codec<R>, data: string): Option<seq<R>> {
    if !EndsLine(data) then None else ParseAll(c, LinesOf(data))
  }

  function Formats<R>(c: Codec<R>, recs: seq<R>): seq<string> {
    seq(|recs|, i requires 0 <= i < |recs| => c.format(recs[i]))
  }

  lemma {:induction false} FrameIsJoin<R>(c: Codec<R>, recs: seq<R>)
    ensures Frame(c, recs) == Join(Formats(c, recs))
    decreases |recs|
  {
    if recs != [] {
      var k := |recs| - 1;
      FrameIsJoin(c, recs[..k]);
      assert Formats(c, recs) == Formats(c, recs[..k]) + [c.format(recs[k])];
      JoinConcat(Formats(c, recs[..k]), [c.format(recs[k])]);
      assert [c.format(recs[k])][1..] == [];
      assert Join([c.format(recs[k])]) == c.format(recs[k]) + "\n";
    }
  }

  lemma FrameConcat<R>(c: Codec<R>, a: seq<R>, b: seq<R>)
    ensures Frame(c, a + b) == Frame(c, a) + Frame(c, b)
  {
    hide Frame, Join, Formats;
    FrameIsJoin(c, a);
    FrameIsJoin(c, b);
    FrameIsJoin(c, a + b);
    FormatsConcat(c, a, b);
    JoinConcat(Formats(c, a), Formats(c, b));
  }

  lemma FormatsConcat<R>(c: Codec<R>, a: seq<R>, b: seq<R>)
    ensures Formats(c, a + b) == Formats(c, a) + Formats(c, b)
  {
  }

  /** The lines of a framed file are the formatted records. */
  lemma {:induction false} LinesOfFrame<R(!new)>(c: Codec<R>, recs: seq<R>)
    requires FormatOk(c) && AllFit(c, recs) && recs != []
    ensures EndsLine(Frame(c, recs)) && LinesOf(Frame(c, recs)) == Formats(c, recs)
    decreases |recs|
  {
    hide FormatOk, Split, Join;
    var k := |recs| - 1;
    var last := c.format(recs[k]);
    LastFormat(c, recs);
    SplitCons(last, "");
    if k == 0 {
      assert Frame(c, recs[..0]) + last == last;
      DropNewline("", last);
      assert Formats(c, recs) == [last];
    } else {
      var init := Frame(c, recs[..k]);
      LinesOfFrame(c, recs[..k]);
      DropNewline(init, last);
      assert init == init[..|init| - 1] + "\n";
      SplitConcat(init[..|init| - 1], last);
      assert Formats(c, recs) == Formats(c, recs[..k]) + [last];
    }
  }

  lemma LastFormat<R(!new)>(c: Codec<R>, recs: seq<R>)
    requires FormatOk(c) && AllFit(c, recs) && recs != []
    ensures OneLine(c.format(recs[|recs| - 1])) && AllFit(c, recs[..|recs| - 1])
  {
    assert c.fits(recs[|recs| - 1]);
  }

  lemma DropNewline(a: string, b: string)
    ensures (a + b + "\n")[..|a + b + "\n"| - 1] == a + b
  {
  }

  lemma LinesConcat(d1: string, d2: string)
    requires EndsLine(d1) && EndsLine(d2)
    ensures EndsLine(d1 + d2) && LinesOf(d1 + d2) == LinesOf(d1) + LinesOf(d2)
  {
    var a, b := d1[..|d1| - 1], d2[..|d2| - 1];
    assert (d1 + d2)[..|d1 + d2| - 1] == a + "\n" + b;
    SplitConcat(a, b);
  }

  lemma OneLineFile(line: string)
    requires OneLine(line)
    ensures EndsLine(line + "\n") && LinesOf(line + "\n") == [line]
  {
    SplitCons(line, "");
    assert (line + "\n")[..|line|] == line;
  }

  /** A line written into a file is one of its lines, whatever follows. */
  lemma LineStands(before: string, line: string, after: string)
    requires EndsLine(before) && OneLine(line) && EndsLine(before + (line + "\n") + after)
    ensures line in LinesOf(before + (line + "\n") + after)
  {
    hide LinesOf, EndsLine;
    var head := before + (line + "\n");
    OneLineFile(line);
    LinesConcat(before, line + "\n");
    if after == "" {
      assert head + after == head;
    } else {
      LastLine(head, after);
      LinesConcat(head, after);
    }
  }

  lemma LastLine(head: string, after: string)
    requires after != "" && EndsLine(head + after)
    ensures EndsLine(after)
  {
  }

  lemma {:induction false} ParseAllFormats<R(!new)>(c: Codec<R>, recs: seq<R>)
    requires FormatOk(c) && AllFit(c, recs)
    ensures ParseAll(c, Formats(c, recs)) == Some(recs)
    decreases |recs|
  {
    if recs != [] {
      var k := |recs| - 1;
      assert c.fits(recs[k]);
      ParseAllFormats(c, recs[..k]);
      assert Formats(c, recs)[..k] == Formats(c, recs[..k]);
      assert recs[..k] + [recs[k]] == recs;
    }
  }

  lemma {:induction false} ParsedLines<R(!new)>(c: Codec<R>, lines: seq<string>)
    requires ParseOk(c) && ParseAll(c, lines).Some?
    ensures AllFit(c, ParseAll(c, lines).value) && Formats(c, ParseAll(c, lines).value) == lines
    decreases |lines|
  {
    if lines != [] {
      var k := |lines| - 1;
      ParsedLines(c, lines[..k]);
      assert c.parse(lines[k]).Some?;
      var recs := ParseAll(c, lines).value;
      assert recs == ParseAll(c, lines[..k]).value + [c.parse(lines[k]).value];
      assert lines == lines[..k] + [lines[k]];
    }
  }

  /** Main result: framing loses nothing. */
  lemma UnframeFrame<R(!new)>(c: Codec<R>, recs: seq<R>)
    requires CodecOk(c) && AllFit(c, recs) && recs != []
    ensures Unframe(c, Frame(c, recs)) == Some(recs)
  {
    LinesOfFrame(c, recs);
    ParseAllFormats(c, recs);
  }

  /** Main result: a file all of whose lines verify is the framing of its records. */
  lemma FrameUnframe<R(!new)>(c: Codec<R>, data: string)
    requires CodecOk(c) && Unframe(c, data).Some?
    ensures AllFit(c, Unframe(c, data).value) && Frame(c, Unframe(c, data).value) == data
    ensures Unframe(c, data).value != []
  {
    var recs := Unframe(c, data).value;
    ParsedLines(c, LinesOf(data));
    FrameIsJoin(c, recs);
    JoinSplit(data[..|data| - 1]);
    assert data[..|data| - 1] + "\n" == data;
  }
}
