/** Reading state.db as text, and the cache of withExclusiveLock (internal/authz/statedb.go). */
module StateFile {
  import opened LedgerState
  import opened LedgerOps
  import F = Framing

  type StateCodec = F.Codec<StateRecord>

  function FoldLines(c: StateCodec, st: State, lines: seq<string>, gw: string, isFirst: bool): Result<State>
    decreases |lines|
  {
    if lines == [] then Ok(st)
    else
      match c.parse(lines[0])
      case None => Err(CorruptLine)
      case Some(rec) =>
        match Step(st, rec, gw, isFirst)
        case Err(e) => Err(e)
        case Ok(st') => FoldLines(c, st', lines[1..], gw, false)
  }

  /** applyStateRecordsBytes */
  function ApplyText(c: StateCodec, st: State, data: string, gw: string, requireHeader: bool): Result<State> {
    if data == "" then (if requireHeader then Err(Uninitialized) else Ok(st))
    else if !F.EndsLine(data) then Err(Unavailable("incomplete final line"))
    else Finish(FoldLines(c, st, F.LinesOf(data), gw, requireHeader))
  }

  /** The loop of applyStateRecordsBytes. */
  method ApplyStateRecordsBytes(c: StateCodec, start: State, data: string, gw: string, requireHeader: bool)
    returns (r: Result<State>)
    ensures r == ApplyText(c, start, data, gw, requireHeader)
  {
    if |data| == 0 {
      return if requireHeader then Err(Uninitialized) else Ok(start);
    }
    if data[|data| - 1] != '\n' {
      return Err(Unavailable("incomplete final line"));
    }
    var lines := F.Split(data[..|data| - 1]);
    var st := start;
    for idx := 0 to |lines|
      invariant FoldLines(c, start, lines, gw, requireHeader)
             == FoldLines(c, st, lines[idx..], gw, requireHeader && idx == 0)
    {
      assert lines[idx..][1..] == lines[idx + 1..];
      var parsed := c.parse(lines[idx]);
      if parsed.None? {
        return Err(CorruptLine);
      }
      var rec := parsed.value;
      if rec.gatewayId != gw {
        return Err(Unavailable("gateway_id"));
      }
      if requireHeader && idx == 0 {
        if !IsGenesisHeader(rec) {
          return Err(Unavailable("genesis header"));
        }
        st := st.(ledgerId := rec.ledgerId, gatewayId := rec.gatewayId);
      } else if st.ledgerId == "" || rec.ledgerId != st.ledgerId {
        return Err(Unavailable("ledger_id"));
      }
      var next := Absorb(st, rec);
      if next.Err? {
        return next;
      }
      st := next.value;
    }
    if st.ledgerId == "" || st.hwmSeq == 0 || |st.hwmHash| != 64 {
      return Err(Uninitialized);
    }
    return Ok(st);
  }

  // ----- replay in two parts, on the text -----

  lemma {:induction false} FoldLinesConcat(c: StateCodec, st: State, a: seq<string>, b: seq<string>, gw: string, isFirst: bool)
    ensures FoldLines(c, st, a + b, gw, isFirst)
         == match FoldLines(c, st, a, gw, isFirst)
            case Err(e) => Err(e)
            case Ok(st') => FoldLines(c, st', b, gw, isFirst && a == [])
    decreases |a|
  {
    if a == [] {
      assert a + b == b;
    } else {
      assert (a + b)[0] == a[0] && (a + b)[1..] == a[1..] + b;
      if c.parse(a[0]).Some? {
        var r := Step(st, c.parse(a[0]).value, gw, isFirst);
        if r.Ok? {
          FoldLinesConcat(c, r.value, a[1..], b, gw, false);
        }
      }
    }
  }

  /** Main result, the law behind the cache: whenever a prefix of the file
      replays, replaying the whole file and applying the rest as a delta give the
      same result on every text, malformed ones and their errors included. */
  lemma TextDeltaReplay(c: StateCodec, d1: string, d2: string, gw: string)
    requires ApplyText(c, EMPTY, d1, gw, true).Ok?
    ensures ApplyText(c, EMPTY, d1 + d2, gw, true) == ApplyText(c, ApplyText(c, EMPTY, d1, gw, true).value, d2, gw, false)
  {
    hide Step;
    if d2 == "" {
      assert d1 + d2 == d1;
    } else if F.EndsLine(d2) {
      F.LinesConcat(d1, d2);
      FoldLinesConcat(c, EMPTY, F.LinesOf(d1), F.LinesOf(d2), gw, true);
    } else {
      assert (d1 + d2)[|d1 + d2| - 1] == d2[|d2| - 1];
    }
  }

  lemma {:induction false} FoldLinesSameMeaning(c: StateCodec, a: State, b: State, lines: seq<string>, gw: string, isFirst: bool)
    requires SameMeaning(a, b)
    ensures SameResult(FoldLines(c, a, lines, gw, isFirst), FoldLines(c, b, lines, gw, isFirst))
    decreases |lines|
  {
    hide Step, SameMeaning;
    if lines != [] && c.parse(lines[0]).Some? {
      var rec := c.parse(lines[0]).value;
      StepSameMeaning(a, b, rec, gw, isFirst);
      var x, y := Step(a, rec, gw, isFirst), Step(b, rec, gw, isFirst);
      if x.Ok? {
        FoldLinesSameMeaning(c, x.value, y.value, lines[1..], gw, false);
      }
    }
  }

  lemma TextSameMeaning(c: StateCodec, a: State, b: State, data: string, gw: string)
    requires SameMeaning(a, b)
    ensures SameResult(ApplyText(c, a, data, gw, false), ApplyText(c, b, data, gw, false))
  {
    if F.EndsLine(data) {
      FoldLinesSameMeaning(c, a, b, F.LinesOf(data), gw, false);
    }
  }

  // ----- text and records -----

  lemma {:induction false} FoldParsed(c: StateCodec, st: State, recs: seq<StateRecord>, gw: string, isFirst: bool)
    requires F.FormatOk(c) && F.AllFit(c, recs)
    ensures FoldLines(c, st, F.Formats(c, recs), gw, isFirst) == Fold(st, recs, gw, isFirst)
    decreases |recs|
  {
    hide Step;
    if recs != [] {
      assert c.fits(recs[0]);
      assert F.Formats(c, recs)[1..] == F.Formats(c, recs[1..]);
      var r := Step(st, recs[0], gw, isFirst);
      if r.Ok? {
        FoldParsed(c, r.value, recs[1..], gw, false);
      }
    }
  }

  /** Replaying a framed file is replaying its records. */
  lemma FramedReplays(c: StateCodec, st: State, recs: seq<StateRecord>, gw: string, requireHeader: bool)
    requires F.FormatOk(c) && F.AllFit(c, recs)
    ensures ApplyText(c, st, F.Frame(c, recs), gw, requireHeader) == Apply(st, recs, gw, requireHeader)
  {
    if recs != [] {
      F.LinesOfFrame(c, recs);
      FoldParsed(c, st, recs, gw, requireHeader);
    }
  }

  lemma {:induction false} FoldedLinesParse(c: StateCodec, st: State, lines: seq<string>, gw: string, isFirst: bool)
    requires FoldLines(c, st, lines, gw, isFirst).Ok?
    ensures forall k | 0 <= k < |lines| :: c.parse(lines[k]).Some?
    decreases |lines|
  {
    hide Step;
    if lines != [] {
      FoldedLinesParse(c, Step(st, c.parse(lines[0]).value, gw, isFirst).value, lines[1..], gw, false);
      assert forall k | 1 <= k < |lines| :: lines[k] == lines[1..][k - 1];
    }
  }

  lemma {:induction false} AllParse(c: StateCodec, lines: seq<string>)
    requires forall k | 0 <= k < |lines| :: c.parse(lines[k]).Some?
    ensures F.ParseAll(c, lines).Some?
    decreases |lines|
  {
    if lines != [] {
      AllParse(c, lines[..|lines| - 1]);
    }
  }

  /** A state.db that replays is exactly the framing of the records it stands for. */
  lemma AcceptedIsFramed(c: StateCodec, data: string, gw: string) returns (recs: seq<StateRecord>)
    requires F.CodecOk(c) && ApplyText(c, EMPTY, data, gw, true).Ok?
    ensures F.AllFit(c, recs) && data == F.Frame(c, recs)
    ensures ApplyText(c, EMPTY, data, gw, true) == ReplayAll(recs, gw)
  {
    FoldedLinesParse(c, EMPTY, F.LinesOf(data), gw, true);
    AllParse(c, F.LinesOf(data));
    recs := F.Unframe(c, data).value;
    F.FrameUnframe(c, data);
    FramedReplays(c, EMPTY, recs, gw, true);
  }

  // ----- the cache -----

  const MAX_FILE: nat := 67108864

  /** The two files; gen names the file behind the path (its device and inode),
      which only a rename changes. */
  datatype Image = Image(gen: nat, state: string, audit: string)

  /** cachedDev and cachedIno, cachedSize, cachedState */
  datatype Cache = Cache(gen: nat, size: nat, st: Option<State>)

  /** What a full replay under the lock gives. */
  function LoadSpec(c: StateCodec, gw: string, img: Image): Result<State> {
    if img.state == "" then Err(Uninitialized)
    else if |img.state| > MAX_FILE then Err(PayloadTooLarge)
    else if img.audit == "" then Err(Uninitialized)
    else if |img.audit| > MAX_FILE then Err(PayloadTooLarge)
    else ApplyText(c, EMPTY, img.state, gw, true)
  }

  /** If the path still names the cached file, the cached state is what its
      first cachedSize characters replay to. */
  ghost predicate CacheOk(c: StateCodec, gw: string, cache: Cache, img: Image) {
    cache.st.Some? ==>
      && cache.gen <= img.gen
      && (cache.gen == img.gen ==>
            && cache.size <= |img.state|
            && SameResult(Ok(cache.st.value), ApplyText(c, EMPTY, img.state[..cache.size], gw, true)))
  }

  /** What other lock holders may do to the files: append, or rename a new one in place. */
  predicate Grows(img: Image, img': Image) {
    (img'.gen == img.gen && img.state <= img'.state) || img'.gen > img.gen
  }

  /** Main result: a process's cache stays valid whatever the others append or rename. */
  lemma CacheStaysOk(c: StateCodec, gw: string, cache: Cache, img: Image, img': Image)
    requires CacheOk(c, gw, cache, img) && Grows(img, img')
    ensures CacheOk(c, gw, cache, img')
  {
    hide ApplyText;
    if cache.st.Some? && cache.gen == img'.gen {
      assert img'.state[..cache.size] == img.state[..cache.size];
    }
  }

  /** Applying the unread rest to the cached state gives what a full replay gives. */
  lemma CachedDelta(c: StateCodec, gw: string, cache: Cache, img: Image)
    requires CacheOk(c, gw, cache, img) && cache.st.Some? && cache.gen == img.gen
    ensures SameResult(ApplyText(c, cache.st.value, img.state[cache.size..], gw, false), ApplyText(c, EMPTY, img.state, gw, true))
  {
    hide ApplyText;
    var d1, d2 := img.state[..cache.size], img.state[cache.size..];
    assert d1 + d2 == img.state;
    TextDeltaReplay(c, d1, d2, gw);
    TextSameMeaning(c, cache.st.value, ApplyText(c, EMPTY, d1, gw, true).value, d2, gw);
  }

  /** withExclusiveLock up to the call of its function, for a process with this cache. */
  function LoadThrough(c: StateCodec, gw: string, cache: Cache, img: Image): Result<State> {
    if img.state == "" then Err(Uninitialized)
    else if |img.state| > MAX_FILE then Err(PayloadTooLarge)
    else if img.audit == "" then Err(Uninitialized)
    else if |img.audit| > MAX_FILE then Err(PayloadTooLarge)
    else if cache.st.Some? && img.gen == cache.gen && |img.state| >= cache.size then
      ApplyText(c, cache.st.value, img.state[cache.size..], gw, false)
    else ApplyText(c, EMPTY, img.state, gw, true)
  }

  /** Main result: through a valid cache a process sees what a full replay gives, on
      every content of the files, malformed ones and their errors included. */
  lemma LoadThroughMeans(c: StateCodec, gw: string, cache: Cache, img: Image)
    requires CacheOk(c, gw, cache, img)
    ensures SameResult(LoadThrough(c, gw, cache, img), LoadSpec(c, gw, img))
    ensures LoadThrough(c, gw, cache, img).Ok? ==>
              CacheOk(c, gw, Cache(img.gen, |img.state|, Some(LoadThrough(c, gw, cache, img).value)), img)
  {
    hide ApplyText, SameMeaning;
    assert img.state[..|img.state|] == img.state;
    SameMeaningOfSelf(LoadSpec(c, gw, img));
    if cache.st.Some? && img.gen == cache.gen && |img.state| >= cache.size {
      CachedDelta(c, gw, cache, img);
    }
  }

  lemma SameMeaningOfSelf(r: Result<State>)
    ensures SameResult(r, r)
  {
  }
}
