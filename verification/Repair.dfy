/** Torn-tail repair: RepairLedgerCLI and its truncations (internal/authz/statedb.go). */
module Repair {
  import opened LedgerState
  import opened LedgerOps
  import opened Compaction
  import opened LedgerTrace
  import opened StateFile
  import A = AuditFile
  import Chain = AuditChain
  import F = Framing

  /** All lines of a file, the last one with or without its newline. */
  function RawLines(data: string): (lines: seq<string>)
    ensures lines != []
  {
    F.Split(if F.EndsLine(data) then data[..|data| - 1] else data)
  }

  /** validateOrTruncateFinalStateLine: what is kept, and whether a line was cut off. */
  function TruncateState(c: StateCodec, data: string, gw: string): Result<(string, bool)> {
    if data == "" then Err(Uninitialized)
    else
      var lines := RawLines(data);
      var n := |lines| - 1;
      if F.ParseAll(c, lines[..n]).None? then Err(CorruptLine)
      else if F.EndsLine(data) && c.parse(lines[n]).Some? then
        var r := ApplyText(c, EMPTY, data, gw, true);
        if r.Err? then Err(r.error) else Ok((data, false))
      else if n == 0 then Err(CorruptLine)
      else Ok((F.Join(lines[..n]), true))
  }

  /** validateOrTruncateFinalAuditLine */
  function TruncateAudit(c: A.AuditCodec, h: Chain.Hasher, data: string, gw: string, id: string): Result<(string, bool)> {
    if data == "" then Err(Uninitialized)
    else
      var lines := RawLines(data);
      var n := |lines| - 1;
      if A.ChainLines(c, h, lines[..n], gw, id).None? then Err(AuditCorrupted)
      else if F.EndsLine(data) && A.ChainLines(c, h, lines, gw, id).Some? then Ok((data, false))
      else if n == 0 then Err(AuditCorrupted)
      else Ok((F.Join(lines[..n]), true))
  }

  /** The lines before the last one, rejoined, are where the last one starts. */
  lemma JoinedPrefix(data: string, i: nat)
    requires data != "" && i < |RawLines(data)|
    ensures var lines := RawLines(data);
            var off := |F.Join(lines[..i])|;
            off + |lines[i]| <= |data| && data[..off] == F.Join(lines[..i])
            && |F.Join(lines[..i + 1])| == off + |lines[i]| + 1
            && (F.EndsLine(data) ==> F.Join(lines) == data)
  {
    hide RawLines;
    var lines := RawLines(data);
    JoinedRaw(data);
    assert lines == lines[..i] + lines[i..] && lines[i..] == [lines[i]] + lines[i + 1..];
    F.JoinConcat(lines[..i], lines[i..]);
    F.JoinCons(lines[i], lines[i + 1..]);
    assert lines[..i + 1] == lines[..i] + [lines[i]] && [lines[i]][1..] == [];
    F.JoinConcat(lines[..i], [lines[i]]);
    PrefixOfJoin(data, F.Join(lines[..i]), lines[i], F.Join(lines[i + 1..]));
  }

  lemma JoinedRaw(data: string)
    requires data != ""
    ensures F.Join(RawLines(data)) == if F.EndsLine(data) then data else data + "\n"
  {
    var trimmed := if F.EndsLine(data) then data[..|data| - 1] else data;
    F.JoinSplit(trimmed);
    if F.EndsLine(data) {
      assert trimmed + "\n" == data;
    }
  }

  lemma PrefixOfJoin(data: string, front: string, line: string, rest: string)
    requires data != "" && front + (line + "\n" + rest) == if F.EndsLine(data) then data else data + "\n"
    ensures |front| + |line| <= |data| && data[..|front|] == front
  {
    var all := front + (line + "\n" + rest);
    assert all[..|front|] == front;
    assert data <= all;
    assert data[..|front|] == all[..|front|];
  }

  method ValidateOrTruncateFinalStateLine(c: StateCodec, data: string, gw: string) returns (r: Result<(string, bool)>)
    ensures r == TruncateState(c, data, gw)
  {
    hide RawLines, ApplyText;
    if |data| == 0 {
      return Err(Uninitialized);
    }
    var hasTrailingNewline := F.EndsLine(data);
    var rawLines := SplitRaw(data);
    var offset := 0;
    for i := 0 to |rawLines|
      invariant F.ParseAll(c, rawLines[..i]).Some?
      invariant i < |rawLines| ==> offset == |F.Join(rawLines[..i])|
      invariant i == |rawLines| ==> hasTrailingNewline && offset == |data|
    {
      var line := rawLines[i];
      var isLast := i == |rawLines| - 1;
      assert rawLines[..i + 1][..i] == rawLines[..i];
      JoinedPrefix(data, i);
      if isLast && !hasTrailingNewline {
        if i == 0 {
          return Err(CorruptLine);
        }
        return Ok((data[..offset], true));
      }
      if c.parse(line).None? {
        if isLast && i > 0 {
          return Ok((data[..offset], true));
        }
        LinesFail(c, rawLines, i + 1);
        return Err(CorruptLine);
      }
      offset := offset + |line| + 1;
      if isLast {
        assert rawLines[..i + 1] == rawLines;
      }
    }
    assert data[..offset] == data && rawLines[..|rawLines|] == rawLines;
    var st := ApplyStateRecordsBytes(c, EMPTY, data[..offset], gw, true);
    if st.Err? {
      return Err(st.error);
    }
    return Ok((data[..offset], false));
  }

  method SplitRaw(data: string) returns (lines: seq<string>)
    ensures lines == RawLines(data)
  {
    var trimmed := data;
    if F.EndsLine(data) {
      trimmed := data[..|data| - 1];
    }
    lines := F.Split(trimmed);
  }

  /** A line that fails before the last makes the lines before the last fail. */
  lemma {:induction false} LinesFail(c: StateCodec, lines: seq<string>, n: nat)
    requires n <= |lines| && F.ParseAll(c, lines[..n]).None?
    ensures F.ParseAll(c, lines).None?
    ensures n < |lines| ==> F.ParseAll(c, lines[..|lines| - 1]).None?
    decreases |lines|
  {
    if n == |lines| {
      assert lines[..n] == lines;
    } else {
      assert lines[..|lines| - 1][..n] == lines[..n];
      LinesFail(c, lines[..|lines| - 1], n);
    }
  }

  method ValidateOrTruncateFinalAuditLine(c: A.AuditCodec, h: Chain.Hasher, data: string, gw: string, id: string)
    returns (r: Result<(string, bool)>, tail: Chain.Tail)
    ensures r == TruncateAudit(c, h, data, gw, id)
    ensures r.Ok? ==> A.ChainLines(c, h, Kept(data, r.value.1), gw, id).Some?
                      && tail == Chain.TailOf(A.ChainLines(c, h, Kept(data, r.value.1), gw, id).value)
  {
    hide RawLines, A.ChainLines, Chain.LineOk;
    tail := Chain.Tail(0, "", "");
    if |data| == 0 {
      return Err(Uninitialized), tail;
    }
    var hasTrailingNewline := F.EndsLine(data);
    var rawLines := SplitRaw(data);
    var offset := 0;
    var expectedPrev := Chain.GENESIS;
    ghost var recs: seq<Chain.AuditRecord> := [];
    A.NoLines(c, h, rawLines[..0], gw, id);
    for i := 0 to |rawLines|
      invariant A.ChainLines(c, h, rawLines[..i], gw, id) == Chain.Some(recs) && |recs| == i
      invariant expectedPrev == Chain.PrevOf(recs, i) && tail == Chain.TailOf(recs)
      invariant i < |rawLines| ==> offset == |F.Join(rawLines[..i])|
      invariant i == |rawLines| ==> hasTrailingNewline && offset == |data|
    {
      var line := rawLines[i];
      var isLast := i == |rawLines| - 1;
      JoinedPrefix(data, i);
      if isLast && !hasTrailingNewline {
        if i == 0 {
          return Err(AuditCorrupted), tail;
        }
        return Ok((data[..offset], true)), tail;
      }
      A.ChainLinesSnoc(c, h, rawLines, i, gw, id);
      var rec := c.parse(line);
      if rec.None? || !Chain.LineOk(h, rec.value, i + 1, expectedPrev, gw, id) {
        ChainFails(c, h, rawLines, i, gw, id);
        if isLast && i > 0 {
          return Ok((data[..offset], true)), tail;
        }
        return Err(AuditCorrupted), tail;
      }
      tail := Chain.Tail(rec.value.seqNo, rec.value.prevHash, rec.value.recordHash);
      expectedPrev := rec.value.recordHash;
      recs := recs + [rec.value];
      offset := offset + |line| + 1;
      if isLast {
        assert rawLines[..i + 1] == rawLines;
        assert rawLines[..i] == rawLines[..|rawLines| - 1];
      }
    }
    assert data[..offset] == data && rawLines[..|rawLines|] == rawLines;
    A.ChainLinesInit(c, h, rawLines, gw, id);
    return Ok((data, false)), tail;
  }

  /** The lines that are kept. */
  function Kept(data: string, cut: bool): seq<string> {
    var lines := RawLines(data);
    if cut then lines[..|lines| - 1] else lines
  }

  lemma ChainFails(c: A.AuditCodec, h: Chain.Hasher, lines: seq<string>, i: nat, gw: string, id: string)
    requires i < |lines| && A.ChainLines(c, h, lines[..i + 1], gw, id).None?
    ensures A.ChainLines(c, h, lines, gw, id).None?
    ensures i < |lines| - 1 ==> A.ChainLines(c, h, lines[..|lines| - 1], gw, id).None?
  {
    hide A.ChainLines;
    A.FailsBeyond(c, h, lines, i + 1, gw, id);
    if i < |lines| - 1 {
      var init := lines[..|lines| - 1];
      assert init[..i + 1] == lines[..i + 1];
      A.FailsBeyond(c, h, init, i + 1, gw, id);
    }
  }

  // ----- truncation is exact -----

  /** A framed file followed by a partial line: its lines are the records' lines and the partial one. */
  lemma TornLines<R(!new)>(c: F.Codec<R>, recs: seq<R>, p: string)
    requires F.FormatOk(c) && F.AllFit(c, recs) && recs != [] && F.OneLine(p) && p != ""
    ensures var data := F.Frame(c, recs) + p;
            !F.EndsLine(data) && RawLines(data) == F.Formats(c, recs) + [p]
            && F.Join(F.Formats(c, recs)) == F.Frame(c, recs)
  {
    var file := F.Frame(c, recs);
    var data := file + p;
    assert data[|data| - 1] == p[|p| - 1];
    F.LinesOfFrame(c, recs);
    assert data == file[..|file| - 1] + "\n" + p;
    F.SplitConcat(file[..|file| - 1], p);
    F.SplitCons(p, "");
    F.FrameIsJoin(c, recs);
  }

  /** A framed file followed by one more complete line. */
  lemma MoreLines<R(!new)>(c: F.Codec<R>, recs: seq<R>, line: string)
    requires F.FormatOk(c) && F.AllFit(c, recs) && recs != [] && F.OneLine(line)
    ensures var data := F.Frame(c, recs) + (line + "\n");
            F.EndsLine(data) && RawLines(data) == F.Formats(c, recs) + [line]
            && F.Join(F.Formats(c, recs)) == F.Frame(c, recs)
  {
    F.LinesOfFrame(c, recs);
    F.OneLineFile(line);
    F.LinesConcat(F.Frame(c, recs), line + "\n");
    F.FrameIsJoin(c, recs);
  }

  /** A complete last line that does not parse is cut off as well. */
  lemma BadStateLineIsCut(c: StateCodec, recs: seq<StateRecord>, line: string, gw: string)
    requires F.FormatOk(c) && F.AllFit(c, recs) && recs != [] && F.OneLine(line) && c.parse(line).None?
    ensures TruncateState(c, F.Frame(c, recs) + (line + "\n"), gw) == Ok((F.Frame(c, recs), true))
  {
    hide ApplyText;
    var data := F.Frame(c, recs) + (line + "\n");
    MoreLines(c, recs, line);
    F.ParseAllFormats(c, recs);
    assert RawLines(data)[..|RawLines(data)| - 1] == F.Formats(c, recs);
  }

  /** Main result: for a valid state.db followed by any part of a further line,
      truncation keeps exactly the valid file. */
  lemma TornStateIsCut(c: StateCodec, recs: seq<StateRecord>, p: string, gw: string)
    requires F.FormatOk(c) && F.AllFit(c, recs) && recs != [] && F.OneLine(p) && p != ""
    ensures TruncateState(c, F.Frame(c, recs) + p, gw) == Ok((F.Frame(c, recs), true))
  {
    hide ApplyText;
    var data := F.Frame(c, recs) + p;
    TornLines(c, recs, p);
    F.ParseAllFormats(c, recs);
    assert RawLines(data)[..|RawLines(data)| - 1] == F.Formats(c, recs);
  }

  /** A valid state.db is kept whole. */
  lemma IntactStateIsKept(c: StateCodec, recs: seq<StateRecord>, gw: string)
    requires F.FormatOk(c) && F.AllFit(c, recs) && ReplayAll(recs, gw).Ok?
    ensures TruncateState(c, F.Frame(c, recs), gw) == Ok((F.Frame(c, recs), false))
  {
    hide ReplayAll;
    NotEmpty(recs, gw);
    var data := F.Frame(c, recs);
    F.LinesOfFrame(c, recs);
    F.ParseAllFormats(c, recs);
    FramedReplays(c, EMPTY, recs, gw, true);
    ApplyIsReplay(recs, gw);
  }

  lemma NotEmpty(recs: seq<StateRecord>, gw: string)
    requires ReplayAll(recs, gw).Ok?
    ensures recs != []
  {
  }

  lemma ApplyIsReplay(recs: seq<StateRecord>, gw: string)
    ensures ReplayAll(recs, gw) == Apply(EMPTY, recs, gw, true)
  {
  }

  /** The same for the audit log: any part of a further line is cut off ... */
  lemma TornAuditIsCut(c: A.AuditCodec, h: Chain.Hasher, log: seq<Chain.AuditRecord>, p: string, gw: string, id: string)
    requires F.FormatOk(c) && F.AllFit(c, log) && log != [] && F.OneLine(p) && p != ""
    requires Chain.ValidChain(h, log, gw, id)
    ensures TruncateAudit(c, h, F.Frame(c, log) + p, gw, id) == Ok((F.Frame(c, log), true))
    ensures Kept(F.Frame(c, log) + p, true) == F.Formats(c, log)
  {
    hide Chain.ValidChain;
    var data := F.Frame(c, log) + p;
    TornLines(c, log, p);
    F.ParseAllFormats(c, log);
    assert RawLines(data)[..|RawLines(data)| - 1] == F.Formats(c, log);
  }

  /** ... and a valid log is kept whole. */
  lemma IntactAuditIsKept(c: A.AuditCodec, h: Chain.Hasher, log: seq<Chain.AuditRecord>, gw: string, id: string)
    requires F.FormatOk(c) && F.AllFit(c, log) && log != [] && Chain.ValidChain(h, log, gw, id)
    ensures TruncateAudit(c, h, F.Frame(c, log), gw, id) == Ok((F.Frame(c, log), false))
    ensures Kept(F.Frame(c, log), false) == F.Formats(c, log)
  {
    hide Chain.ValidChain, A.ChainLines;
    F.LinesOfFrame(c, log);
    FormatsGive(c, h, log, gw, id);
    A.ChainLinesInit(c, h, F.Formats(c, log), gw, id);
  }

  lemma FormatsGive(c: A.AuditCodec, h: Chain.Hasher, log: seq<Chain.AuditRecord>, gw: string, id: string)
    requires F.FormatOk(c) && F.AllFit(c, log) && Chain.ValidChain(h, log, gw, id)
    ensures A.ChainLines(c, h, F.Formats(c, log), gw, id) == Chain.Some(log)
  {
    hide Chain.ValidChain;
    F.ParseAllFormats(c, log);
  }

  /** Whatever the file holds, truncation only ever removes one last line, and
      only one that is incomplete or does not verify. */
  lemma TruncationRemovesOneLine(c: StateCodec, data: string, gw: string)
    requires TruncateState(c, data, gw).Ok?
    ensures var (kept, cut) := TruncateState(c, data, gw).value;
            kept <= data && F.Unframe(c, kept).Some?
            && (if !cut then kept == data else exists line: string :: RemovedLine(c, data, kept, line))
  {
    hide ApplyText;
    var lines := RawLines(data);
    var n := |lines| - 1;
    if TruncateState(c, data, gw).value.1 {
      CutLine(c, data);
    } else {
      assert lines[..n] + [lines[n]] == lines;
      assert lines == F.LinesOf(data);
      assert F.ParseAll(c, lines).Some?;
    }
  }

  lemma CutLine(c: StateCodec, data: string)
    requires data != "" && |RawLines(data)| > 1
    requires var lines := RawLines(data);
             F.ParseAll(c, lines[..|lines| - 1]).Some? && (F.EndsLine(data) ==> c.parse(lines[|lines| - 1]).None?)
    ensures var lines := RawLines(data);
            var kept := F.Join(lines[..|lines| - 1]);
            kept <= data && F.Unframe(c, kept).Some? && RemovedLine(c, data, kept, lines[|lines| - 1])
  {
    hide F.OneLine, F.ParseAll, F.LinesOf;
    RawLinesAreSingle(data);
    hide RawLines, F.Split, F.Join;
    var lines := RawLines(data);
    var n := |lines| - 1;
    JoinedPrefix(data, n);
    var kept := F.Join(lines[..n]);
    assert lines == lines[..n] + [lines[n]];
    F.JoinConcat(lines[..n], [lines[n]]);
    JoinOne(lines[n]);
    JoinedRaw(data);
    LastLineOf(data, kept, lines[n]);
    LinesOfJoin(lines[..n]);
  }

  lemma JoinOne(line: string)
    ensures F.Join([line]) == line + "\n"
  {
    assert [line][1..] == [];
  }

  lemma RawLinesAreSingle(data: string)
    ensures forall k | 0 <= k < |RawLines(data)| :: F.OneLine(RawLines(data)[k])
  {
    F.SplitLinesAreSingle(if F.EndsLine(data) then data[..|data| - 1] else data);
  }

  /** line is the removed last line. */
  ghost predicate RemovedLine(c: StateCodec, data: string, kept: string, line: string) {
    && F.OneLine(line)
    && (if F.EndsLine(data) then data == kept + line + "\n" && c.parse(line).None? else data == kept + line)
  }

  lemma LastLineOf(data: string, kept: string, line: string)
    requires data != "" && kept + (line + "\n") == if F.EndsLine(data) then data else data + "\n"
    ensures data == if F.EndsLine(data) then kept + line + "\n" else kept + line
  {
    if F.EndsLine(data) {
      assert kept + (line + "\n") == kept + line + "\n";
    } else {
      assert data == (data + "\n")[..|data|];
      assert kept + line == (kept + (line + "\n"))[..|kept| + |line|];
    }
  }

  lemma DropLast(a: string, b: string)
    requires b != ""
    ensures (a + b)[..|a + b| - 1] == a + b[..|b| - 1] && (a + b)[|a + b| - 1] == b[|b| - 1]
  {
  }

  lemma JoinFirst(lines: seq<string>)
    requires lines != []
    ensures F.Join(lines) == lines[0] + "\n" + F.Join(lines[1..])
  {
  }

  lemma {:induction false} LinesOfJoin(lines: seq<string>)
    requires lines != [] && forall k | 0 <= k < |lines| :: F.OneLine(lines[k])
    ensures F.EndsLine(F.Join(lines)) && F.LinesOf(F.Join(lines)) == lines
    decreases |lines|
  {
    hide F.Split, F.Join, F.OneLine;
    JoinFirst(lines);
    if |lines| == 1 {
      SingleLine(lines);
    } else {
      assert forall k | 0 <= k < |lines[1..]| :: lines[1..][k] == lines[k + 1];
      LinesOfJoin(lines[1..]);
      FirstLine(lines[0], F.Join(lines[1..]));
      assert lines == [lines[0]] + lines[1..];
    }
  }

  lemma SingleLine(lines: seq<string>)
    requires |lines| == 1 && F.OneLine(lines[0])
    ensures F.EndsLine(F.Join(lines)) && F.LinesOf(F.Join(lines)) == lines
  {
    hide F.Split, F.OneLine;
    var data := F.Join(lines);
    JoinFirst(lines);
    assert lines[1..] == [] && F.Join(lines[1..]) == "";
    assert data == lines[0] + "\n";
    assert data[..|data| - 1] == lines[0];
    F.SplitCons(lines[0], "");
  }

  lemma FirstLine(line: string, rest: string)
    requires F.OneLine(line) && F.EndsLine(rest)
    ensures F.EndsLine(line + "\n" + rest) && F.LinesOf(line + "\n" + rest) == [line] + F.LinesOf(rest)
  {
    hide F.Split, F.OneLine;
    DropLast(line + "\n", rest);
    F.SplitCons(line, rest[..|rest| - 1]);
  }

  // ----- the whole repair -----

  /** The state repair continues from: the replayed one, moved to the audit tail
      when the log is one record ahead. */
  function Reconcile(st: State, tail: Chain.Tail): Result<State> {
    if tail.seqNo == st.hwmSeq + 1 && tail.prevHash == st.hwmHash then
      Ok(st.(hwmSeq := tail.seqNo, hwmHash := tail.hash))
    else if tail.seqNo != st.hwmSeq || tail.hash != st.hwmHash then Err(AuditCorrupted)
    else Ok(st)
  }

  function HwmLine(c: StateCodec, ctx: Ctx, st: State, r: Chain.AuditRecord, now: int): string {
    c.format(HwmRecord(st.ledgerId, ctx.pol.gatewayId, r.seqNo, r.recordHash, now)) + "\n"
  }

  /** The tail of what is kept of the audit log. */
  function KeptTail(ac: A.AuditCodec, h: Chain.Hasher, data: string, cut: bool, gw: string, id: string): Chain.Tail {
    var recs := A.ChainLines(ac, h, Kept(data, cut), gw, id);
    if recs.None? then Chain.Tail(0, "", "") else Chain.TailOf(recs.value)
  }

  /** What a repair leaves in the files, and its error if it fails: a torn line may have been
      cut off by then. */
  datatype Repair = Repair(img: Image, error: Option<Error>)

  /** The second half of a repair, from the replayed state on. */
  function RepairAudit(ctx: Ctx, sc: StateCodec, ac: A.AuditCodec, img: Image, cutState: bool, st: State,
                       template: (bool, bool) -> Chain.AuditRecord, now: int): Repair {
    if |img.audit| > MAX_FILE then Repair(img, Some(PayloadTooLarge))
    else
      match TruncateAudit(ac, ctx.h, img.audit, ctx.pol.gatewayId, st.ledgerId)
      case Err(e) => Repair(img, Some(e))
      case Ok((keptAudit, cutAudit)) =>
        match Reconcile(st, KeptTail(ac, ctx.h, img.audit, cutAudit, ctx.pol.gatewayId, st.ledgerId))
        case Err(e) => Repair(img.(audit := keptAudit), Some(e))
        case Ok(st') =>
          var rec := NextAudit(ctx, st', template(cutState, cutAudit));
          Repair(Image(img.gen, img.state + HwmLine(sc, ctx, st', rec, now), keptAudit + ac.format(rec) + "\n"), None)
  }

  function RepairText(ctx: Ctx, sc: StateCodec, ac: A.AuditCodec, img: Image,
                      template: (bool, bool) -> Chain.AuditRecord, now: int): Repair {
    if |img.state| > MAX_FILE then Repair(img, Some(PayloadTooLarge))
    else
      match TruncateState(sc, img.state, ctx.pol.gatewayId)
      case Err(e) => Repair(img, Some(e))
      case Ok((keptState, cutState)) =>
        match ApplyText(sc, EMPTY, keptState, ctx.pol.gatewayId, true)
        case Err(e) => Repair(img.(state := keptState), Some(e))
        case Ok(st) => RepairAudit(ctx, sc, ac, img.(state := keptState), cutState, st, template, now)
  }

  /** RepairLedgerCLI; template makes the ledger_repaired record from what was cut. */
  method RepairLedger(ctx: Ctx, sc: StateCodec, ac: A.AuditCodec, img: Image,
                      template: (bool, bool) -> Chain.AuditRecord, now: int)
    returns (r: Repair)
    ensures r == RepairText(ctx, sc, ac, img, template, now)
  {
    hide TruncateState, TruncateAudit, ApplyText, Kept, A.ChainLines, NextAudit;
    if |img.state| > MAX_FILE {
      return Repair(img, Some(PayloadTooLarge));
    }
    var s := ValidateOrTruncateFinalStateLine(sc, img.state, ctx.pol.gatewayId);
    if s.Err? {
      return Repair(img, Some(s.error));
    }
    var files := img.(state := s.value.0);
    var applied := ApplyStateRecordsBytes(sc, EMPTY, files.state, ctx.pol.gatewayId, true);
    if applied.Err? {
      return Repair(files, Some(applied.error));
    }
    var st := applied.value;
    if |files.audit| > MAX_FILE {
      return Repair(files, Some(PayloadTooLarge));
    }
    var a, tail := ValidateOrTruncateFinalAuditLine(ac, ctx.h, files.audit, ctx.pol.gatewayId, st.ledgerId);
    if a.Err? {
      return Repair(files, Some(a.error));
    }
    files := files.(audit := a.value.0);
    if tail.seqNo == st.hwmSeq + 1 && tail.prevHash == st.hwmHash {
      st := st.(hwmSeq := tail.seqNo, hwmHash := tail.hash);
    } else if tail.seqNo != st.hwmSeq || tail.hash != st.hwmHash {
      return Repair(files, Some(AuditCorrupted));
    }
    var rec := NextAudit(ctx, st, template(s.value.1, a.value.1));
    return Repair(Image(img.gen, files.state + HwmLine(sc, ctx, st, rec, now), files.audit + ac.format(rec) + "\n"), None);
  }

  /** The files of d, each possibly followed by part of a further line. */
  ghost predicate TornFiles(sc: StateCodec, ac: A.AuditCodec, d: Disk, img: Image, p: string, q: string) {
    && F.AllFit(sc, d.state) && F.AllFit(ac, d.audit) && F.OneLine(p) && F.OneLine(q)
    && img.state == F.Frame(sc, d.state) + p && img.audit == F.Frame(ac, d.audit) + q
    && |img.state| <= MAX_FILE && |img.audit| <= MAX_FILE
  }

  /** The ledger after a repair: the old one, and the repair's own record with its mark. */
  function Repaired(ctx: Ctx, d: Disk, t: Chain.AuditRecord, now: int): Disk
    requires ReplayAll(d.state, ctx.pol.gatewayId).Ok?
  {
    var tail := Chain.TailOf(d.audit);
    var st := View(ctx, d).(hwmSeq := tail.seqNo, hwmHash := tail.hash);
    var r := NextAudit(ctx, st, t);
    Disk(d.state + [HwmRecord(st.ledgerId, ctx.pol.gatewayId, r.seqNo, r.recordHash, now)], d.audit + [r])
  }

  lemma RepairedIsSynced(ctx: Ctx, d: Disk, t: Chain.AuditRecord, now: int)
    requires HashesOk(ctx) && Recoverable(ctx, d)
    ensures var d' := Repaired(ctx, d, t, now);
            var tail := Chain.TailOf(d'.audit);
            Synced(ctx, d') && View(ctx, d') == View(ctx, d).(hwmSeq := tail.seqNo, hwmHash := tail.hash)
  {
    hide ReplayAll, Chain.ValidChain, NextAudit;
    var before, tail := View(ctx, d), Chain.TailOf(d.audit);
    var st := before.(hwmSeq := tail.seqNo, hwmHash := tail.hash);
    NextAuditExtends(ctx, d.audit, st, t);
    var r := NextAudit(ctx, st, t);
    LastHashLength(ctx, d.audit + [r], st.ledgerId);
    ReplayGives(ctx, d);
    AppendRecord(ctx, d, HwmRecord(st.ledgerId, ctx.pol.gatewayId, r.seqNo, r.recordHash, now));
  }

  lemma StateHalf(ctx: Ctx, sc: StateCodec, ac: A.AuditCodec, d: Disk, img: Image, p: string, q: string)
    requires F.CodecOk(sc) && Recoverable(ctx, d) && TornFiles(sc, ac, d, img, p, q)
    ensures TruncateState(sc, img.state, ctx.pol.gatewayId) == Ok((F.Frame(sc, d.state), p != ""))
    ensures ApplyText(sc, EMPTY, F.Frame(sc, d.state), ctx.pol.gatewayId, true) == Ok(View(ctx, d))
  {
    hide TruncateState, ApplyText, Chain.ValidChain, F.AllFit;
    NotEmpty(d.state, ctx.pol.gatewayId);
    ApplyIsReplay(d.state, ctx.pol.gatewayId);
    FramedReplays(sc, EMPTY, d.state, ctx.pol.gatewayId, true);
    if p == "" {
      assert img.state == F.Frame(sc, d.state);
      IntactStateIsKept(sc, d.state, ctx.pol.gatewayId);
    } else {
      TornStateIsCut(sc, d.state, p, ctx.pol.gatewayId);
    }
  }

  lemma AuditHalf(ctx: Ctx, sc: StateCodec, ac: A.AuditCodec, d: Disk, img: Image, p: string, q: string)
    requires F.CodecOk(ac) && Recoverable(ctx, d) && TornFiles(sc, ac, d, img, p, q)
    ensures var id := View(ctx, d).ledgerId;
            TruncateAudit(ac, ctx.h, img.audit, ctx.pol.gatewayId, id) == Ok((F.Frame(ac, d.audit), q != ""))
            && KeptTail(ac, ctx.h, img.audit, q != "", ctx.pol.gatewayId, id) == Chain.TailOf(d.audit)
  {
    hide TruncateAudit, ReplayAll, Chain.ValidChain, A.ChainLines, Kept, F.AllFit;
    var id := View(ctx, d).ledgerId;
    FormatsGive(ac, ctx.h, d.audit, ctx.pol.gatewayId, id);
    if q == "" {
      assert img.audit == F.Frame(ac, d.audit);
      IntactAuditIsKept(ac, ctx.h, d.audit, ctx.pol.gatewayId, id);
    } else {
      TornAuditIsCut(ac, ctx.h, d.audit, q, ctx.pol.gatewayId, id);
    }
  }

  /** Reconciling a recoverable ledger moves the mark to the audit tail. */
  lemma ReconcileRecoverable(ctx: Ctx, d: Disk)
    requires Recoverable(ctx, d)
    ensures var tail := Chain.TailOf(d.audit);
            Reconcile(View(ctx, d), tail) == Ok(View(ctx, d).(hwmSeq := tail.seqNo, hwmHash := tail.hash))
  {
    hide ReplayAll, Chain.ValidChain;
  }

  lemma FrameSnoc<R>(c: F.Codec<R>, recs: seq<R>, r: R)
    ensures F.Frame(c, recs + [r]) == F.Frame(c, recs) + c.format(r) + "\n"
  {
    assert (recs + [r])[..|recs|] == recs;
  }

  /** Main result: from everything a crash may leave, with either file torn inside
      its last line, an uninterrupted repair loses no complete record and ends with
      the audit tail equal to the high-water mark. */
  lemma RepairRestores(ctx: Ctx, sc: StateCodec, ac: A.AuditCodec, d: Disk, img: Image, p: string, q: string,
                       template: (bool, bool) -> Chain.AuditRecord, now: int)
    requires HashesOk(ctx) && F.CodecOk(sc) && F.CodecOk(ac)
    requires Recoverable(ctx, d) && TornFiles(sc, ac, d, img, p, q)
    ensures var d' := Repaired(ctx, d, template(p != "", q != ""), now);
            && RepairText(ctx, sc, ac, img, template, now) == Repair(Image(img.gen, F.Frame(sc, d'.state), F.Frame(ac, d'.audit)), None)
            && Synced(ctx, d') && d.state <= d'.state && d.audit <= d'.audit
            && SameMeaning(View(ctx, d').(hwmSeq := View(ctx, d).hwmSeq, hwmHash := View(ctx, d).hwmHash), View(ctx, d))
  {
    hide TruncateState, TruncateAudit, ReplayAll, Chain.ValidChain, Chain.TailOf, ApplyText, KeptTail, F.AllFit,
         F.Frame, NextAudit, Reconcile, F.CodecOk;
    var t := template(p != "", q != "");
    RepairedIsSynced(ctx, d, t, now);
    StateHalf(ctx, sc, ac, d, img, p, q);
    AuditHalf(ctx, sc, ac, d, img, p, q);
    ReconcileRecoverable(ctx, d);
    var st := Reconcile(View(ctx, d), Chain.TailOf(d.audit)).value;
    var r := NextAudit(ctx, st, t);
    var hwm := HwmRecord(st.ledgerId, ctx.pol.gatewayId, r.seqNo, r.recordHash, now);
    FrameSnoc(sc, d.state, hwm);
    FrameSnoc(ac, d.audit, r);
    assert F.Frame(sc, d.state) + HwmLine(sc, ctx, st, r, now) == F.Frame(sc, d.state) + sc.format(hwm) + "\n";
  }

  // ----- exactly what can be repaired -----

  /** What may stand after the complete lines of state.db: nothing, part of a line, or one line
      that does not parse. */
  ghost predicate BrokenState(c: StateCodec, p: string) {
    F.OneLine(p) || exists line :: F.OneLine(line) && p == line + "\n" && c.parse(line).None?
  }

  /** The same after a log: or one line that does not verify at its place. */
  ghost predicate BrokenAudit(c: A.AuditCodec, h: Chain.Hasher, log: seq<Chain.AuditRecord>, q: string, gw: string, id: string) {
    F.OneLine(q) || exists line :: F.OneLine(line) && q == line + "\n"
                                   && !A.LineVerifies(c, h, line, |log| + 1, Chain.PrevOf(log, |log|), gw, id)
  }

  lemma BrokenStateIsCut(c: StateCodec, recs: seq<StateRecord>, p: string, gw: string)
    requires F.FormatOk(c) && F.AllFit(c, recs) && ReplayAll(recs, gw).Ok? && BrokenState(c, p)
    ensures TruncateState(c, F.Frame(c, recs) + p, gw) == Ok((F.Frame(c, recs), p != ""))
  {
    hide TruncateState, ReplayAll;
    NotEmpty(recs, gw);
    if p == "" {
      assert F.Frame(c, recs) + p == F.Frame(c, recs);
      IntactStateIsKept(c, recs, gw);
    } else if F.OneLine(p) {
      TornStateIsCut(c, recs, p, gw);
    } else {
      var line :| F.OneLine(line) && p == line + "\n" && c.parse(line).None?;
      BadStateLineIsCut(c, recs, line, gw);
    }
  }

  lemma BadAuditLineIsCut(c: A.AuditCodec, h: Chain.Hasher, log: seq<Chain.AuditRecord>, line: string, gw: string, id: string)
    requires F.FormatOk(c) && F.AllFit(c, log) && log != [] && Chain.ValidChain(h, log, gw, id) && F.OneLine(line)
    requires !A.LineVerifies(c, h, line, |log| + 1, Chain.PrevOf(log, |log|), gw, id)
    ensures TruncateAudit(c, h, F.Frame(c, log) + (line + "\n"), gw, id) == Ok((F.Frame(c, log), true))
    ensures Kept(F.Frame(c, log) + (line + "\n"), true) == F.Formats(c, log)
  {
    hide Chain.ValidChain, A.ChainLines, A.LineVerifies;
    var data := F.Frame(c, log) + (line + "\n");
    MoreLines(c, log, line);
    FormatsGive(c, h, log, gw, id);
    var lines := F.Formats(c, log) + [line];
    assert lines[..|log|] == F.Formats(c, log);
    A.ChainLinesSnoc(c, h, lines, |log|, gw, id);
    assert lines[..|log| + 1] == lines && lines[..|lines| - 1] == lines[..|log|];
  }

  lemma BrokenAuditIsCut(c: A.AuditCodec, h: Chain.Hasher, log: seq<Chain.AuditRecord>, q: string, gw: string, id: string)
    requires F.FormatOk(c) && F.AllFit(c, log) && log != [] && Chain.ValidChain(h, log, gw, id)
    requires BrokenAudit(c, h, log, q, gw, id)
    ensures TruncateAudit(c, h, F.Frame(c, log) + q, gw, id) == Ok((F.Frame(c, log), q != ""))
    ensures KeptTail(c, h, F.Frame(c, log) + q, q != "", gw, id) == Chain.TailOf(log)
  {
    hide TruncateAudit, Chain.ValidChain, A.ChainLines, Kept, A.LineVerifies, Chain.TailOf;
    FormatsGive(c, h, log, gw, id);
    if q == "" {
      assert F.Frame(c, log) + q == F.Frame(c, log);
      IntactAuditIsKept(c, h, log, gw, id);
    } else if F.OneLine(q) {
      TornAuditIsCut(c, h, log, q, gw, id);
    } else {
      var line :| F.OneLine(line) && q == line + "\n" && !A.LineVerifies(c, h, line, |log| + 1, Chain.PrevOf(log, |log|), gw, id);
      BadAuditLineIsCut(c, h, log, line, gw, id);
    }
  }

  /** The files of d, each followed by what a repair cuts off. */
  ghost predicate BrokenFiles(ctx: Ctx, sc: StateCodec, ac: A.AuditCodec, d: Disk, img: Image, p: string, q: string) {
    && Recoverable(ctx, d) && F.AllFit(sc, d.state) && F.AllFit(ac, d.audit)
    && img.state == F.Frame(sc, d.state) + p && img.audit == F.Frame(ac, d.audit) + q
    && BrokenState(sc, p) && BrokenAudit(ac, ctx.h, d.audit, q, ctx.pol.gatewayId, View(ctx, d).ledgerId)
    && |img.state| <= 67108864 && |img.audit| <= 67108864
  }

  /** A repair of such files goes through: only what is broken is lost, and the marks and
      one record are added. */
  lemma BrokenFilesAreRepaired(ctx: Ctx, sc: StateCodec, ac: A.AuditCodec, d: Disk, img: Image, p: string, q: string,
                               template: (bool, bool) -> Chain.AuditRecord, now: int)
    requires HashesOk(ctx) && F.CodecOk(sc) && F.CodecOk(ac) && BrokenFiles(ctx, sc, ac, d, img, p, q)
    ensures var d' := Repaired(ctx, d, template(p != "", q != ""), now);
            && RepairText(ctx, sc, ac, img, template, now) == Repair(Image(img.gen, F.Frame(sc, d'.state), F.Frame(ac, d'.audit)), None)
            && Synced(ctx, d') && d.state <= d'.state && d.audit <= d'.audit
  {
    hide TruncateState, TruncateAudit, ReplayAll, Chain.ValidChain, Chain.TailOf, ApplyText, KeptTail, F.AllFit,
         F.Frame, NextAudit, Reconcile, BrokenState, BrokenAudit;
    var t := template(p != "", q != "");
    RepairedIsSynced(ctx, d, t, now);
    BrokenStateIsCut(sc, d.state, p, ctx.pol.gatewayId);
    NotEmpty(d.state, ctx.pol.gatewayId);
    ApplyIsReplay(d.state, ctx.pol.gatewayId);
    FramedReplays(sc, EMPTY, d.state, ctx.pol.gatewayId, true);
    BrokenAuditIsCut(ac, ctx.h, d.audit, q, ctx.pol.gatewayId, View(ctx, d).ledgerId);
    ReconcileRecoverable(ctx, d);
    var st := Reconcile(View(ctx, d), Chain.TailOf(d.audit)).value;
    var r := NextAudit(ctx, st, t);
    var hwm := HwmRecord(st.ledgerId, ctx.pol.gatewayId, r.seqNo, r.recordHash, now);
    FrameSnoc(sc, d.state, hwm);
    FrameSnoc(ac, d.audit, r);
    assert F.Frame(sc, d.state) + HwmLine(sc, ctx, st, r, now) == F.Frame(sc, d.state) + sc.format(hwm) + "\n";
  }

  lemma CutStateIsBroken(c: StateCodec, data: string, gw: string) returns (recs: seq<StateRecord>, p: string)
    requires F.CodecOk(c) && TruncateState(c, data, gw).Ok?
    ensures F.AllFit(c, recs) && recs != [] && BrokenState(c, p)
    ensures data == F.Frame(c, recs) + p && TruncateState(c, data, gw).value.0 == F.Frame(c, recs)
  {
    hide TruncateState, F.EndsLine, F.OneLine;
    TruncationRemovesOneLine(c, data, gw);
    var kept := TruncateState(c, data, gw).value.0;
    F.FrameUnframe(c, kept);
    recs := F.Unframe(c, kept).value;
    if TruncateState(c, data, gw).value.1 {
      var line: string :| RemovedLine(c, data, kept, line);
      p := if F.EndsLine(data) then line + "\n" else line;
      assert kept + (line + "\n") == kept + line + "\n";
    } else {
      p := "";
      assert data == kept + p;
      EmptyIsOneLine();
    }
  }

  lemma EmptyIsOneLine()
    ensures F.OneLine("")
  {
  }

  /** The lines of a valid chain are the formats of its records. */
  lemma ChainedAreFormats(c: A.AuditCodec, h: Chain.Hasher, lines: seq<string>, gw: string, id: string)
    requires F.CodecOk(c) && A.ChainLines(c, h, lines, gw, id).Some?
    ensures var log := A.ChainLines(c, h, lines, gw, id).value;
            F.AllFit(c, log) && |log| == |lines| && F.Join(lines) == F.Frame(c, log) && Chain.ValidChain(h, log, gw, id)
  {
    hide Chain.ValidChain;
    F.ParsedLines(c, lines);
    F.FrameIsJoin(c, A.ChainLines(c, h, lines, gw, id).value);
  }

  lemma CutAuditIsBroken(c: A.AuditCodec, h: Chain.Hasher, data: string, gw: string, id: string)
      returns (log: seq<Chain.AuditRecord>, q: string)
    requires F.CodecOk(c) && TruncateAudit(c, h, data, gw, id).Ok?
    ensures F.AllFit(c, log) && log != [] && BrokenAudit(c, h, log, q, gw, id) && Chain.ValidChain(h, log, gw, id)
    ensures data == F.Frame(c, log) + q && TruncateAudit(c, h, data, gw, id).value.0 == F.Frame(c, log)
    ensures KeptTail(c, h, data, TruncateAudit(c, h, data, gw, id).value.1, gw, id) == Chain.TailOf(log)
  {
    hide A.ChainLines, Chain.ValidChain, F.EndsLine, F.OneLine, F.Join, RawLines, A.LineVerifies, Chain.TailOf;
    var lines := RawLines(data);
    var n := |lines| - 1;
    var cut := TruncateAudit(c, h, data, gw, id).value.1;
    RawLinesAreSingle(data);
    JoinedRaw(data);
    if cut {
      ChainedAreFormats(c, h, lines[..n], gw, id);
      log := A.ChainLines(c, h, lines[..n], gw, id).value;
      var line := lines[n];
      assert lines == lines[..n] + [line];
      F.JoinConcat(lines[..n], [line]);
      JoinOne(line);
      LastLineOf(data, F.Frame(c, log), line);
      if F.EndsLine(data) {
        q := line + "\n";
        A.ChainLinesSnoc(c, h, lines, n, gw, id);
        assert lines[..n + 1] == lines;
        assert F.Frame(c, log) + q == F.Frame(c, log) + line + "\n";
      } else {
        q := line;
      }
    } else {
      ChainedAreFormats(c, h, lines, gw, id);
      log := A.ChainLines(c, h, lines, gw, id).value;
      q := "";
      EmptyIsOneLine();
      assert F.Frame(c, log) + q == data;
    }
  }

  /** Main result: a repair succeeds exactly on files that hold a ledger which is synced or one
      record ahead of its mark, each followed by at most one incomplete or bad line; so it
      accepts no other damage, and never a log that does not match the mark. */
  lemma RepairSucceedsIff(ctx: Ctx, sc: StateCodec, ac: A.AuditCodec, img: Image,
                          template: (bool, bool) -> Chain.AuditRecord, now: int)
    requires HashesOk(ctx) && F.CodecOk(sc) && F.CodecOk(ac)
    ensures RepairText(ctx, sc, ac, img, template, now).error == None <==> exists d, p, q :: BrokenFiles(ctx, sc, ac, d, img, p, q)
  {
    hide TruncateState, TruncateAudit, ReplayAll, Chain.ValidChain, Chain.TailOf, ApplyText, KeptTail, F.AllFit, F.Frame,
         NextAudit, BrokenState, BrokenAudit;
    if RepairText(ctx, sc, ac, img, template, now).error == None {
      var recs, p := CutStateIsBroken(sc, img.state, ctx.pol.gatewayId);
      ApplyIsReplay(recs, ctx.pol.gatewayId);
      FramedReplays(sc, EMPTY, recs, ctx.pol.gatewayId, true);
      var st := ReplayAll(recs, ctx.pol.gatewayId).value;
      var log, q := CutAuditIsBroken(ac, ctx.h, img.audit, ctx.pol.gatewayId, st.ledgerId);
      assert BrokenFiles(ctx, sc, ac, Disk(recs, log), img, p, q);
    }
    if d, p, q :| BrokenFiles(ctx, sc, ac, d, img, p, q) {
      BrokenFilesAreRepaired(ctx, sc, ac, d, img, p, q, template, now);
    }
  }
}
