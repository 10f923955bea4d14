/** Reading audit.jsonl (verifyAuditChainFile in internal/authz/statedb.go). */
module AuditFile {
  import opened AuditChain
  import F = Framing

  type AuditCodec = F.Codec<AuditRecord>

  /** The records of lines that verify as a chain. */
  function ChainLines(c: AuditCodec, h: Hasher, lines: seq<string>, gw: string, id: string): Option<seq<AuditRecord>> {
    match F.ParseAll(c, lines)
    case None => None
    case Some(recs) => if ValidChain(h, recs, gw, id) then Some(recs) else None
  }

  /** The records of a file that verifies as a chain. */
  function ChainOf(c: AuditCodec, h: Hasher, data: string, gw: string, id: string): Option<seq<AuditRecord>> {
    if !F.EndsLine(data) then None else ChainLines(c, h, F.LinesOf(data), gw, id)
  }

  /** A line verifies at its place in the chain. */
  predicate LineVerifies(c: AuditCodec, h: Hasher, line: string, seqNo: nat, prev: string, gw: string, id: string) {
    c.parse(line).Some? && LineOk(h, c.parse(line).value, seqNo, prev, gw, id)
  }

  lemma ChainLinesSnoc(c: AuditCodec, h: Hasher, lines: seq<string>, i: nat, gw: string, id: string)
    requires i < |lines| && ChainLines(c, h, lines[..i], gw, id).Some?
    ensures var recs := ChainLines(c, h, lines[..i], gw, id).value;
            |recs| == i
            && ChainLines(c, h, lines[..i + 1], gw, id)
               == if LineVerifies(c, h, lines[i], i + 1, PrevOf(recs, i), gw, id)
                  then Some(recs + [c.parse(lines[i]).value]) else None
  {
    hide LineOk, ValidChain;
    var recs := ChainLines(c, h, lines[..i], gw, id).value;
    assert lines[..i + 1][..i] == lines[..i];
    if c.parse(lines[i]).Some? {
      ValidSnoc(h, recs, c.parse(lines[i]).value, gw, id);
    }
  }

  /** A prefix that fails makes the whole fail. */
  lemma {:induction false} FailsBeyond(c: AuditCodec, h: Hasher, lines: seq<string>, n: nat, gw: string, id: string)
    requires n <= |lines| && ChainLines(c, h, lines[..n], gw, id).None?
    ensures ChainLines(c, h, lines, gw, id).None?
    decreases |lines|
  {
    hide ValidChain;
    if n == |lines| {
      assert lines[..n] == lines;
    } else {
      var init := lines[..|lines| - 1];
      assert init[..n] == lines[..n];
      FailsBeyond(c, h, init, n, gw, id);
      if F.ParseAll(c, lines).Some? {
        var recs := F.ParseAll(c, lines).value;
        assert recs[..|init|] == F.ParseAll(c, init).value;
        NotValidBeyond(h, recs, |init|, gw, id);
      }
    }
  }

  lemma ChainLinesInit(c: AuditCodec, h: Hasher, lines: seq<string>, gw: string, id: string)
    requires lines != [] && ChainLines(c, h, lines, gw, id).Some?
    ensures ChainLines(c, h, lines[..|lines| - 1], gw, id).Some?
  {
    hide ChainLines;
    if ChainLines(c, h, lines[..|lines| - 1], gw, id).None? {
      FailsBeyond(c, h, lines, |lines| - 1, gw, id);
    }
  }

  /** verifyAuditChainFile on a file within the size limit. */
  method VerifyAuditChainFile(c: AuditCodec, h: Hasher, data: string, gw: string, id: string) returns (ok: bool, tail: Tail)
    ensures ok <==> ChainOf(c, h, data, gw, id).Some?
    ensures ok ==> tail == TailOf(ChainOf(c, h, data, gw, id).value)
  {
    hide LineOk, ValidChain, ChainLines;
    tail := Tail(0, "", "");
    if |data| == 0 || data[|data| - 1] != '\n' {
      return false, tail;
    }
    var lines := F.Split(data[..|data| - 1]);
    var expectedPrev := GENESIS;
    ghost var recs: seq<AuditRecord> := [];
    NoLines(c, h, lines[..0], gw, id);
    for i := 0 to |lines|
      invariant ChainLines(c, h, lines[..i], gw, id) == Some(recs) && |recs| == i
      invariant expectedPrev == PrevOf(recs, i) && tail == TailOf(recs)
    {
      ChainLinesSnoc(c, h, lines, i, gw, id);
      var parsed := c.parse(lines[i]);
      if parsed.None? || !LineOk(h, parsed.value, i + 1, expectedPrev, gw, id) {
        FailsBeyond(c, h, lines, i + 1, gw, id);
        return false, tail;
      }
      tail := Tail(parsed.value.seqNo, parsed.value.prevHash, parsed.value.recordHash);
      expectedPrev := parsed.value.recordHash;
      recs := recs + [parsed.value];
    }
    assert lines[..|lines|] == lines;
    return true, tail;
  }

  lemma NoLines(c: AuditCodec, h: Hasher, lines: seq<string>, gw: string, id: string)
    requires lines == []
    ensures ChainLines(c, h, lines, gw, id) == Some([])
  {
  }

  /** A framed chain is read back. */
  lemma FramedChain(c: AuditCodec, h: Hasher, recs: seq<AuditRecord>, gw: string, id: string)
    requires F.CodecOk(c) && F.AllFit(c, recs) && recs != []
    ensures ChainOf(c, h, F.Frame(c, recs), gw, id) == if ValidChain(h, recs, gw, id) then Some(recs) else None
  {
    hide ValidChain;
    F.UnframeFrame(c, recs);
  }
}
