/** RevokeGrantCLI: its input checks, and when the ledger can be read after it (internal/authz/statedb.go). */
module LedgerRevoke {
  import opened Json
  import opened StateFits
  import opened LedgerState
  import opened LedgerOps
  import opened LedgerTrace
  import opened LedgerSafety
  import opened LedgerRuns
  import opened StateFile
  import opened LedgerFiles
  import opened LedgerSound
  import LedgerProcess
  import JsonRecord
  import StateLine
  import AuditLine
  import Chain = AuditChain
  import F = Framing

  // ----- the arguments -----

  datatype Revocation = Revocation(subject: string, ent: string, operator: string, ticket: string)

  predicate ArgOk(s: string) {
    SafeString(s) && '\r' !in s && '\n' !in s && '\t' !in s
  }

  function Trim(s: string): string {
    TrimRight(TrimLeft(s))
  }

  function Trimmed(raw: Revocation): Revocation {
    Revocation(Trim(raw.subject), Trim(raw.ent), Trim(raw.operator), Trim(raw.ticket))
  }

  /** The checks before the ledger is opened; ticketOk is the policy's pattern. */
  function Checked(raw: Revocation, ticketOk: string -> bool): Option<Revocation> {
    var a := Trimmed(raw);
    if !(ArgOk(raw.subject) && ArgOk(raw.ent) && ArgOk(raw.operator) && ArgOk(raw.ticket)) then None
    else if a.subject == "" || a.ent == "" || a.operator == "" || a.ticket == "" || !ticketOk(a.ticket) then None
    else Some(a)
  }

  /** The loop over the four fields. */
  method CheckRevocation(raw: Revocation, ticketOk: string -> bool) returns (r: Option<Revocation>)
    ensures r == Checked(raw, ticketOk)
  {
    hide ArgOk, TrimLeft, TrimRight;
    var fields := [raw.subject, raw.ent, raw.operator, raw.ticket];
    for i := 0 to |fields|
      invariant forall j | 0 <= j < i :: ArgOk(fields[j])
    {
      if !ArgOk(fields[i]) {
        return None;
      }
    }
    assert ArgOk(fields[0]) && ArgOk(fields[1]) && ArgOk(fields[2]) && ArgOk(fields[3]);
    var a := Trimmed(raw);
    if a.subject == "" || a.ent == "" || a.operator == "" || a.ticket == "" || !ticketOk(a.ticket) {
      return None;
    }
    return Some(a);
  }

  /** Exactly which arguments are let through, and as what. */
  lemma CheckedIff(raw: Revocation, ticketOk: string -> bool, a: Revocation)
    ensures Checked(raw, ticketOk) == Some(a) <==>
            && (forall s, i :: s in [raw.subject, raw.ent, raw.operator, raw.ticket] && 0 <= i < |s| ==>
                  SafeChar(s[i]) && s[i] != '\r' && s[i] != '\n' && s[i] != '\t')
            && a.subject == TrimRight(TrimLeft(raw.subject)) && a.ent == TrimRight(TrimLeft(raw.ent))
            && a.operator == TrimRight(TrimLeft(raw.operator)) && a.ticket == TrimRight(TrimLeft(raw.ticket))
            && a.subject != "" && a.ent != "" && a.operator != "" && a.ticket != "" && ticketOk(a.ticket)
  {
    hide TrimLeft, TrimRight, SafeChar, ArgOk;
    var args := [raw.subject, raw.ent, raw.operator, raw.ticket];
    assert args[0] == raw.subject && args[1] == raw.ent && args[2] == raw.operator && args[3] == raw.ticket;
    forall s ensures ArgOk(s) <==> forall i :: 0 <= i < |s| ==> SafeChar(s[i]) && s[i] != '\r' && s[i] != '\n' && s[i] != '\t' {
      ArgOkIff(s);
    }
  }

  lemma ArgOkIff(s: string)
    ensures ArgOk(s) <==> forall i :: 0 <= i < |s| ==> SafeChar(s[i]) && s[i] != '\r' && s[i] != '\n' && s[i] != '\t'
  {
    hide SafeChar;
  }

  lemma {:induction false} TrimLeftSafe(s: string)
    requires SafeString(s)
    ensures SafeString(TrimLeft(s))
  {
    if s != "" && IsSpace(s[0]) {
      TrimLeftSafe(s[1..]);
    }
  }

  lemma {:induction false} TrimRightSafe(s: string)
    requires SafeString(s)
    ensures SafeString(TrimRight(s))
  {
    if s != "" && IsSpace(s[|s| - 1]) {
      TrimRightSafe(s[..|s| - 1]);
    }
  }

  lemma TrimSafe(s: string)
    requires SafeString(s)
    ensures SafeString(Trim(s))
  {
    TrimLeftSafe(s);
    TrimRightSafe(TrimLeft(s));
  }

  function Value(a: Revocation): string {
    a.operator + ":" + a.ticket
  }

  lemma CheckedIsSafe(raw: Revocation, ticketOk: string -> bool)
    requires Checked(raw, ticketOk).Some?
    ensures var a := Checked(raw, ticketOk).value;
            SafeString(a.subject) && SafeString(a.ent) && SafeString(Value(a))
  {
    hide Trim;
    TrimSafe(raw.subject);
    TrimSafe(raw.ent);
    TrimSafe(raw.operator);
    TrimSafe(raw.ticket);
  }

  function RecordOf(id: string, gw: string, a: Revocation, now: int): StateRecord {
    RevokeRecord(id, gw, a.subject, a.ent, Value(a), now)
  }

  // ----- the line it writes -----

  /** Main result: for everything the checks let through, the line reads back exactly
      when it takes at most 64 KiB. */
  lemma RevocationParsesIff(crc: StateLine.Crc, id: string, gw: string, raw: Revocation, ticketOk: string -> bool, now: int)
    requires CrcOk(crc) && Checked(raw, ticketOk).Some? && IsInt53(now) && SafeString(id) && SafeString(gw)
    ensures var rec := RecordOf(id, gw, Checked(raw, ticketOk).value, now);
            StateLine.Parse(crc, StateLine.Format(crc, rec))
            == if Utf8Length(StateLine.Format(crc, rec)) <= 65536 then F.Some(rec) else F.None
  {
    hide Checked, SafeString, Utf8Length, StateLine.Fits, StateLine.Format, StateLine.Parse;
    CheckedIsSafe(raw, ticketOk);
    NothingIsSafe();
    LineParsesIff(crc, RecordOf(id, gw, Checked(raw, ticketOk).value, now));
  }

  lemma NothingIsSafe()
    ensures SafeString("")
  {
  }

  /** A subject of n letters. */
  function Letters(n: nat): string {
    seq(n, _ => 'a')
  }

  lemma TrimmedAlready(s: string)
    requires s != "" && !IsSpace(s[0]) && !IsSpace(s[|s| - 1])
    ensures Trim(s) == s
  {
  }

  lemma LettersAreOk(n: nat)
    requires n > 0
    ensures ArgOk(Letters(n)) && Trim(Letters(n)) == Letters(n)
  {
    hide Trim;
    TrimmedAlready(Letters(n));
  }

  lemma WordsAreOk()
    ensures ArgOk("write") && ArgOk("ops") && ArgOk("T1")
    ensures Trim("write") == "write" && Trim("ops") == "ops" && Trim("T1") == "T1"
  {
    hide Trim;
    TrimmedAlready("write");
    TrimmedAlready("ops");
    TrimmedAlready("T1");
  }

  function OverlongRevocation(n: nat): Revocation {
    Revocation(Letters(n), "write", "ops", "T1")
  }

  /** The checks let subjects of any length through. */
  lemma OverlongIsChecked(n: nat)
    requires n > 0
    ensures Checked(OverlongRevocation(n), _ => true) == Some(OverlongRevocation(n))
  {
    hide ArgOk, Trim;
    LettersAreOk(n);
    WordsAreOk();
  }

  /** A line with a subject of more than 65536 characters is written and never read again. */
  lemma OverlongSubject(crc: StateLine.Crc, id: string, gw: string, raw: Revocation, ticketOk: string -> bool, now: int)
    requires CrcOk(crc) && IsInt53(now) && Checked(raw, ticketOk).Some? && |Checked(raw, ticketOk).value.subject| > 65536
    ensures StateLine.Parse(crc, StateLine.Format(crc, RecordOf(id, gw, Checked(raw, ticketOk).value, now))) == F.None
  {
    hide StateLine.Parse, StateLine.Format, Checked;
    ZeroIsInt53();
    OverlongKey(crc, RecordOf(id, gw, Checked(raw, ticketOk).value, now));
  }

  // ----- the ledger after it -----

  function RevokeOp(a: Revocation, t: Chain.AuditRecord): Op {
    Op.Revoke(a.subject, a.ent, Value(a), t)
  }

  /** The text of state.db after a revocation that did not compact. */
  lemma RevokedText(ctx: Ctx, k: Codecs, img: Image, img': Image, view: State, a: Revocation, t: Chain.AuditRecord,
                    tail: Chain.Tail, now: int) returns (hwm: string)
    requires Performed(ctx, k, img, img', view, RevokeOp(a, t), tail, now, None)
    ensures img'.state == img.state + (k.state.format(RecordOf(view.ledgerId, ctx.pol.gatewayId, a, now)) + "\n") + (hwm + "\n")
  {
    hide NextAudit, LoadSpec, SameMeaning;
    var op := RevokeOp(a, t);
    var rec := RecordOf(view.ledgerId, ctx.pol.gatewayId, a, now);
    TwoParts(ctx, k, img, view, op, tail, now, None);
    LedgerProcess.FrameOne(k.state, rec);
    var mid := img.(state := img.state + F.Frame(k.state, [rec]));
    var st := AfterPrelude(ctx, view, op, tail, now);
    LedgerProcess.PairText(ctx, k, mid, st, t, now);
    var r := NextAudit(ctx, st, t);
    hwm := k.state.format(HwmRecord(st.ledgerId, ctx.pol.gatewayId, r.seqNo, r.recordHash, now));
  }

  /** A file with a line that does not parse never loads, whatever follows the line. */
  lemma BadLineStops(c: StateCodec, gw: string, img: Image, before: string, line: string, after: string)
    requires F.EndsLine(before) && F.OneLine(line) && c.parse(line).None?
    requires img.state == before + (line + "\n") + after
    ensures LoadSpec(c, gw, img).Err?
  {
    hide F.EndsLine, F.LinesOf, FoldLines;
    if LoadSpec(c, gw, img).Ok? {
      F.LineStands(before, line, after);
      FoldedLinesParse(c, EMPTY, F.LinesOf(img.state), gw, true);
    }
  }

  lemma LoadedEndsLine(c: StateCodec, gw: string, img: Image)
    requires LoadSpec(c, gw, img).Ok?
    ensures F.EndsLine(img.state)
  {
    hide FoldLines;
  }

  /** After a revocation whose line is too long the ledger never loads again,
      whatever other processes append to it. */
  lemma OverlongRevocationStops(ctx: Ctx, crc: StateLine.Crc, img: Image, img': Image, view: State, a: Revocation,
                                t: Chain.AuditRecord, tail: Chain.Tail, now: int, more: string)
    requires CrcOk(crc) && IsInt53(now)
    requires Performed(ctx, RealCodecs(crc), img, img', view, RevokeOp(a, t), tail, now, None)
    requires Utf8Length(StateLine.Format(crc, RecordOf(view.ledgerId, ctx.pol.gatewayId, a, now))) > 65536
    ensures LoadSpec(RealCodecs(crc).state, ctx.pol.gatewayId, img'.(state := img'.state + more)).Err?
  {
    hide LoadSpec, StateLine.Parse, StateLine.Format, Utf8Length, F.EndsLine, F.OneLine, StateLine.Fits, OpWrites,
         PutAll, SameMeaning;
    var c, gw := RealCodecs(crc).state, ctx.pol.gatewayId;
    var rec := RecordOf(view.ledgerId, gw, a, now);
    LoadedEndsLine(c, gw, img);
    var hwm := RevokedText(ctx, RealCodecs(crc), img, img', view, a, t, tail, now);
    ZeroIsInt53();
    LineParsesIff(crc, rec);
    LineIsOneLine(crc, rec);
    var line := StateLine.Format(crc, rec);
    assert img'.state + more == img.state + (line + "\n") + ((hwm + "\n") + more);
    BadLineStops(c, gw, img'.(state := img'.state + more), img.state, line, (hwm + "\n") + more);
  }

  lemma LineIsOneLine(crc: StateLine.Crc, r: StateRecord)
    ensures F.OneLine(StateLine.Format(crc, r))
  {
    hide Text;
    JsonRecord.TextIsOneLine(StateLine.JsonOf(crc, r));
  }

  /** What is known of the ledger and the audit record before the revocation. */
  ghost predicate SoundBefore(ctx: Ctx, crc: StateLine.Crc, img: Image, d: Disk, view: State, op: Op, now: int) {
    && HexHashes(ctx) && HoldsSound(ctx, crc, img, d) && SoundStart(view, Chain.TailOf(d.audit)) && Good(ctx.pol.gatewayId)
    && OpOk(ctx, op, now) && op.Revoke? && SoundTemplate(op.t) && AuditLineFits(ctx, view, op, Chain.TailOf(d.audit), now)
  }

  lemma RevokeWritesFit(ctx: Ctx, crc: StateLine.Crc, img: Image, d: Disk, view: State, a: Revocation, t: Chain.AuditRecord,
                        now: int)
    requires CrcOk(crc) && IsInt53(now) && SoundBefore(ctx, crc, img, d, view, RevokeOp(a, t), now)
    requires StateLine.Fits(crc, RecordOf(view.ledgerId, ctx.pol.gatewayId, a, now))
    ensures WritesFit(RealCodecs(crc), OpWrites(ctx, view, RevokeOp(a, t), Chain.TailOf(d.audit), now, None))
  {
    hide HoldsSound, StateLine.Fits, AuditLine.Fits, SoundState, Good, SoundTemplate, Utf8Length, AuditLine.Format,
         NextAudit, HexHashes, Chain.TailOf, RemoveGrant, SoundRecord, AuditWrites, WriteFits, Value;
    var tail := Chain.TailOf(d.audit);
    var op := RevokeOp(a, t);
    var st := AfterPrelude(ctx, view, op, tail, now);
    RevokeIsSound(view, a.subject, a.ent);
    AddGrantKeepsRest(view, RevokeRecord("", "", a.subject, a.ent, "", now));
    AuditWritesAreSound(ctx, st, t, now, None);
    SoundWritesFit(crc, AuditWrites(ctx, st, t, now, None));
    var rec := RecordOf(view.ledgerId, ctx.pol.gatewayId, a, now);
    PutFits(crc, rec);
    assert OpWrites(ctx, view, op, tail, now, None) == [PutState(rec)] + AuditWrites(ctx, st, t, now, None);
  }

  lemma PutFits(crc: StateLine.Crc, rec: StateRecord)
    requires StateLine.Fits(crc, rec)
    ensures WriteFits(RealCodecs(crc), PutState(rec))
  {
  }

  /** Main result: a ledger of sound records loads after a checked revocation, as long as
      the files are within the size limit, exactly when the line takes at most 64 KiB. */
  lemma RevokedLedgerLoadsIff(ctx: Ctx, crc: StateLine.Crc, img: Image, img': Image, d: Disk, view: State,
                              raw: Revocation, ticketOk: string -> bool, t: Chain.AuditRecord, now: int)
    requires CrcOk(crc) && IsInt53(now) && Checked(raw, ticketOk).Some?
    requires SoundBefore(ctx, crc, img, d, view, RevokeOp(Checked(raw, ticketOk).value, t), now)
    requires Performed(ctx, RealCodecs(crc), img, img', view, RevokeOp(Checked(raw, ticketOk).value, t),
                       Chain.TailOf(d.audit), now, None)
    requires |img'.state| <= MAX_FILE && |img'.audit| <= MAX_FILE
    ensures LoadSpec(RealCodecs(crc).state, ctx.pol.gatewayId, img').Ok? <==>
            Utf8Length(StateLine.Format(crc, RecordOf(view.ledgerId, ctx.pol.gatewayId, Checked(raw, ticketOk).value, now))) <= 65536
  {
    var a := Checked(raw, ticketOk).value;
    var rec := RecordOf(view.ledgerId, ctx.pol.gatewayId, a, now);
    var tail := Chain.TailOf(d.audit);
    hide Checked, StateLine.Parse, StateLine.Format, Utf8Length, StateLine.Fits, OpWrites, PutAll, SameMeaning, LoadSpec,
         Recoverable, Synced, SodSafe, View, Represents, OrderOk, SoundState, SoundTemplate, AuditLineFits, HexHashes,
         Chain.TailOf, OpOk, WritesFit, DiskAfter, F.CodecOk, AfterOp, SoundRecords;
    if Utf8Length(StateLine.Format(crc, rec)) <= 65536 {
      CheckedIsSafe(raw, ticketOk);
      RevocationFits(ctx, crc, view, a, tail, now);
      RevokeWritesFit(ctx, crc, img, d, view, a, t, now);
      StateLine.LineCodecOk(crc);
      HexIsHashesOk(ctx);
      SyncedRecovers(ctx, d);
      PerformedKeepsLedger(ctx, RealCodecs(crc), img, img', d, view, RevokeOp(a, t), now, None);
      var d' := DiskAfter(d, OpTrace(ctx, view, RevokeOp(a, t), tail, now, None));
      SyncedRecovers(ctx, d');
      LedgerProcess.WillLoad(ctx, RealCodecs(crc), img', d');
    } else {
      OverlongRevocationStops(ctx, crc, img, img', view, a, t, tail, now, "");
      assert img'.(state := img'.state + "") == img';
    }
  }

  lemma SyncedRecovers(ctx: Ctx, d: Disk)
    requires Synced(ctx, d)
    ensures Recoverable(ctx, d)
  {
  }

  lemma HexIsHashesOk(ctx: Ctx)
    requires HexHashes(ctx)
    ensures HashesOk(ctx)
  {
  }

  lemma RevocationFits(ctx: Ctx, crc: StateLine.Crc, view: State, a: Revocation, tail: Chain.Tail, now: int)
    requires CrcOk(crc) && IsInt53(now) && SoundStart(view, tail) && Good(ctx.pol.gatewayId)
    requires SafeString(a.subject) && SafeString(a.ent) && SafeString(Value(a))
    requires Utf8Length(StateLine.Format(crc, RecordOf(view.ledgerId, ctx.pol.gatewayId, a, now))) <= 65536
    ensures StateLine.Fits(crc, RecordOf(view.ledgerId, ctx.pol.gatewayId, a, now))
  {
    hide SafeString, Utf8Length, StateLine.Fits, StateLine.Format, StateLine.Parse, SoundGrants;
    NothingIsSafe();
    LineParsesIff(crc, RecordOf(view.ledgerId, ctx.pol.gatewayId, a, now));
  }
}
