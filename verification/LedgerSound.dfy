/** The ledger with its real line formats: contents for which every write reads back.

    What the callers pass and what the files hold is bounded once, here; every
    record of every operation then fits its line, compactions included. */
module LedgerSound {
  import opened Json
  import opened StateFits
  import opened LedgerState
  import opened LedgerOps
  import opened Compaction
  import opened LedgerTrace
  import opened LedgerSafety
  import opened LedgerRuns
  import opened LedgerSystem
  import opened StateFile
  import opened LedgerFiles
  import StateLine
  import AuditLine
  import Sanitize
  import Chain = AuditChain
  import F = Framing

  /** Record hashes are 64 hexadecimal digits. */
  ghost predicate HexHashes(ctx: Ctx) {
    forall r :: |ctx.h(r)| == 64 && IsHex(ctx.h(r))
  }

  /** FormatStateRecordLine and the audit log's canonical JSON, with their parsers. */
  ghost function RealCodecs(crc: StateLine.Crc): Codecs {
    Codecs(StateLine.LineCodec(crc), AuditLine.LineCodec())
  }

  // ----- states whose contents can be written again -----

  predicate SoundBudget(b: BudgetEntry) {
    Good(b.principal) && IsInt53(b.count) && IsInt53(b.issuedAt) && IsInt53(b.expiresAt)
  }

  predicate SoundChallenge(c: ChallengeEntry) {
    Good(c.principal) && IsInt53(c.issuedAt) && IsInt53(c.expiresAt)
  }

  ghost predicate SoundGrants(st: State) {
    && (forall s, e :: Granted(st, s, e) ==> Good(s) && Good(e))
    && forall s, e :: s in st.origins && e in st.origins[s] ==> IsInt53(st.origins[s][e])
  }

  ghost predicate SoundState(st: State) {
    && Good(st.ledgerId) && Good(st.hwmHash) && IsInt53(st.hwmSeq)
    && (forall j :: j in st.replays ==> SoundRecord(st.replays[j]))
    && (forall i | 0 <= i < |st.budgets| :: SoundBudget(st.budgets[i]))
    && (forall i | 0 <= i < |st.challenges| :: SoundChallenge(st.challenges[i]))
    && SoundGrants(st)
  }

  ghost predicate SoundRecords(recs: seq<StateRecord>) {
    forall i | 0 <= i < |recs| :: SoundRecord(recs[i])
  }

  lemma AbsorbIsSound(st: State, rec: StateRecord)
    requires SoundState(st) && SoundRecord(rec) && Absorb(st, rec).Ok?
    ensures SoundState(Absorb(st, rec).value)
  {
    hide SafeString, IsInt53;
    if rec.kind == Grant {
      GrantIsSound(st, rec.key, rec.subKey, rec.issuedAt);
    } else if rec.kind == GrantRevoke {
      RevokeIsSound(st, rec.key, rec.subKey);
    } else {
      SameGrantsSound(st, Absorb(st, rec).value);
    }
  }

  lemma GrantIsSound(st: State, s: string, e: string, iat: int)
    requires SoundState(st) && Good(s) && Good(e) && IsInt53(iat)
    ensures SoundState(AddGrant(st, s, e, iat))
  {
    hide Good, IsInt53, SoundRecord;
    GrantEffect(st, s, e, iat);
  }

  lemma RevokeIsSound(st: State, s: string, e: string)
    requires SoundState(st)
    ensures SoundState(RemoveGrant(st, s, e))
  {
    hide Good, IsInt53, SoundRecord;
    GrantEffect(st, s, e, 0);
  }

  lemma StepIsSound(st: State, rec: StateRecord, gw: string, isFirst: bool)
    requires SoundState(st) && SoundRecord(rec) && Step(st, rec, gw, isFirst).Ok?
    ensures SoundState(Step(st, rec, gw, isFirst).value)
  {
    hide Absorb, Good, IsInt53, IsGenesisHeader;
    var st' := Admit(st, rec, gw, isFirst).value;
    assert Good(rec.ledgerId);
    assert forall s, e :: Granted(st', s, e) <==> Granted(st, s, e);
    AbsorbIsSound(st', rec);
  }

  lemma {:induction false} FoldIsSound(st: State, recs: seq<StateRecord>, gw: string, isFirst: bool)
    requires SoundState(st) && SoundRecords(recs) && Fold(st, recs, gw, isFirst).Ok?
    ensures SoundState(Fold(st, recs, gw, isFirst).value)
    decreases |recs|
  {
    hide SoundState, SoundRecord, Step;
    if recs != [] {
      StepIsSound(st, recs[0], gw, isFirst);
      FoldIsSound(Step(st, recs[0], gw, isFirst).value, recs[1..], gw, false);
    }
  }

  /** A file of sound records replays to a sound state. */
  lemma ReplayIsSound(recs: seq<StateRecord>, gw: string)
    requires SoundRecords(recs) && ReplayAll(recs, gw).Ok?
    ensures SoundState(ReplayAll(recs, gw).value)
  {
    hide Fold, SoundRecord;
    assert SoundState(EMPTY);
    FoldIsSound(EMPTY, recs, gw, true);
  }

  // ----- what the callers pass -----

  predicate SoundClaims(pol: Policy, c: Claims) {
    Good(c.jti) && Good(c.intentDigest) && IsInt53(ReplayExpiry(pol, c))
  }

  predicate SoundRequest(pol: Policy, req: Request, now: int) {
    && Good(req.principal) && IsInt53(req.targets) && IsInt53(now + Window(pol))
    && (forall s | s in req.subjects :: Good(s)) && (forall e | e in req.ents :: Good(e))
    && (req.approval.Some? ==> SoundClaims(pol, req.approval.value))
  }

  /** The template has been sanitised; its arguments nest at most 15 levels. */
  ghost predicate SoundTemplate(t: Chain.AuditRecord) {
    exists t0 :: Sanitize.Appendable(t0) && t == Sanitize.SanitizeRecord(t0)
  }

  ghost predicate SoundOp(ctx: Ctx, op: Op, now: int) {
    && IsInt53(now) && IsInt53(now + 60) && Good(ctx.pol.gatewayId)
    && match op
       case AppendAudit(t) => SoundTemplate(t)
       case Commit(req, t) => SoundTemplate(t) && SoundRequest(ctx.pol, req, now)
       case RecordChallenge(p, t) => SoundTemplate(t) && Good(p)
       case Revoke(subject, ent, value, t) => SoundTemplate(t) && Good(subject) && Good(ent) && Good(value)
       case Compact => true
       case Open(t) => SoundTemplate(t)
  }

  /** The audit line of the operation stays within 4 MiB. */
  ghost predicate AuditLineFits(ctx: Ctx, view: State, op: Op, tail: Chain.Tail, now: int) {
    Audits(view, op, tail) ==>
      Utf8Length(AuditLine.Format(NextAudit(ctx, AfterPrelude(ctx, view, op, tail, now), Template(ctx, view, op, now)))) <= AuditLine.MAX_LINE
  }

  /** The view before the operation, the tail it found and the room for two more marks. */
  ghost predicate SoundStart(view: State, tail: Chain.Tail) {
    SoundState(view) && view.hwmSeq + 2 <= MAX_SAFE && Good(tail.hash)
  }

  // ----- the records of each operation -----

  lemma ConstantsAreGood()
    ensures Good("") && Good("hwm") && Good("ledger_id")
  {
  }

  lemma HexIsGood(s: string)
    requires IsHex(s) && |s| == 64
    ensures Good(s)
  {
    HexIsSafe(s);
  }

  lemma {:induction false} EntRecordsAreSound(id: string, gw: string, subject: string, ents: seq<string>, now: int)
    requires Good(id) && Good(gw) && Good(subject) && (forall e | e in ents :: Good(e)) && IsInt53(now)
    ensures SoundRecords(EntRecords(id, gw, subject, ents, now))
  {
    hide Good;
    ConstantsAreGood();
    if ents != [] {
      EntRecordsAreSound(id, gw, subject, ents[..|ents| - 1], now);
    }
  }

  lemma {:induction false} GrantRecordsAreSound(id: string, gw: string, subjects: seq<string>, ents: seq<string>, now: int)
    requires Good(id) && Good(gw) && (forall s | s in subjects :: Good(s)) && (forall e | e in ents :: Good(e)) && IsInt53(now)
    ensures SoundRecords(GrantRecords(id, gw, subjects, ents, now))
  {
    hide Good, SoundRecord;
    if subjects != [] {
      GrantRecordsAreSound(id, gw, subjects[..|subjects| - 1], ents, now);
      EntRecordsAreSound(id, gw, subjects[|subjects| - 1], ents, now);
    }
  }

  lemma CommitRecordsAreSound(pol: Policy, id: string, req: Request, now: int)
    requires Good(id) && Good(pol.gatewayId) && IsInt53(now) && SoundRequest(pol, req, now)
    ensures SoundRecords(CommitRecords(pol, id, req, now))
  {
    hide Good, GrantRecords, IsInt53, ReplayExpiry;
    ConstantsAreGood();
    ZeroIsInt53();
    GrantRecordsAreSound(id, pol.gatewayId, req.subjects, req.ents, now);
  }

  lemma ZeroIsInt53()
    ensures IsInt53(0) && IsInt53(1)
  {
  }

  lemma PreludeIsSound(ctx: Ctx, view: State, op: Op, tail: Chain.Tail, now: int)
    requires SoundStart(view, tail) && SoundOp(ctx, op, now)
    ensures SoundRecords(Prelude(ctx, view, op, tail, now))
  {
    hide Good, CommitRecords, Decide, SoundTemplate, TooManyChallenges, SoundGrants, SoundRequest, Window;
    ConstantsAreGood();
    match op
    case Commit(req, _) => CommitRecordsAreSound(ctx.pol, view.ledgerId, req, now);
    case _ =>
  }

  lemma {:induction false} GrantEntsIsSound(st: State, subject: string, ents: seq<string>, now: int)
    requires SoundState(st) && Good(subject) && (forall e | e in ents :: Good(e)) && IsInt53(now)
    ensures SoundState(GrantEnts(st, subject, ents, now))
  {
    hide SoundState, Good, AddGrant;
    if ents != [] {
      GrantEntsIsSound(st, subject, ents[..|ents| - 1], now);
      GrantIsSound(GrantEnts(st, subject, ents[..|ents| - 1], now), subject, ents[|ents| - 1], now);
    }
  }

  lemma TouchIsSound(st: State, subject: string)
    requires SoundState(st)
    ensures SoundState(TouchSubject(st, subject))
  {
    hide Good, IsInt53, SoundRecord;
    assert forall s, e :: Granted(TouchSubject(st, subject), s, e) <==> Granted(st, s, e);
  }

  lemma {:induction false} GrantAllIsSound(st: State, subjects: seq<string>, ents: seq<string>, now: int)
    requires SoundState(st) && (forall s | s in subjects :: Good(s)) && (forall e | e in ents :: Good(e)) && IsInt53(now)
    ensures SoundState(GrantAll(st, subjects, ents, now))
  {
    hide SoundState, Good, GrantEnts, TouchSubject;
    if subjects != [] {
      var k := |subjects| - 1;
      GrantAllIsSound(st, subjects[..k], ents, now);
      var before := GrantAll(st, subjects[..k], ents, now);
      TouchIsSound(before, subjects[k]);
      GrantEntsIsSound(TouchSubject(before, subjects[k]), subjects[k], ents, now);
    }
  }

  lemma SameGrantsSound(a: State, b: State)
    requires SoundGrants(a) && b.grants == a.grants && b.origins == a.origins
    ensures SoundGrants(b)
  {
    assert forall s, e :: Granted(a, s, e) <==> Granted(b, s, e);
  }

  lemma CommitStateIsSound(pol: Policy, st: State, req: Request, now: int)
    requires SoundState(st) && Good(pol.gatewayId) && IsInt53(now) && SoundRequest(pol, req, now)
    ensures SoundState(CommitState(pol, st, req, now))
  {
    hide Good, GrantAll, SoundGrants, Window, ReplayExpiry, IsInt53;
    ConstantsAreGood();
    ZeroIsInt53();
    var st1 := st.(budgets := st.budgets + [NewBudget(pol, req, now)]);
    SameGrantsSound(st, st1);
    GrantAllIsSound(st1, req.subjects, req.ents, now);
    GrantAllEffect(st1, req.subjects, req.ents, now);
    var st2 := GrantAll(st1, req.subjects, req.ents, now);
    SameGrantsSound(st2, CommitState(pol, st, req, now));
  }

  lemma AfterPreludeIsSound(ctx: Ctx, view: State, op: Op, tail: Chain.Tail, now: int)
    requires SoundStart(view, tail) && SoundOp(ctx, op, now)
    ensures var st := AfterPrelude(ctx, view, op, tail, now);
            SoundState(st) && st.hwmSeq + 1 <= MAX_SAFE && st.ledgerId == view.ledgerId
  {
    hide Good, CommitState, Decide, SoundTemplate, TooManyChallenges, SoundGrants, SoundRequest, SoundRecord, RemoveGrant;
    SameGrantsSound(view, view.(hwmSeq := tail.seqNo, hwmHash := tail.hash));
    match op
    case Commit(req, _) =>
      CommitStateIsSound(ctx.pol, view, req, now);
      CommitStateEffect(ctx.pol, view, req, now);
    case Revoke(subject, ent, _, _) =>
      RevokeIsSound(view, subject, ent);
      AddGrantKeepsRest(view, RevokeRecord("", "", subject, ent, "", now));
    case RecordChallenge(p, _) =>
      SameGrantsSound(view, view.(challenges := view.challenges + [ChallengeEntry(p, now, now + 60)]));
    case _ =>
  }

  // ----- the audit record -----

  /** The ledger's own members on a sanitised template. */
  lemma NextAuditIsSanitized(ctx: Ctx, st: State, t: Chain.AuditRecord) returns (t1: Chain.AuditRecord)
    requires HexHashes(ctx) && SoundTemplate(t) && SoundState(st) && Good(ctx.pol.gatewayId) && st.hwmSeq + 1 <= MAX_SAFE
    ensures Sanitize.Appendable(t1) && NextAudit(ctx, st, t) == Sanitize.SanitizeRecord(t1)
    ensures Good(NextAudit(ctx, st, t).recordHash)
  {
    hide SafeString, SoundRecord, Sanitize.SanitizeValue, AuditLine.DetailsOk, Sanitize.NestsAtMost, Serialisable,
         Sanitize.SanitizeAll, Sanitize.SanitizeString, IsHex, SoundGrants;
    var t0 :| Sanitize.Appendable(t0) && t == Sanitize.SanitizeRecord(t0);
    var r := NextAudit(ctx, st, t);
    HexIsGood(r.recordHash);
    Sanitize.SanitizedIsSafe(ctx.pol.gatewayId);
    Sanitize.SanitizedIsSafe(st.ledgerId);
    t1 := t0.(seqNo := r.seqNo, prevHash := r.prevHash, gatewayId := ctx.pol.gatewayId, ledgerId := st.ledgerId,
              recordHash := r.recordHash);
  }

  lemma DenialIsSound(t: Chain.AuditRecord)
    requires SoundTemplate(t)
    ensures SoundTemplate(t.(decision := DENY))
  {
    hide Sanitize.SanitizeValue, AuditLine.DetailsOk, Sanitize.NestsAtMost, Serialisable, Sanitize.SanitizeAll,
         Sanitize.SanitizeString;
    var t0 :| Sanitize.Appendable(t0) && t == Sanitize.SanitizeRecord(t0);
    Sanitize.SanitizedIsSafe(DENY);
    DenyIsSafe();
    var t1 := t0.(decision := DENY);
    assert Sanitize.Appendable(t1) && t.(decision := DENY) == Sanitize.SanitizeRecord(t1);
  }

  lemma DenyIsSafe()
    ensures SafeString(DENY)
  {
  }

  lemma TemplateIsSound(ctx: Ctx, view: State, op: Op, now: int)
    requires SoundOp(ctx, op, now) && !op.Compact?
    ensures SoundTemplate(Template(ctx, view, op, now))
  {
    hide SoundTemplate, Decide, TooManyChallenges, Good, SoundRequest;
    match op
    case Commit(req, t) => DenialIsSound(t);
    case RecordChallenge(p, t) => DenialIsSound(t);
    case _ =>
  }

  lemma MarkedIsSound(ctx: Ctx, st: State, t: Chain.AuditRecord)
    requires HexHashes(ctx) && SoundTemplate(t) && SoundState(st) && Good(ctx.pol.gatewayId) && st.hwmSeq + 1 <= MAX_SAFE
    ensures SoundState(Marked(ctx, st, t))
  {
    hide SoundTemplate, Good, SoundGrants, SoundRecord, HexHashes;
    var t1 := NextAuditIsSanitized(ctx, st, t);
    NextAuditSeq(ctx, st, t);
    SameGrantsSound(st, Marked(ctx, st, t));
  }

  lemma NextAuditSeq(ctx: Ctx, st: State, t: Chain.AuditRecord)
    ensures NextAudit(ctx, st, t).seqNo == st.hwmSeq + 1
  {
  }

  // ----- compaction -----

  lemma {:induction false} KeptAreSound(st: State, now: int)
    requires SoundState(st)
    ensures SoundState(CompactState(st, now))
  {
    hide Good, IsInt53, SoundRecord, SoundGrants;
    KeptBudgetsAreSound(st.budgets, now);
    KeptChallengesAreSound(st.challenges, now);
    SameGrantsSound(st, CompactState(st, now));
  }

  lemma {:induction false} KeptBudgetsAreSound(budgets: seq<BudgetEntry>, now: int)
    requires forall i | 0 <= i < |budgets| :: SoundBudget(budgets[i])
    ensures forall i | 0 <= i < |KeptBudgets(budgets, now)| :: SoundBudget(KeptBudgets(budgets, now)[i])
  {
    if budgets != [] {
      KeptBudgetsAreSound(budgets[..|budgets| - 1], now);
    }
  }

  lemma {:induction false} KeptChallengesAreSound(challenges: seq<ChallengeEntry>, now: int)
    requires forall i | 0 <= i < |challenges| :: SoundChallenge(challenges[i])
    ensures forall i | 0 <= i < |KeptChallenges(challenges, now)| :: SoundChallenge(KeptChallenges(challenges, now)[i])
  {
    if challenges != [] {
      KeptChallengesAreSound(challenges[..|challenges| - 1], now);
    }
  }

  lemma BudgetRecordsAreSound(id: string, gw: string, budgets: seq<BudgetEntry>)
    requires Good(id) && Good(gw) && forall i | 0 <= i < |budgets| :: SoundBudget(budgets[i])
    ensures SoundRecords(BudgetRecords(id, gw, budgets))
  {
    hide Good, IsInt53;
    ConstantsAreGood();
    ZeroIsInt53();
  }

  lemma ChallengeRecordsAreSound(id: string, gw: string, challenges: seq<ChallengeEntry>)
    requires Good(id) && Good(gw) && forall i | 0 <= i < |challenges| :: SoundChallenge(challenges[i])
    ensures SoundRecords(ChallengeRecords(id, gw, challenges))
  {
    hide Good, IsInt53;
    ConstantsAreGood();
    ZeroIsInt53();
  }

  lemma PairRecordsAreSound(st: State, gw: string, now: int, pairs: seq<(string, string)>)
    requires Good(st.ledgerId) && Good(gw) && IsInt53(now) && SoundGrants(st)
    requires forall s, e :: (s, e) in pairs ==> Granted(st, s, e)
    ensures SoundRecords(PairRecords(st, gw, pairs, now))
  {
    hide Good, IsInt53, Granted;
    ConstantsAreGood();
    ZeroIsInt53();
    var recs := PairRecords(st, gw, pairs, now);
    forall i | 0 <= i < |recs| ensures SoundRecord(recs[i]) {
      assert (pairs[i].0, pairs[i].1) in pairs;
      assert Granted(st, pairs[i].0, pairs[i].1);
    }
  }

  lemma CompactRecordsAreSound(st: State, gw: string, now: int, o: Order)
    requires SoundState(st) && Good(gw) && IsInt53(now) && ValidOrder(st, now, o)
    ensures SoundRecords(CompactRecords(st, gw, now, o))
  {
    hide Good, IsInt53, Granted, PairRecords, BudgetRecords, ChallengeRecords, SoundGrants, SoundBudget, SoundChallenge;
    ConstantsAreGood();
    ZeroIsInt53();
    KeptBudgetsAreSound(st.budgets, now);
    KeptChallengesAreSound(st.challenges, now);
    BudgetRecordsAreSound(st.ledgerId, gw, KeptBudgets(st.budgets, now));
    ChallengeRecordsAreSound(st.ledgerId, gw, KeptChallenges(st.challenges, now));
    PairRecordsAreSound(st, gw, now, o.pairs);
    assert SoundRecords(ReplayRecords(st, o.jtis));
  }

  // ----- all writes of an operation -----

  /** Every state record written is sound and every audit record reads back. */
  ghost predicate SoundWrite(w: Write) {
    match w
    case PutState(rec) => SoundRecord(rec)
    case PutAudit(r) => AuditLine.Fits(r)
    case Swap(recs) => SoundRecords(recs)
  }

  ghost predicate SoundWrites(ws: seq<Write>) {
    forall i | 0 <= i < |ws| :: SoundWrite(ws[i])
  }

  lemma SoundWritesFit(crc: StateLine.Crc, ws: seq<Write>)
    requires CrcOk(crc) && SoundWrites(ws)
    ensures WritesFit(RealCodecs(crc), ws)
  {
    hide SoundRecord, AuditLine.Fits, StateLine.Fits;
    forall i | 0 <= i < |ws| ensures WriteFits(RealCodecs(crc), ws[i]) {
      assert SoundWrite(ws[i]);
      match ws[i]
      case PutState(rec) => SoundFits(crc, rec);
      case PutAudit(_) =>
      case Swap(recs) =>
        forall j | 0 <= j < |recs| ensures StateLine.Fits(crc, recs[j]) {
          SoundFits(crc, recs[j]);
        }
    }
  }

  lemma AuditWritesAreSound(ctx: Ctx, st: State, t: Chain.AuditRecord, now: int, compaction: Option<Order>)
    requires HexHashes(ctx) && SoundTemplate(t) && SoundState(st) && Good(ctx.pol.gatewayId) && st.hwmSeq + 1 <= MAX_SAFE
    requires IsInt53(now) && (compaction.Some? ==> ValidOrder(st, now, compaction.value))
    requires Utf8Length(AuditLine.Format(NextAudit(ctx, st, t))) <= AuditLine.MAX_LINE
    ensures SoundWrites(AuditWrites(ctx, st, t, now, compaction))
    ensures SoundState(AfterAudit(ctx, st, t, now, compaction))
  {
    hide SoundTemplate, Good, SoundGrants, HexHashes, NextAudit, AuditLine.Fits, Sanitize.Appendable,
         Sanitize.SanitizeRecord, CompactRecords, ValidOrder, SoundBudget, SoundChallenge, AuditLine.Format,
         Utf8Length;
    ConstantsAreGood();
    ZeroIsInt53();
    var t1 := NextAuditIsSanitized(ctx, st, t);
    NextAuditSeq(ctx, st, t);
    Sanitize.SanitizedFits(t1);
    MarkedIsSound(ctx, st, t);
    if compaction.Some? {
      MarkedIs(ctx, st, t);
      SameOrder(st, Marked(ctx, st, t), now, compaction.value);
      CompactRecordsAreSound(Marked(ctx, st, t), ctx.pol.gatewayId, now, compaction.value);
      KeptAreSound(Marked(ctx, st, t), now);
    }
  }

  lemma PutStatesAreSound(recs: seq<StateRecord>)
    requires SoundRecords(recs)
    ensures SoundWrites(PutStates(recs))
  {
    hide SoundRecord;
  }

  /** From sound contents and sound inputs every write of every operation is sound, and
      so is the state the process remembers. */
  lemma OpIsSound(ctx: Ctx, view: State, op: Op, tail: Chain.Tail, now: int, compaction: Option<Order>)
    requires HexHashes(ctx) && SoundStart(view, tail) && SoundOp(ctx, op, now) && AuditLineFits(ctx, view, op, tail, now)
    requires OrderOk(ctx, view, op, tail, now, compaction)
    ensures SoundWrites(OpWrites(ctx, view, op, tail, now, compaction))
    ensures SoundState(AfterOp(ctx, view, op, tail, now, compaction))
  {
    hide HexHashes, SoundState, SoundWrite, SoundRecords, AuditWrites, AfterAudit, AfterPrelude, Prelude, Template, NeedsCatchUp,
         CompactRecords, ValidOrder, SoundTemplate, SoundRequest, Good, PutStates, NextAudit;
    if op.Compact? {
      CompactIsSound(ctx, view, op, tail, now, compaction);
    } else if Audits(view, op, tail) {
      PreludeIsSound(ctx, view, op, tail, now);
      PutStatesAreSound(Prelude(ctx, view, op, tail, now));
      AfterPreludeIsSound(ctx, view, op, tail, now);
      TemplateIsSound(ctx, view, op, now);
      AuditWritesAreSound(ctx, AfterPrelude(ctx, view, op, tail, now), Template(ctx, view, op, now), now, compaction);
    }
  }

  lemma CompactIsSound(ctx: Ctx, view: State, op: Op, tail: Chain.Tail, now: int, compaction: Option<Order>)
    requires SoundState(view) && op.Compact? && SoundOp(ctx, op, now) && OrderOk(ctx, view, op, tail, now, compaction)
    ensures ValidOrder(view, now, compaction.value)
    ensures SoundWrite(Swap(CompactRecords(view, ctx.pol.gatewayId, now, compaction.value)))
    ensures SoundState(CompactState(view, now))
  {
    hide SoundState, CompactRecords, ValidOrder, SoundRecords, CompactState;
    CompactRecordsAreSound(view, ctx.pol.gatewayId, now, compaction.value);
    KeptAreSound(view, now);
  }

  // ----- the files -----

  lemma {:induction false} SoundRunKeepsSound(d: Disk, ws: seq<Write>, now: int)
    requires SoundRecords(d.state) && SoundWrites(ws)
    ensures SoundRecords(DiskAfter(d, Stamped(ws, now)).state)
    decreases |ws|
  {
    hide SoundRecord, AuditLine.Fits;
    if ws != [] {
      var n := |ws| - 1;
      SoundRunKeepsSound(d, ws[..n], now);
      assert Stamped(ws, now)[..n] == Stamped(ws[..n], now);
      assert SoundWrite(ws[n]);
    }
  }

  /** Files in the real formats that hold a synced ledger of sound records. */
  ghost predicate HoldsSound(ctx: Ctx, crc: StateLine.Crc, img: Image, d: Disk) {
    HoldsLedger(ctx, RealCodecs(crc), img, d) && SoundRecords(d.state)
  }

  /** Main result: with the real line formats, an operation on a ledger of sound
      records, with sound inputs, leaves files that hold the ledger its run leaves, again
      of sound records; no condition on what was written is left. */
  lemma RealOpKeepsLedger(ctx: Ctx, crc: StateLine.Crc, img: Image, img': Image, d: Disk, view: State, op: Op, now: int,
                          compaction: Option<Order>)
    requires HexHashes(ctx) && CrcOk(crc) && Represents(RealCodecs(crc), img, d) && SoundRecords(d.state)
    requires Recoverable(ctx, d) && SodSafe(ctx, View(ctx, d)) && (op.Open? || Synced(ctx, d))
    requires SoundStart(view, Chain.TailOf(d.audit)) && SoundOp(ctx, op, now) && OpOk(ctx, op, now)
    requires AuditLineFits(ctx, view, op, Chain.TailOf(d.audit), now)
    requires Performed(ctx, RealCodecs(crc), img, img', view, op, Chain.TailOf(d.audit), now, compaction)
    ensures HoldsSound(ctx, crc, img', DiskAfter(d, OpTrace(ctx, view, op, Chain.TailOf(d.audit), now, compaction)))
    ensures SoundState(AfterOp(ctx, view, op, Chain.TailOf(d.audit), now, compaction))
  {
    hide SoundStart, SoundOp, OpOk, AuditLineFits, Represents, Recoverable, SodSafe, Synced, DiskAfter, OpWrites, AfterOp,
         SoundState, SoundRecord, SoundWrite, WritesFit, View, Chain.TailOf, HoldsLedger, Stamped, StateLine.LineCodec,
         AuditLine.LineCodec, OrderOk, SameMeaning, F.CodecOk;
    var tail := Chain.TailOf(d.audit);
    StateLine.LineCodecOk(crc);
    OpIsSound(ctx, view, op, tail, now, compaction);
    SoundWritesFit(crc, OpWrites(ctx, view, op, tail, now, compaction));
    PerformedKeepsLedger(ctx, RealCodecs(crc), img, img', d, view, op, now, compaction);
    SoundRunKeepsSound(d, OpWrites(ctx, view, op, tail, now, compaction), now);
  }

  // ----- where it starts -----

  /** What a process with a cold cache sees of such a ledger. */
  lemma ColdStartIsSound(ctx: Ctx, d: Disk)
    requires HexHashes(ctx) && SoundRecords(d.state) && Recoverable(ctx, d) && View(ctx, d).hwmSeq + 2 <= MAX_SAFE
    ensures SoundStart(View(ctx, d), Chain.TailOf(d.audit))
  {
    hide SoundState, SoundRecord, ReplayAll, Chain.ValidChain, Chain.Normal;
    ReplayIsSound(d.state, ctx.pol.gatewayId);
    Chain.ValidAt(ctx.h, d.audit, |d.audit| - 1, ctx.pol.gatewayId, View(ctx, d).ledgerId);
    HexIsGood(Chain.TailOf(d.audit).hash);
  }

  /** The files of an initialisation. */
  ghost function GenesisFiles(ctx: Ctx, crc: StateLine.Crc, id: string, t: Chain.AuditRecord, now: int): Image {
    var d := Genesis(ctx, id, t, now);
    Image(0, F.Frame(StateLine.LineCodec(crc), d.state), F.Frame(AuditLine.LineCodec(), d.audit))
  }

  /** A newly initialised ledger is such a ledger. */
  lemma GenesisIsSound(ctx: Ctx, crc: StateLine.Crc, id: string, t: Chain.AuditRecord, now: int)
    requires HexHashes(ctx) && CrcOk(crc) && IsLedgerId(id) && SoundTemplate(t) && Good(ctx.pol.gatewayId) && IsInt53(now)
    requires forall r | r in Genesis(ctx, id, t, now).audit :: Utf8Length(AuditLine.Format(r)) <= AuditLine.MAX_LINE
    ensures HoldsSound(ctx, crc, GenesisFiles(ctx, crc, id, t, now), Genesis(ctx, id, t, now))
  {
    hide SoundTemplate, Good, SoundGrants, NextAudit, AuditLine.Fits, Sanitize.Appendable, StateLine.Fits,
         Sanitize.SanitizeRecord, AuditLine.Format, Utf8Length, Synced, SodSafe, View, IsLedgerId, F.Frame, SoundRecord;
    var d := Genesis(ctx, id, t, now);
    GenesisIsFresh(ctx, id, t, now);
    var st := EMPTY.(ledgerId := id, hwmHash := Chain.GENESIS);
    GenesisStateIsSound(id);
    var t1 := NextAuditIsSanitized(ctx, st, t);
    assert d.audit == [NextAudit(ctx, st, t)] by { GenesisAudit(ctx, id, t, now); }
    assert NextAudit(ctx, st, t) in d.audit;
    Sanitize.SanitizedFits(t1);
    GenesisRecordsAreSound(ctx, id, t, now);
    forall i | 0 <= i < |d.state| ensures StateLine.Fits(crc, d.state[i]) {
      SoundFits(crc, d.state[i]);
    }
  }

  lemma GenesisStateIsSound(id: string)
    requires IsLedgerId(id)
    ensures SoundState(EMPTY.(ledgerId := id, hwmHash := Chain.GENESIS))
  {
    HexIsSafe(id);
    assert IsHex(Chain.GENESIS);
    HexIsGood(Chain.GENESIS);
  }

  lemma GenesisAudit(ctx: Ctx, id: string, t: Chain.AuditRecord, now: int)
    ensures Genesis(ctx, id, t, now).audit == [NextAudit(ctx, EMPTY.(ledgerId := id, hwmHash := Chain.GENESIS), t)]
  {
  }

  lemma GenesisRecordsAreSound(ctx: Ctx, id: string, t: Chain.AuditRecord, now: int)
    requires HexHashes(ctx) && IsLedgerId(id) && Good(ctx.pol.gatewayId) && IsInt53(now)
    ensures SoundRecords(Genesis(ctx, id, t, now).state)
  {
    hide SafeString, Chain.Normal;
    HexIsSafe(id);
    ConstantsAreGood();
    HexIsGood(Genesis(ctx, id, t, now).audit[0].recordHash);
  }
}
