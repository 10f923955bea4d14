/** The ledger's operations as sequences of durable writes, crashes between any
    two of them, and recovery (internal/authz/statedb.go).

    Each operation reads the files under the exclusive lock and makes a fixed
    sequence of writes: its state records, its audit record with the mark, and
    sometimes a compaction.  Here every such write is shown to be a step of
    LedgerTrace, so that what holds of every run holds of every sequence of
    operations, wherever one of them is cut short. */
module LedgerRuns {
  import opened LedgerState
  import opened LedgerOps
  import opened Compaction
  import opened LedgerTrace
  import opened LedgerSafety
  import Sod
  import Chain = AuditChain

  const ALLOW: string := "pre_forward_allow"
  const DENY: string := "deny"

  datatype Op =
    | AppendAudit(t: Chain.AuditRecord)
    | Commit(req: Request, t: Chain.AuditRecord)
    | RecordChallenge(principal: string, t: Chain.AuditRecord)
    | Revoke(subject: string, ent: string, value: string, t: Chain.AuditRecord)
    | Compact
    | Open(t: Chain.AuditRecord)

  // ----- the writes of each operation -----

  function PutStates(recs: seq<StateRecord>): seq<Write> {
    seq(|recs|, i requires 0 <= i < |recs| => PutState(recs[i]))
  }

  /** The view after the next audit record and its high-water mark. */
  function Marked(ctx: Ctx, view: State, t: Chain.AuditRecord): State {
    var r := NextAudit(ctx, view, t);
    view.(hwmSeq := r.seqNo, hwmHash := r.recordHash)
  }

  /** appendAuditAndHWMLocked, with the compaction that the file size may trigger. */
  ghost function AuditWrites(ctx: Ctx, view: State, t: Chain.AuditRecord, now: int, compaction: Option<Order>): seq<Write>
    requires compaction.Some? ==> ValidOrder(view, now, compaction.value)
  {
    var r := NextAudit(ctx, view, t);
    [PutAudit(r), PutState(HwmRecord(view.ledgerId, ctx.pol.gatewayId, r.seqNo, r.recordHash, now))]
    + if compaction.Some?
      then [Swap(CompactRecords(Marked(ctx, view, t), ctx.pol.gatewayId, now, compaction.value))] else []
  }

  /** The state records an operation writes before its audit record. */
  function Prelude(ctx: Ctx, view: State, op: Op, tail: Chain.Tail, now: int): seq<StateRecord> {
    var pol := ctx.pol;
    match op
    case Commit(req, _) => if Decide(pol, view, req, now) == Allow then CommitRecords(pol, view.ledgerId, req, now) else []
    case RecordChallenge(p, _) =>
      if TooManyChallenges(pol, view, p, now) then []
      else [ChallengeRecord(view.ledgerId, pol.gatewayId, ChallengeEntry(p, now, now + 60))]
    case Revoke(subject, ent, value, _) => [RevokeRecord(view.ledgerId, pol.gatewayId, subject, ent, value, now)]
    case Open(_) =>
      if NeedsCatchUp(view, tail) then [HwmRecord(view.ledgerId, pol.gatewayId, tail.seqNo, tail.hash, now)] else []
    case _ => []
  }

  /** The in-memory state at the point where the audit record is appended. */
  function AfterPrelude(ctx: Ctx, view: State, op: Op, tail: Chain.Tail, now: int): State {
    var pol := ctx.pol;
    match op
    case Commit(req, _) => if Decide(pol, view, req, now) == Allow then CommitState(pol, view, req, now) else view
    case RecordChallenge(p, _) =>
      if TooManyChallenges(pol, view, p, now) then view
      else view.(challenges := view.challenges + [ChallengeEntry(p, now, now + 60)])
    case Revoke(subject, ent, _, _) => RemoveGrant(view, subject, ent)
    case Open(_) => if NeedsCatchUp(view, tail) then view.(hwmSeq := tail.seqNo, hwmHash := tail.hash) else view
    case _ => view
  }

  /** verifyStartupAndRecoverHWM finds the log exactly one record ahead. */
  predicate NeedsCatchUp(view: State, tail: Chain.Tail) {
    tail.seqNo == view.hwmSeq + 1 && tail.prevHash == view.hwmHash
    && !(tail.seqNo == view.hwmSeq && tail.hash == view.hwmHash)
  }

  /** The audit record's template: denials overwrite the decision. */
  function Template(ctx: Ctx, view: State, op: Op, now: int): Chain.AuditRecord
    requires !op.Compact?
  {
    match op
    case Commit(req, t) => if Decide(ctx.pol, view, req, now) == Allow then t else t.(decision := DENY)
    case RecordChallenge(p, t) => if TooManyChallenges(ctx.pol, view, p, now) then t.(decision := DENY) else t
    case AppendAudit(t) => t
    case Revoke(_, _, _, t) => t
    case Open(t) => t
  }

  /** An operation that appends an audit record. */
  predicate Audits(view: State, op: Op, tail: Chain.Tail) {
    !op.Compact? && (op.Open? ==> NeedsCatchUp(view, tail))
  }

  ghost predicate OrderOk(ctx: Ctx, view: State, op: Op, tail: Chain.Tail, now: int, compaction: Option<Order>) {
    && (compaction.Some? ==> ValidOrder(AfterPrelude(ctx, view, op, tail, now), now, compaction.value))
    && (op.Compact? ==> compaction.Some?)
  }

  /** All writes of one operation, given what the process sees of the files. */
  ghost function OpWrites(ctx: Ctx, view: State, op: Op, tail: Chain.Tail, now: int, compaction: Option<Order>): seq<Write>
    requires OrderOk(ctx, view, op, tail, now, compaction)
  {
    if op.Compact? then [Swap(CompactRecords(view, ctx.pol.gatewayId, now, compaction.value))]
    else if !Audits(view, op, tail) then []
    else PutStates(Prelude(ctx, view, op, tail, now))
         + AuditWrites(ctx, AfterPrelude(ctx, view, op, tail, now), Template(ctx, view, op, now), now, compaction)
  }

  /** Only OpenLedger looks at the tail of the audit log. */
  lemma TailOnlyForOpen(ctx: Ctx, view: State, op: Op, a: Chain.Tail, b: Chain.Tail, now: int, compaction: Option<Order>)
    requires OrderOk(ctx, view, op, a, now, compaction) && (op.Open? ==> a == b)
    ensures OrderOk(ctx, view, op, b, now, compaction)
    ensures OpWrites(ctx, view, op, a, now, compaction) == OpWrites(ctx, view, op, b, now, compaction)
    ensures AfterOp(ctx, view, op, a, now, compaction) == AfterOp(ctx, view, op, b, now, compaction)
  {
    hide AuditWrites, Template, Decide, CommitState, CommitRecords, TooManyChallenges;
  }

  /** The view after the audit record, its mark and the compaction. */
  function AfterAudit(ctx: Ctx, view: State, t: Chain.AuditRecord, now: int, compaction: Option<Order>): State {
    if compaction.Some? then CompactState(Marked(ctx, view, t), now) else Marked(ctx, view, t)
  }

  /** The in-memory state that an operation ends with. */
  function AfterOp(ctx: Ctx, view: State, op: Op, tail: Chain.Tail, now: int, compaction: Option<Order>): State {
    if op.Compact? then CompactState(view, now)
    else if !Audits(view, op, tail) then view
    else AfterAudit(ctx, AfterPrelude(ctx, view, op, tail, now), Template(ctx, view, op, now), now, compaction)
  }

  /** What the callers guarantee: only a write call's audit template carries the
      allow decision, targets are counted, and an approval token has passed
      VerifyApprovalToken at the same time stamp. */
  predicate OpOk(ctx: Ctx, op: Op, now: int) {
    match op
    case Commit(req, t) =>
      && t.decision == ALLOW && req.targets >= 0
      && (req.approval.Some? ==> TokenVerified(ctx.pol, req.approval.value, now))
    case Compact => true
    case AppendAudit(t) => t.decision != ALLOW
    case RecordChallenge(_, t) => t.decision != ALLOW
    case Revoke(_, _, _, t) => t.decision != ALLOW
    case Open(t) => t.decision != ALLOW
  }

  // ----- sequences of steps -----

  function Stamped(ws: seq<Write>, now: int): seq<Timed> {
    seq(|ws|, i requires 0 <= i < |ws| => Timed(ws[i], now))
  }

  lemma {:induction false} DiskAfterConcat(d: Disk, a: seq<Timed>, b: seq<Timed>)
    ensures DiskAfter(d, a + b) == DiskAfter(DiskAfter(d, a), b)
    decreases |b|
  {
    if b == [] {
      assert a + b == a;
    } else {
      var k := |b| - 1;
      assert (a + b)[..|a| + k] == a + b[..k];
      DiskAfterConcat(d, a, b[..k]);
    }
  }

  lemma StepAtConcat(ctx: Ctx, d: Disk, a: seq<Timed>, b: seq<Timed>, k: int)
    requires Run(ctx, d, a) && Run(ctx, DiskAfter(d, a), b) && 0 <= k < |a + b|
    ensures StepAt(ctx, d, a + b, k)
  {
    hide StepOk, DiskAfter;
    if k < |a| {
      assert (a + b)[..k] == a[..k];
      assert StepAt(ctx, d, a, k);
    } else {
      var i := k - |a|;
      assert (a + b)[..k] == a + b[..i];
      DiskAfterConcat(d, a, b[..i]);
      assert StepAt(ctx, DiskAfter(d, a), b, i);
    }
  }

  lemma RunConcat(ctx: Ctx, d: Disk, a: seq<Timed>, b: seq<Timed>)
    requires Run(ctx, d, a) && Run(ctx, DiskAfter(d, a), b)
    ensures Run(ctx, d, a + b) && DiskAfter(d, a + b) == DiskAfter(DiskAfter(d, a), b)
  {
    hide StepOk, DiskAfter;
    DiskAfterConcat(d, a, b);
    forall k | 0 <= k < |a + b| ensures StepAt(ctx, d, a + b, k) {
      StepAtConcat(ctx, d, a, b, k);
    }
  }

  lemma RunOne(ctx: Ctx, d: Disk, w: Write, now: int)
    requires StepOk(ctx, d, w, now)
    ensures Run(ctx, d, Stamped([w], now)) && DiskAfter(d, Stamped([w], now)) == Perform(d, w)
  {
    hide StepOk;
    var tr := Stamped([w], now);
    assert tr[..0] == [] && tr == [Timed(w, now)];
  }

  lemma StampedConcat(a: seq<Write>, b: seq<Write>, now: int)
    ensures Stamped(a + b, now) == Stamped(a, now) + Stamped(b, now)
  {
  }

  // ----- the audit record, its mark and the compaction after it -----

  lemma MarkedSameMeaning(ctx: Ctx, a: State, b: State, t: Chain.AuditRecord)
    requires SameMeaning(a, b)
    ensures NextAudit(ctx, a, t) == NextAudit(ctx, b, t) && SameMeaning(Marked(ctx, a, t), Marked(ctx, b, t))
  {
    hide NextAudit;
    NextAuditSame(ctx, a, b, t);
    assert forall s, e :: Granted(Marked(ctx, a, t), s, e) <==> Granted(a, s, e);
    assert forall s, e :: Granted(Marked(ctx, b, t), s, e) <==> Granted(b, s, e);
  }

  lemma NextAuditSame(ctx: Ctx, a: State, b: State, t: Chain.AuditRecord)
    requires a.hwmSeq == b.hwmSeq && a.hwmHash == b.hwmHash && a.ledgerId == b.ledgerId
    ensures NextAudit(ctx, a, t) == NextAudit(ctx, b, t)
  {
  }

  /** The first two writes: from synced files through the one-record lag to synced files. */
  lemma AuditPairRun(ctx: Ctx, d: Disk, view: State, t: Chain.AuditRecord, now: int)
    requires HashesOk(ctx) && Synced(ctx, d) && SameMeaning(view, View(ctx, d))
    ensures var ws := AuditWrites(ctx, view, t, now, None);
            Run(ctx, d, Stamped(ws, now)) && Synced(ctx, DiskAfter(d, Stamped(ws, now)))
            && SameMeaning(Marked(ctx, view, t), View(ctx, DiskAfter(d, Stamped(ws, now))))
            && DiskAfter(d, Stamped(ws, now)).audit == d.audit + [NextAudit(ctx, view, t)]
  {
    hide ReplayAll, Chain.ValidChain, NextAudit, SameMeaning, StepOk, Run, Stamped;
    var ws := AuditWrites(ctx, view, t, now, None);
    var st := View(ctx, d);
    MarkedSameMeaning(ctx, view, st, t);
    SameMeaningId(view, st);
    AuditIsStep(ctx, d, ws[0], t, now);
    RunOne(ctx, d, ws[0], now);
    AuditStepEffect(ctx, d, ws[0]);
    var d1 := Perform(d, ws[0]);
    CatchUpIsStep(ctx, d1, ws[1], now);
    RunOne(ctx, d1, ws[1], now);
    CatchUpEffect(ctx, d1, ws[1], now);
    StampedConcat([ws[0]], [ws[1]], now);
    assert ws == [ws[0]] + [ws[1]];
    RunConcat(ctx, d, Stamped([ws[0]], now), Stamped([ws[1]], now));
  }

  lemma SameMeaningId(a: State, b: State)
    requires SameMeaning(a, b)
    ensures a.ledgerId == b.ledgerId && a.hwmSeq == b.hwmSeq && a.hwmHash == b.hwmHash
    ensures a.budgets == b.budgets && a.replays == b.replays && a.challenges == b.challenges
  {
  }

  lemma AuditIsStep(ctx: Ctx, d: Disk, w: Write, t: Chain.AuditRecord, now: int)
    requires Synced(ctx, d) && w == PutAudit(NextAudit(ctx, View(ctx, d), t))
    ensures StepOk(ctx, d, w, now) && AuditStep(ctx, d, w)
  {
  }

  lemma CatchUpIsStep(ctx: Ctx, d: Disk, w: Write, now: int)
    requires Lagging(ctx, d)
    requires w == PutState(HwmRecord(View(ctx, d).ledgerId, ctx.pol.gatewayId,
                                     Chain.TailOf(d.audit).seqNo, Chain.TailOf(d.audit).hash, now))
    ensures StepOk(ctx, d, w, now) && CatchUpStep(ctx, d, w, now)
  {
  }

  lemma SwapIsStep(ctx: Ctx, d: Disk, view: State, o: Order, now: int)
    requires Synced(ctx, d) && SameMeaning(view, View(ctx, d)) && ValidOrder(view, now, o)
    ensures var w := Swap(CompactRecords(view, ctx.pol.gatewayId, now, o));
            StepOk(ctx, d, w, now) && SwapStep(ctx, d, w, now)
  {
    hide SameMeaning, ValidOrder, CompactRecords, ReplayAll, Chain.ValidChain;
    assert IsCompaction(ctx, View(ctx, d), view, o, now, CompactRecords(view, ctx.pol.gatewayId, now, o));
  }

  /** An operation's closing writes keep the files synced. */
  lemma AuditWritesRun(ctx: Ctx, d: Disk, view: State, t: Chain.AuditRecord, now: int, compaction: Option<Order>)
    requires HashesOk(ctx) && Synced(ctx, d) && SameMeaning(view, View(ctx, d))
    requires compaction.Some? ==> ValidOrder(view, now, compaction.value)
    ensures var tr := Stamped(AuditWrites(ctx, view, t, now, compaction), now);
            Run(ctx, d, tr) && Synced(ctx, DiskAfter(d, tr))
            && DiskAfter(d, tr).audit == d.audit + [NextAudit(ctx, view, t)]
            && SameMeaning(AfterAudit(ctx, view, t, now, compaction), View(ctx, DiskAfter(d, tr)))
  {
    hide ReplayAll, Chain.ValidChain, NextAudit, SameMeaning, StepOk, Run, Stamped, ValidOrder, CompactRecords,
         Marked, CompactState;
    AuditPairRun(ctx, d, view, t, now);
    var pair := AuditWrites(ctx, view, t, now, None);
    assert pair + [] == pair;
    if compaction.Some? {
      var d2 := DiskAfter(d, Stamped(pair, now));
      var view2 := Marked(ctx, view, t);
      MarkedIs(ctx, view, t);
      SameOrder(view, view2, now, compaction.value);
      SwapIsStep(ctx, d2, view2, compaction.value, now);
      var w := Swap(CompactRecords(view2, ctx.pol.gatewayId, now, compaction.value));
      RunOne(ctx, d2, w, now);
      SwapEffect(ctx, d2, w, now);
      CompactSameMeaning(view2, View(ctx, d2), now);
      SameMeaningSym(View(ctx, Perform(d2, w)), CompactState(View(ctx, d2), now));
      SameMeaningChain(CompactState(view2, now), CompactState(View(ctx, d2), now), View(ctx, Perform(d2, w)));
      StampedConcat(pair, [w], now);
      RunConcat(ctx, d, Stamped(pair, now), Stamped([w], now));
      assert AuditWrites(ctx, view, t, now, compaction) == pair + [w];
    } else {
      assert AuditWrites(ctx, view, t, now, compaction) == pair;
    }
  }

  lemma MarkedIs(ctx: Ctx, view: State, t: Chain.AuditRecord)
    ensures var m := Marked(ctx, view, t); m == view.(hwmSeq := m.hwmSeq, hwmHash := m.hwmHash)
  {
  }

  lemma SameOrder(a: State, b: State, now: int, o: Order)
    requires ValidOrder(a, now, o) && b == a.(hwmSeq := b.hwmSeq, hwmHash := b.hwmHash)
    ensures ValidOrder(b, now, o)
  {
    assert forall s, e :: Granted(b, s, e) <==> Granted(a, s, e);
  }

  // ----- the state records an operation writes first -----

  lemma SameMeaningChain(a: State, b: State, c: State)
    requires SameMeaning(a, b) && SameMeaning(b, c)
    ensures SameMeaning(a, c) && SameMeaning(b, a)
  {
  }

  lemma PutStatesSnoc(recs: seq<StateRecord>, rec: StateRecord, now: int)
    ensures Stamped(PutStates(recs + [rec]), now) == Stamped(PutStates(recs), now) + Stamped([PutState(rec)], now)
  {
  }

  lemma PutStatesConcat(a: seq<StateRecord>, b: seq<StateRecord>, now: int)
    ensures Stamped(PutStates(a + b), now) == Stamped(PutStates(a), now) + Stamped(PutStates(b), now)
  {
  }

  lemma {:induction false} PutStatesDisk(d: Disk, recs: seq<StateRecord>, now: int)
    ensures DiskAfter(d, Stamped(PutStates(recs), now)) == d.(state := d.state + recs)
    decreases |recs|
  {
    if recs == [] {
      assert d.state + recs == d.state;
    } else {
      var k := |recs| - 1;
      PutStatesDisk(d, recs[..k], now);
      assert recs == recs[..k] + [recs[k]];
      PutStatesSnoc(recs[..k], recs[k], now);
      var tr := Stamped(PutStates(recs), now);
      assert tr[..|tr| - 1] == Stamped(PutStates(recs[..k]), now);
    }
  }

  /** After state records have been appended, a view that applied them agrees with the file. */
  lemma PutStatesView(ctx: Ctx, d: Disk, view: State, recs: seq<StateRecord>, now: int)
    requires Synced(ctx, d) && SameMeaning(view, View(ctx, d))
    requires Synced(ctx, DiskAfter(d, Stamped(PutStates(recs), now)))
    ensures Fold(view, recs, ctx.pol.gatewayId, false).Ok?
    ensures SameMeaning(Fold(view, recs, ctx.pol.gatewayId, false).value,
                        View(ctx, DiskAfter(d, Stamped(PutStates(recs), now))))
  {
    hide SameMeaning, Fold, Chain.ValidChain, Stamped, PutStates, DiskAfter, Complete;
    var st, gw := View(ctx, d), ctx.pol.gatewayId;
    PutStatesDisk(d, recs, now);
    DeltaReplay(d.state, recs, gw);
    FoldSameMeaning(view, st, recs, gw, false);
    FoldOfNothing(st, recs, gw);
  }

  lemma FoldOfNothing(st: State, recs: seq<StateRecord>, gw: string)
    ensures Apply(st, recs, gw, false).Ok? ==> Fold(st, recs, gw, false) == Apply(st, recs, gw, false)
  {
  }

  /** One checked state record. */
  lemma PlainRun(ctx: Ctx, d: Disk, rec: StateRecord, now: int)
    requires PlainStep(ctx, d, PutState(rec), now)
    ensures Run(ctx, d, Stamped(PutStates([rec]), now))
    ensures var d' := DiskAfter(d, Stamped(PutStates([rec]), now));
            d'.audit == d.audit && Synced(ctx, d') && Absorb(View(ctx, d), rec) == Ok(View(ctx, d'))
  {
    hide PlainStep, Synced, View, Absorb, Run, DiskAfter;
    PlainStepEffect(ctx, d, PutState(rec), now);
    PlainIsStep(ctx, d, PutState(rec), now);
    RunOne(ctx, d, PutState(rec), now);
    assert PutStates([rec]) == [PutState(rec)];
  }

  lemma PlainIsStep(ctx: Ctx, d: Disk, w: Write, now: int)
    requires PlainStep(ctx, d, w, now)
    ensures StepOk(ctx, d, w, now) && Synced(ctx, d)
  {
  }

  predicate IsGrantOf(rec: StateRecord, id: string, gw: string, now: int, subjects: seq<string>, ents: seq<string>) {
    rec == GrantRecord(id, gw, rec.key, rec.subKey, now) && rec.key in subjects && rec.subKey in ents
  }

  lemma {:induction false} EntRecordsGrant(id: string, gw: string, subject: string, ents: seq<string>, now: int,
                                           subjects: seq<string>, all: seq<string>)
    requires subject in subjects && forall e :: e in ents ==> e in all
    ensures forall k | 0 <= k < |EntRecords(id, gw, subject, ents, now)| ::
              IsGrantOf(EntRecords(id, gw, subject, ents, now)[k], id, gw, now, subjects, all)
  {
    if ents != [] {
      EntRecordsGrant(id, gw, subject, ents[..|ents| - 1], now, subjects, all);
    }
  }

  lemma {:induction false} GrantRecordsGrant(id: string, gw: string, subjects: seq<string>, ents: seq<string>, now: int,
                                             all: seq<string>)
    requires forall s :: s in subjects ==> s in all
    ensures forall k | 0 <= k < |GrantRecords(id, gw, subjects, ents, now)| ::
              IsGrantOf(GrantRecords(id, gw, subjects, ents, now)[k], id, gw, now, all, ents)
  {
    if subjects != [] {
      hide IsGrantOf, EntRecords;
      var k := |subjects| - 1;
      GrantRecordsGrant(id, gw, subjects[..k], ents, now, all);
      EntRecordsGrant(id, gw, subjects[k], ents, now, all, ents);
    }
  }

  lemma GrantIsChecked(ctx: Ctx, st: State, view: State, req: Request, rec: StateRecord, now: int)
    requires IsGrantOf(rec, st.ledgerId, ctx.pol.gatewayId, now, req.subjects, req.ents)
    requires !SodConflict(ctx.pol, view, req) && Granting(view, st, req)
    ensures Checked(ctx.pol, st, rec, now)
    ensures Absorb(st, rec) == Ok(AddGrant(st, rec.key, rec.subKey, now))
    ensures ExceptGrants(AddGrant(st, rec.key, rec.subKey, now), st)
    ensures Granting(view, AddGrant(st, rec.key, rec.subKey, now), req)
  {
    hide SodConflict, AddGrant;
    assert GrantChecked(ctx.pol, view, st, req, rec);
    GrantEffect(st, rec.key, rec.subKey, now);
    AddGrantKeepsRest(st, rec);
  }

  /** A block of grant records of one request that passed the check. */
  lemma {:induction false} GrantsRun(ctx: Ctx, d: Disk, view: State, req: Request, recs: seq<StateRecord>, now: int)
    requires Synced(ctx, d) && !SodConflict(ctx.pol, view, req) && Granting(view, View(ctx, d), req)
    requires forall k | 0 <= k < |recs| ::
               IsGrantOf(recs[k], View(ctx, d).ledgerId, ctx.pol.gatewayId, now, req.subjects, req.ents)
    ensures Run(ctx, d, Stamped(PutStates(recs), now))
    ensures var d' := DiskAfter(d, Stamped(PutStates(recs), now));
            d'.audit == d.audit && Synced(ctx, d') && ExceptGrants(View(ctx, d'), View(ctx, d))
            && Granting(view, View(ctx, d'), req)
    decreases |recs|
  {
    hide ReplayAll, Chain.ValidChain, Granting, IsGrantOf, SodConflict, Run, Stamped, PutStates, Checked, AddGrant,
         Absorb;
    if recs == [] {
      NothingRuns(ctx, d, now);
    } else {
      var k := |recs| - 1;
      GrantsRun(ctx, d, view, req, recs[..k], now);
      var d1 := DiskAfter(d, Stamped(PutStates(recs[..k]), now));
      GrantStep(ctx, d1, view, req, recs[k], now);
      PlainRun(ctx, d1, recs[k], now);
      assert recs == recs[..k] + [recs[k]];
      PutStatesConcat(recs[..k], [recs[k]], now);
      RunConcat(ctx, d, Stamped(PutStates(recs[..k]), now), Stamped(PutStates([recs[k]]), now));
    }
  }

  lemma NothingRuns(ctx: Ctx, d: Disk, now: int)
    ensures Run(ctx, d, Stamped(PutStates([]), now)) && DiskAfter(d, Stamped(PutStates([]), now)) == d
  {
  }

  lemma GrantStep(ctx: Ctx, d: Disk, view: State, req: Request, rec: StateRecord, now: int)
    requires Synced(ctx, d) && !SodConflict(ctx.pol, view, req) && Granting(view, View(ctx, d), req)
    requires IsGrantOf(rec, View(ctx, d).ledgerId, ctx.pol.gatewayId, now, req.subjects, req.ents)
    ensures PlainStep(ctx, d, PutState(rec), now)
    ensures Absorb(View(ctx, d), rec).Ok? && ExceptGrants(Absorb(View(ctx, d), rec).value, View(ctx, d))
    ensures Granting(view, Absorb(View(ctx, d), rec).value, req)
  {
    hide ReplayAll, Chain.ValidChain, SodConflict, Checked, Absorb, AddGrant, Granting;
    GrantIsChecked(ctx, View(ctx, d), view, req, rec, now);
  }

  // ----- the commit -----

  /** What an allowing decision says of the file's own state. */
  lemma AllowMeans(ctx: Ctx, st: State, view: State, req: Request, now: int)
    requires SameMeaning(view, st) && Decide(ctx.pol, view, req, now) == Allow
    ensures !OverBudget(ctx.pol, st, req, now)
    ensures req.approval.Some? ==> !Replayed(st, req.approval.value.jti, now)
    ensures !SodConflict(ctx.pol, view, req)
  {
    hide SodConflict;
  }

  lemma BudgetIsChecked(ctx: Ctx, d: Disk, req: Request, now: int)
    requires Synced(ctx, d) && req.targets >= 0 && !OverBudget(ctx.pol, View(ctx, d), req, now)
    ensures var rec := BudgetRecord(View(ctx, d).ledgerId, ctx.pol.gatewayId, NewBudget(ctx.pol, req, now));
            PlainStep(ctx, d, PutState(rec), now)
            && Absorb(View(ctx, d), rec) == Ok(View(ctx, d).(budgets := View(ctx, d).budgets + [NewBudget(ctx.pol, req, now)]))
  {
    hide ReplayAll, Chain.ValidChain, OverBudget;
    var rec := BudgetRecord(View(ctx, d).ledgerId, ctx.pol.gatewayId, NewBudget(ctx.pol, req, now));
    assert BudgetChecked(ctx.pol, View(ctx, d), req, rec, now);
  }

  lemma TokenIsChecked(ctx: Ctx, d: Disk, c: Claims, now: int)
    requires Synced(ctx, d) && !Replayed(View(ctx, d), c.jti, now) && TokenVerified(ctx.pol, c, now)
    ensures PlainStep(ctx, d, PutState(ReplayRecord(ctx.pol, View(ctx, d).ledgerId, c, now)), now)
  {
    hide ReplayAll, Chain.ValidChain, TokenVerified;
    var rec := ReplayRecord(ctx.pol, View(ctx, d).ledgerId, c, now);
    assert TokenChecked(ctx.pol, View(ctx, d), c, rec, now);
  }

  /** The budget record and the grants: all but the last record of a commit. */
  lemma CommitFrontRun(ctx: Ctx, d: Disk, view: State, req: Request, now: int)
    requires Synced(ctx, d) && SameMeaning(view, View(ctx, d)) && req.targets >= 0
    requires Decide(ctx.pol, view, req, now) == Allow
    ensures var id, gw := view.ledgerId, ctx.pol.gatewayId;
            var tr := Stamped(PutStates([BudgetRecord(id, gw, NewBudget(ctx.pol, req, now))]
                                        + GrantRecords(id, gw, req.subjects, req.ents, now)), now);
            Run(ctx, d, tr) && Synced(ctx, DiskAfter(d, tr)) && DiskAfter(d, tr).audit == d.audit
            && View(ctx, DiskAfter(d, tr)).replays == View(ctx, d).replays
            && View(ctx, DiskAfter(d, tr)).ledgerId == view.ledgerId
  {
    hide ReplayAll, Chain.ValidChain, Chain.TailOf, Decide, Run, Stamped, PutStates,
         GrantRecords, PlainStep, Absorb, OverBudget, Granting, SodConflict, IsGrantOf, DiskAfter;
    var st, id, gw := View(ctx, d), view.ledgerId, ctx.pol.gatewayId;
    var b := BudgetRecord(id, gw, NewBudget(ctx.pol, req, now));
    var gs := GrantRecords(id, gw, req.subjects, req.ents, now);
    AllowMeans(ctx, st, view, req, now);
    BudgetIsChecked(ctx, d, req, now);
    PlainRun(ctx, d, b, now);
    var d1 := DiskAfter(d, Stamped(PutStates([b]), now));
    BudgetKeepsGrants(view, st, View(ctx, d1), req);
    GrantRecordsGrant(id, gw, req.subjects, req.ents, now, req.subjects);
    GrantsRun(ctx, d1, view, req, gs, now);
    PutStatesConcat([b], gs, now);
    RunConcat(ctx, d, Stamped(PutStates([b]), now), Stamped(PutStates(gs), now));
  }

  lemma BudgetKeepsGrants(view: State, a: State, b: State, req: Request)
    requires SameMeaning(view, a) && a.grants == b.grants
    ensures Granting(view, b, req)
  {
    assert forall s, e :: Granted(a, s, e) <==> Granted(b, s, e);
  }

  /** All state records of an allowed commit. */
  lemma CommitRun(ctx: Ctx, d: Disk, view: State, req: Request, now: int)
    requires Synced(ctx, d) && SameMeaning(view, View(ctx, d)) && req.targets >= 0
    requires Decide(ctx.pol, view, req, now) == Allow
    requires req.approval.Some? ==> TokenVerified(ctx.pol, req.approval.value, now)
    ensures var tr := Stamped(PutStates(CommitRecords(ctx.pol, view.ledgerId, req, now)), now);
            Run(ctx, d, tr) && Synced(ctx, DiskAfter(d, tr)) && DiskAfter(d, tr).audit == d.audit
            && SameMeaning(CommitState(ctx.pol, view, req, now), View(ctx, DiskAfter(d, tr)))
  {
    hide ReplayAll, Chain.ValidChain, Chain.TailOf, Decide, CommitState, Run, Stamped, PutStates,
         GrantRecords, PlainStep, OverBudget, SodConflict, DiskAfter, SameMeaning, BudgetRecord, ReplayRecord, Fold,
         TokenVerified, Replayed;
    var id, gw := view.ledgerId, ctx.pol.gatewayId;
    var front := [BudgetRecord(id, gw, NewBudget(ctx.pol, req, now))] + GrantRecords(id, gw, req.subjects, req.ents, now);
    var recs := CommitRecords(ctx.pol, id, req, now);
    CommitFrontRun(ctx, d, view, req, now);
    var d1 := DiskAfter(d, Stamped(PutStates(front), now));
    if req.approval.Some? {
      var last := ReplayRecord(ctx.pol, id, req.approval.value, now);
      AllowMeans(ctx, View(ctx, d), view, req, now);
      SameReplayVerdict(View(ctx, d), View(ctx, d1), req.approval.value.jti, now);
      TokenIsChecked(ctx, d1, req.approval.value, now);
      PlainRun(ctx, d1, last, now);
      PutStatesConcat(front, [last], now);
      RunConcat(ctx, d, Stamped(PutStates(front), now), Stamped(PutStates([last]), now));
      assert recs == front + [last];
    } else {
      assert recs == front + [] == front;
    }
    SameMeaningId(view, View(ctx, d));
    ReplayGives(ctx, d);
    PutStatesView(ctx, d, view, recs, now);
    CommitReplays(ctx.pol, view, req, now);
    var d' := DiskAfter(d, Stamped(PutStates(recs), now));
    SameMeaningSym(Fold(view, recs, gw, false).value, CommitState(ctx.pol, view, req, now));
    SameMeaningChain(CommitState(ctx.pol, view, req, now), Fold(view, recs, gw, false).value, View(ctx, d'));
  }

  lemma SameMeaningSym(a: State, b: State)
    requires SameMeaning(a, b)
    ensures SameMeaning(b, a)
  {
  }

  lemma SameReplayVerdict(a: State, b: State, jti: string, now: int)
    requires a.replays == b.replays
    ensures Replayed(a, jti, now) <==> Replayed(b, jti, now)
  {
  }

  // ----- every operation -----

  /** A single state record. */
  lemma SingleRun(ctx: Ctx, d: Disk, view: State, rec: StateRecord, now: int)
    requires Synced(ctx, d) && SameMeaning(view, View(ctx, d))
    requires IsPlain(rec.kind) && Checked(ctx.pol, View(ctx, d), rec, now)
    requires rec.ledgerId == view.ledgerId && rec.gatewayId == ctx.pol.gatewayId
    ensures var tr := Stamped(PutStates([rec]), now);
            Run(ctx, d, tr) && Synced(ctx, DiskAfter(d, tr)) && DiskAfter(d, tr).audit == d.audit
            && Absorb(view, rec).Ok? && SameMeaning(Absorb(view, rec).value, View(ctx, DiskAfter(d, tr)))
  {
    hide ReplayAll, Chain.ValidChain, Chain.TailOf, Run, Stamped, PutStates, DiskAfter, Absorb, SameMeaning, Checked;
    SameMeaningId(view, View(ctx, d));
    PlainRun(ctx, d, rec, now);
    PlainAbsorb(View(ctx, d), rec);
    AbsorbSameMeaning(view, View(ctx, d), rec);
  }

  lemma ChallengeIsChecked(ctx: Ctx, st: State, view: State, principal: string, now: int)
    requires SameMeaning(view, st) && !TooManyChallenges(ctx.pol, view, principal, now)
    ensures Checked(ctx.pol, st, ChallengeRecord(view.ledgerId, ctx.pol.gatewayId, ChallengeEntry(principal, now, now + 60)), now)
  {
    hide ChallengesIn;
    SameMeaningId(view, st);
    assert ChallengeChecked(ctx.pol, st, principal, ChallengeRecord(view.ledgerId, ctx.pol.gatewayId, ChallengeEntry(principal, now, now + 60)), now);
  }

  lemma PreludeRun(ctx: Ctx, d: Disk, view: State, op: Op, tail: Chain.Tail, now: int)
    requires Synced(ctx, d) && SameMeaning(view, View(ctx, d))
    requires OpOk(ctx, op, now) && !op.Open?
    ensures var tr := Stamped(PutStates(Prelude(ctx, view, op, tail, now)), now);
            Run(ctx, d, tr) && Synced(ctx, DiskAfter(d, tr)) && DiskAfter(d, tr).audit == d.audit
            && SameMeaning(AfterPrelude(ctx, view, op, tail, now), View(ctx, DiskAfter(d, tr)))
  {
    hide ReplayAll, Chain.ValidChain, Chain.TailOf, Run, Stamped, PutStates, DiskAfter, SameMeaning, SodSafe,
         Decide, TokenVerified, CommitRecords, CommitState, TooManyChallenges, RemoveGrant;
    SameMeaningId(view, View(ctx, d));
    NothingRuns(ctx, d, now);
    match op
    case Commit(req, _) =>
      if Decide(ctx.pol, view, req, now) == Allow {
        CommitRun(ctx, d, view, req, now);
      }
    case RecordChallenge(p, _) =>
      if !TooManyChallenges(ctx.pol, view, p, now) {
        ChallengeIsChecked(ctx, View(ctx, d), view, p, now);
        SingleRun(ctx, d, view, ChallengeRecord(view.ledgerId, ctx.pol.gatewayId, ChallengeEntry(p, now, now + 60)), now);
      }
    case Revoke(subject, ent, value, _) =>
      SingleRun(ctx, d, view, RevokeRecord(view.ledgerId, ctx.pol.gatewayId, subject, ent, value, now), now);
    case _ =>
  }

  /** What a process may start an operation on: a synced ledger, or for
      OpenLedger any ledger that a crash may have left. */
  ghost predicate CanStart(ctx: Ctx, d: Disk, view: State, op: Op) {
    && Recoverable(ctx, d) && (op.Open? || Synced(ctx, d))
    && SameMeaning(view, View(ctx, d))
  }

  lemma OpenCatchesUp(ctx: Ctx, d: Disk, view: State, op: Op, now: int)
    requires HashesOk(ctx) && CanStart(ctx, d, view, op) && op.Open?
    ensures var tail := Chain.TailOf(d.audit);
            if NeedsCatchUp(view, tail) then
              var tr := Stamped(PutStates(Prelude(ctx, view, op, tail, now)), now);
              Run(ctx, d, tr) && Synced(ctx, DiskAfter(d, tr)) && DiskAfter(d, tr).audit == d.audit
              && SameMeaning(AfterPrelude(ctx, view, op, tail, now), View(ctx, DiskAfter(d, tr)))
            else Synced(ctx, d)
  {
    hide ReplayAll, Chain.ValidChain, Run, Stamped, DiskAfter, SameMeaning, SodSafe;
    var tail := Chain.TailOf(d.audit);
    SameMeaningId(view, View(ctx, d));
    if NeedsCatchUp(view, tail) {
      var w := PutState(HwmRecord(view.ledgerId, ctx.pol.gatewayId, tail.seqNo, tail.hash, now));
      CatchUpIsStep(ctx, d, w, now);
      RunOne(ctx, d, w, now);
      CatchUpEffect(ctx, d, w, now);
      assert PutStates(Prelude(ctx, view, op, tail, now)) == [w];
      SameMark(view, View(ctx, d), tail.seqNo, tail.hash);
    }
  }

  lemma SameMark(a: State, b: State, seqNo: nat, hash: string)
    requires SameMeaning(a, b)
    ensures SameMeaning(a.(hwmSeq := seqNo, hwmHash := hash), b.(hwmSeq := seqNo, hwmHash := hash))
  {
    assert forall s, e :: Granted(a.(hwmSeq := seqNo, hwmHash := hash), s, e) <==> Granted(a, s, e);
    assert forall s, e :: Granted(b.(hwmSeq := seqNo, hwmHash := hash), s, e) <==> Granted(b, s, e);
  }

  ghost function OpTrace(ctx: Ctx, view: State, op: Op, tail: Chain.Tail, now: int, compaction: Option<Order>): seq<Timed>
    requires OrderOk(ctx, view, op, tail, now, compaction)
  {
    Stamped(OpWrites(ctx, view, op, tail, now, compaction), now)
  }

  /** An operation that appends an audit record runs, and appends that one record. */
  lemma AuditingOpIsRun(ctx: Ctx, d: Disk, view: State, op: Op, now: int, compaction: Option<Order>)
    requires HashesOk(ctx) && CanStart(ctx, d, view, op) && OpOk(ctx, op, now)
    requires Audits(view, op, Chain.TailOf(d.audit)) && OrderOk(ctx, view, op, Chain.TailOf(d.audit), now, compaction)
    ensures var tail := Chain.TailOf(d.audit);
            var tr := OpTrace(ctx, view, op, tail, now, compaction);
            Run(ctx, d, tr) && Synced(ctx, DiskAfter(d, tr))
            && DiskAfter(d, tr).audit
               == d.audit + [NextAudit(ctx, AfterPrelude(ctx, view, op, tail, now), Template(ctx, view, op, now))]
            && SameMeaning(AfterOp(ctx, view, op, tail, now, compaction), View(ctx, DiskAfter(d, tr)))
  {
    hide ReplayAll, Chain.ValidChain, Chain.TailOf, Run, Stamped, PutStates, DiskAfter, SameMeaning, SodSafe,
         Prelude, AfterPrelude, Template, OpOk, AuditWrites, ValidOrder, NeedsCatchUp, NextAudit, AfterAudit;
    var tail := Chain.TailOf(d.audit);
    if op.Open? {
      OpenCatchesUp(ctx, d, view, op, now);
    } else {
      PreludeRun(ctx, d, view, op, tail, now);
    }
    var first := PutStates(Prelude(ctx, view, op, tail, now));
    var d1 := DiskAfter(d, Stamped(first, now));
    var view1 := AfterPrelude(ctx, view, op, tail, now);
    var t := Template(ctx, view, op, now);
    AuditWritesRun(ctx, d1, view1, t, now, compaction);
    var rest := AuditWrites(ctx, view1, t, now, compaction);
    StampedConcat(first, rest, now);
    RunConcat(ctx, d, Stamped(first, now), Stamped(rest, now));
  }

  /** Main result: the writes of every operation are steps of a run that ends
      with the audit tail equal to the high-water mark.  OpenLedger gets there from
      every state a crash may have left. */
  lemma OpIsRun(ctx: Ctx, d: Disk, view: State, op: Op, now: int, compaction: Option<Order>)
    requires HashesOk(ctx) && CanStart(ctx, d, view, op) && OpOk(ctx, op, now)
    requires OrderOk(ctx, view, op, Chain.TailOf(d.audit), now, compaction)
    ensures var tr := OpTrace(ctx, view, op, Chain.TailOf(d.audit), now, compaction);
            Run(ctx, d, tr) && Synced(ctx, DiskAfter(d, tr))
            && SameMeaning(AfterOp(ctx, view, op, Chain.TailOf(d.audit), now, compaction), View(ctx, DiskAfter(d, tr)))
  {
    hide ReplayAll, Chain.ValidChain, Chain.TailOf, Run, Stamped, DiskAfter, SameMeaning, SodSafe, AfterPrelude,
         AfterAudit, CompactState, OpOk, AuditWrites, PutStates, ValidOrder, NeedsCatchUp, CompactRecords;
    var tail := Chain.TailOf(d.audit);
    if op.Compact? {
      CompactOpIsRun(ctx, d, view, op, tail, now, compaction);
    } else if Audits(view, op, tail) {
      AuditingOpIsRun(ctx, d, view, op, now, compaction);
    } else {
      OpenCatchesUp(ctx, d, view, op, now);
      NothingStamped(ctx, d, now);
    }
  }

  lemma NothingStamped(ctx: Ctx, d: Disk, now: int)
    ensures Run(ctx, d, Stamped([], now)) && DiskAfter(d, Stamped([], now)) == d
  {
  }

  lemma CompactOpIsRun(ctx: Ctx, d: Disk, view: State, op: Op, tail: Chain.Tail, now: int, compaction: Option<Order>)
    requires CanStart(ctx, d, view, op) && op.Compact? && OrderOk(ctx, view, op, tail, now, compaction)
    ensures var tr := OpTrace(ctx, view, op, tail, now, compaction);
            Run(ctx, d, tr) && Synced(ctx, DiskAfter(d, tr))
            && SameMeaning(CompactState(view, now), View(ctx, DiskAfter(d, tr)))
  {
    hide ReplayAll, Chain.ValidChain, Chain.TailOf, Run, Stamped, DiskAfter, SameMeaning, SodSafe, ValidOrder,
         CompactRecords, CompactState;
    var w := Swap(CompactRecords(view, ctx.pol.gatewayId, now, compaction.value));
    SwapIsStep(ctx, d, view, compaction.value, now);
    RunOne(ctx, d, w, now);
    SwapEffect(ctx, d, w, now);
    CompactSameMeaning(view, View(ctx, d), now);
    SameMeaningSym(View(ctx, Perform(d, w)), CompactState(View(ctx, d), now));
    SameMeaningChain(CompactState(view, now), CompactState(View(ctx, d), now), View(ctx, Perform(d, w)));
  }

  /** An operation cut short by a crash leaves a state OpenLedger recovers from. */
  lemma CrashedOpRecovers(ctx: Ctx, d: Disk, view: State, op: Op, now: int, compaction: Option<Order>, cut: nat)
    requires HashesOk(ctx) && CanStart(ctx, d, view, op) && SodSafe(ctx, View(ctx, d)) && OpOk(ctx, op, now)
    requires OrderOk(ctx, view, op, Chain.TailOf(d.audit), now, compaction)
    requires cut <= |OpTrace(ctx, view, op, Chain.TailOf(d.audit), now, compaction)|
    ensures var tr := OpTrace(ctx, view, op, Chain.TailOf(d.audit), now, compaction)[..cut];
            Run(ctx, d, tr) && Recoverable(ctx, DiskAfter(d, tr)) && SodSafe(ctx, View(ctx, DiskAfter(d, tr)))
  {
    hide ReplayAll, Chain.ValidChain, Chain.TailOf, Run, OpTrace, DiskAfter, SameMeaning, SodSafe, OpOk, OrderOk,
         StepOk;
    var tr := OpTrace(ctx, view, op, Chain.TailOf(d.audit), now, compaction);
    OpIsRun(ctx, d, view, op, now, compaction);
    RunPrefix(ctx, d, tr, cut);
    RunStaysRecoverable(ctx, d, tr[..cut]);
    SodHoldsThroughout(ctx, d, tr[..cut]);
  }
}
