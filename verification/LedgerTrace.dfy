/** Runs of the ledger, one durable record write at a time (internal/authz/statedb.go).

    Every process holds the exclusive lock while it writes, so the writes of all
    processes form one trace.  A step of the trace is one record appended to
    state.db or audit.jsonl, or one compaction rename, with the time stamp of the
    operation it belongs to.  A crash is a trace that stops anywhere. */
module LedgerTrace {
  import opened LedgerState
  import opened LedgerOps
  import opened Compaction
  import Chain = AuditChain

  datatype Disk = Disk(state: seq<StateRecord>, audit: seq<Chain.AuditRecord>)

  datatype Write =
    | PutState(rec: StateRecord)
    | PutAudit(arec: Chain.AuditRecord)
    | Swap(recs: seq<StateRecord>)

  datatype Timed = Timed(write: Write, now: int)

  function Perform(d: Disk, w: Write): Disk {
    match w
    case PutState(rec) => d.(state := d.state + [rec])
    case PutAudit(r) => d.(audit := d.audit + [r])
    case Swap(recs) => d.(state := recs)
  }

  function DiskAfter(d: Disk, trace: seq<Timed>): Disk {
    if trace == [] then d
    else Perform(DiskAfter(d, trace[..|trace| - 1]), trace[|trace| - 1].write)
  }

  /** The hash function and the policy of a run. */
  datatype Ctx = Ctx(h: Chain.Hasher, pol: Policy)

  /** Record hashes are 64 hexadecimal digits. */
  ghost predicate HashesOk(ctx: Ctx) {
    forall r :: |ctx.h(r)| == 64
  }

  // ----- the two files agree, up to one record -----

  ghost predicate Readable(ctx: Ctx, d: Disk) {
    && ReplayAll(d.state, ctx.pol.gatewayId).Ok?
    && d.audit != []
    && Chain.ValidChain(ctx.h, d.audit, ctx.pol.gatewayId, ReplayAll(d.state, ctx.pol.gatewayId).value.ledgerId)
  }

  /** The state that d.state replays to. */
  function View(ctx: Ctx, d: Disk): State
    requires ReplayAll(d.state, ctx.pol.gatewayId).Ok?
  {
    ReplayAll(d.state, ctx.pol.gatewayId).value
  }

  /** How the end of the audit log relates to the high-water mark. */
  datatype Status = InSync | OneAhead | Damaged

  ghost function StatusOf(ctx: Ctx, d: Disk): Status {
    if !Readable(ctx, d) then Damaged
    else
      var tail, st := Chain.TailOf(d.audit), View(ctx, d);
      if tail.seqNo == st.hwmSeq && tail.hash == st.hwmHash then InSync
      else if tail.seqNo == st.hwmSeq + 1 && tail.prevHash == st.hwmHash then OneAhead
      else Damaged
  }

  /** The last audit record is the high-water mark. */
  ghost predicate Synced(ctx: Ctx, d: Disk) {
    StatusOf(ctx, d) == InSync
  }

  /** The audit log is exactly one record ahead of the high-water mark. */
  ghost predicate Lagging(ctx: Ctx, d: Disk) {
    StatusOf(ctx, d) == OneAhead
  }

  ghost predicate Recoverable(ctx: Ctx, d: Disk) {
    StatusOf(ctx, d) != Damaged
  }

  // ----- which writes the operations make -----

  predicate IsPlain(kind: Kind) {
    kind == Budget || kind == Replay || kind == Challenge || kind == Grant || kind == GrantRevoke
  }

  ghost predicate BudgetChecked(pol: Policy, st: State, req: Request, rec: StateRecord, now: int) {
    && req.targets >= 0 && !OverBudget(pol, st, req, now)
    && rec == BudgetRecord(st.ledgerId, pol.gatewayId, NewBudget(pol, req, now))
  }

  ghost predicate TokenChecked(pol: Policy, st: State, c: Claims, rec: StateRecord, now: int) {
    && !Replayed(st, c.jti, now) && TokenVerified(pol, c, now)
    && rec == ReplayRecord(pol, st.ledgerId, c, now)
  }

  ghost predicate ChallengeChecked(pol: Policy, st: State, principal: string, rec: StateRecord, now: int) {
    && !TooManyChallenges(pol, st, principal, now)
    && rec == ChallengeRecord(st.ledgerId, pol.gatewayId, ChallengeEntry(principal, now, now + 60))
  }

  /** A grant of req on the way from the state before, which the process replayed
      under the lock and checked the request against. */
  ghost predicate GrantChecked(pol: Policy, before: State, st: State, req: Request, rec: StateRecord) {
    && !SodConflict(pol, before, req) && Granting(before, st, req)
    && rec.key in req.subjects && rec.subKey in req.ents
  }

  /** Between before and st, pairs of req have been granted and nothing else. */
  ghost predicate Granting(before: State, st: State, req: Request) {
    && (forall s, e :: Granted(before, s, e) ==> Granted(st, s, e))
    && forall s, e :: Granted(st, s, e) ==> Granted(before, s, e) || (s in req.subjects && e in req.ents)
  }

  /** What has been checked when a state record is written at time now. */
  ghost predicate Checked(pol: Policy, st: State, rec: StateRecord, now: int) {
    match rec.kind
    case Budget => exists req :: BudgetChecked(pol, st, req, rec, now)
    case Replay => exists c :: TokenChecked(pol, st, c, rec, now)
    case Challenge => exists principal :: ChallengeChecked(pol, st, principal, rec, now)
    case Grant => exists before, req :: GrantChecked(pol, before, st, req, rec)
    case _ => true
  }

  ghost predicate PlainStep(ctx: Ctx, d: Disk, w: Write, now: int) {
    && Synced(ctx, d) && w.PutState? && IsPlain(w.rec.kind)
    && w.rec.ledgerId == View(ctx, d).ledgerId && w.rec.gatewayId == ctx.pol.gatewayId
    && Checked(ctx.pol, View(ctx, d), w.rec, now)
  }

  /** The next audit record, made from the template t. */
  function NextAudit(ctx: Ctx, st: State, t: Chain.AuditRecord): Chain.AuditRecord {
    Chain.Chained(ctx.h, t, st.hwmSeq + 1, st.hwmHash, ctx.pol.gatewayId, st.ledgerId)
  }

  ghost predicate AuditStep(ctx: Ctx, d: Disk, w: Write) {
    && Synced(ctx, d) && w.PutAudit?
    && exists t :: w.arec == NextAudit(ctx, View(ctx, d), t)
  }

  ghost predicate CatchUpStep(ctx: Ctx, d: Disk, w: Write, now: int) {
    && Lagging(ctx, d)
    && w == PutState(HwmRecord(View(ctx, d).ledgerId, ctx.pol.gatewayId,
                               Chain.TailOf(d.audit).seqNo, Chain.TailOf(d.audit).hash, now))
  }

  /** A compaction writes what some cached view of the file says: that view may
      differ from the file's replay in what SameMeaning leaves open. */
  ghost predicate SwapStep(ctx: Ctx, d: Disk, w: Write, now: int) {
    && Synced(ctx, d) && w.Swap?
    && exists view, o :: IsCompaction(ctx, View(ctx, d), view, o, now, w.recs)
  }

  ghost predicate IsCompaction(ctx: Ctx, st: State, view: State, o: Order, now: int, recs: seq<StateRecord>) {
    && SameMeaning(view, st) && ValidOrder(view, now, o)
    && recs == CompactRecords(view, ctx.pol.gatewayId, now, o)
  }

  ghost predicate StepOk(ctx: Ctx, d: Disk, w: Write, now: int) {
    PlainStep(ctx, d, w, now) || AuditStep(ctx, d, w) || CatchUpStep(ctx, d, w, now) || SwapStep(ctx, d, w, now)
  }

  /** The step at position k of a trace. */
  ghost predicate StepAt(ctx: Ctx, d: Disk, trace: seq<Timed>, k: int)
    requires 0 <= k < |trace|
  {
    StepOk(ctx, DiskAfter(d, trace[..k]), trace[k].write, trace[k].now)
  }

  ghost predicate Run(ctx: Ctx, d: Disk, trace: seq<Timed>) {
    forall k | 0 <= k < |trace| :: StepAt(ctx, d, trace, k)
  }

  // ----- one step at a time -----

  lemma AppendRecord(ctx: Ctx, d: Disk, rec: StateRecord)
    requires ReplayAll(d.state, ctx.pol.gatewayId).Ok?
    requires rec.ledgerId == View(ctx, d).ledgerId && rec.gatewayId == ctx.pol.gatewayId
    requires Absorb(View(ctx, d), rec).Ok? && Complete(Absorb(View(ctx, d), rec).value)
    ensures ReplayAll(d.state + [rec], ctx.pol.gatewayId) == Absorb(View(ctx, d), rec)
  {
    hide Absorb, Fold;
    DeltaReplay(d.state, [rec], ctx.pol.gatewayId);
    ReplayIsWellFormed(d.state, ctx.pol.gatewayId);
    FoldOne(View(ctx, d), rec, ctx.pol.gatewayId);
  }

  lemma PlainAbsorb(st: State, rec: StateRecord)
    requires IsPlain(rec.kind)
    ensures Absorb(st, rec).Ok?
    ensures var st' := Absorb(st, rec).value;
            st'.ledgerId == st.ledgerId && st'.gatewayId == st.gatewayId
            && st'.hwmSeq == st.hwmSeq && st'.hwmHash == st.hwmHash
  {
  }

  lemma PlainStepEffect(ctx: Ctx, d: Disk, w: Write, now: int)
    requires PlainStep(ctx, d, w, now)
    ensures Synced(ctx, Perform(d, w))
    ensures Absorb(View(ctx, d), w.rec) == Ok(View(ctx, Perform(d, w)))
  {
    hide Absorb, Checked, ReplayAll;
    PlainAbsorb(View(ctx, d), w.rec);
    ReplayGives(ctx, d);
    AppendRecord(ctx, d, w.rec);
  }

  lemma ReplayGives(ctx: Ctx, d: Disk)
    requires ReplayAll(d.state, ctx.pol.gatewayId).Ok?
    ensures Complete(View(ctx, d)) && WellFormed(View(ctx, d), ctx.pol.gatewayId) && View(ctx, d).ledgerId != ""
  {
    ReplayIsWellFormed(d.state, ctx.pol.gatewayId);
  }

  lemma AuditStepEffect(ctx: Ctx, d: Disk, w: Write)
    requires AuditStep(ctx, d, w)
    ensures Lagging(ctx, Perform(d, w)) && View(ctx, Perform(d, w)) == View(ctx, d)
    ensures Perform(d, w).audit == d.audit + [w.arec]
  {
    hide ReplayAll, Chain.ValidChain, NextAudit;
    var st, gw := View(ctx, d), ctx.pol.gatewayId;
    var t :| w.arec == NextAudit(ctx, st, t);
    NextAuditExtends(ctx, d.audit, st, t);
  }

  lemma NextAuditExtends(ctx: Ctx, log: seq<Chain.AuditRecord>, st: State, t: Chain.AuditRecord)
    requires log != [] && Chain.ValidChain(ctx.h, log, ctx.pol.gatewayId, st.ledgerId)
    requires Chain.TailOf(log).seqNo == st.hwmSeq && Chain.TailOf(log).hash == st.hwmHash
    ensures var r := NextAudit(ctx, st, t);
            Chain.ValidChain(ctx.h, log + [r], ctx.pol.gatewayId, st.ledgerId)
            && r.seqNo == st.hwmSeq + 1 && r.prevHash == st.hwmHash
  {
    hide Chain.ValidChain, Chain.LineOk;
    Chain.TailSeqIsLength(ctx.h, log, ctx.pol.gatewayId, st.ledgerId);
    Chain.AppendKeepsChain(ctx.h, log, t, ctx.pol.gatewayId, st.ledgerId);
  }

  lemma CatchUpEffect(ctx: Ctx, d: Disk, w: Write, now: int)
    requires CatchUpStep(ctx, d, w, now) && HashesOk(ctx)
    ensures Synced(ctx, Perform(d, w))
    ensures var tail := Chain.TailOf(d.audit);
            View(ctx, Perform(d, w)) == View(ctx, d).(hwmSeq := tail.seqNo, hwmHash := tail.hash)
  {
    hide ReplayAll, Chain.ValidChain, Chain.Normal;
    var st := View(ctx, d);
    ReplayGives(ctx, d);
    LastHashLength(ctx, d.audit, st.ledgerId);
    AppendRecord(ctx, d, w.rec);
  }

  lemma LastHashLength(ctx: Ctx, log: seq<Chain.AuditRecord>, id: string)
    requires HashesOk(ctx) && log != [] && Chain.ValidChain(ctx.h, log, ctx.pol.gatewayId, id)
    ensures |Chain.TailOf(log).hash| == 64
  {
    Chain.ValidAt(ctx.h, log, |log| - 1, ctx.pol.gatewayId, id);
  }

  lemma SwapEffect(ctx: Ctx, d: Disk, w: Write, now: int)
    requires SwapStep(ctx, d, w, now)
    ensures Synced(ctx, Perform(d, w))
    ensures SameMeaning(View(ctx, Perform(d, w)), CompactState(View(ctx, d), now))
  {
    hide ReplayAll, Chain.ValidChain, CompactRecords, ValidOrder;
    var st := View(ctx, d);
    var view, o :| IsCompaction(ctx, st, view, o, now, w.recs);
    ReplayGives(ctx, d);
    SameMeaningWellFormed(view, st, ctx.pol.gatewayId);
    CompactedFileReplays(view, ctx.pol.gatewayId, now, o);
    CompactSameMeaning(view, st, now);
  }

  lemma SameMeaningWellFormed(a: State, b: State, gw: string)
    requires SameMeaning(a, b) && WellFormed(b, gw) && Complete(b)
    ensures WellFormed(a, gw) && Complete(a)
  {
  }

  lemma CompactSameMeaning(a: State, b: State, now: int)
    requires SameMeaning(a, b)
    ensures SameMeaning(CompactState(a, now), CompactState(b, now))
  {
    assert forall s, e :: Granted(CompactState(a, now), s, e) <==> Granted(a, s, e);
    assert forall s, e :: Granted(CompactState(b, now), s, e) <==> Granted(b, s, e);
  }

  /** Every write of an operation keeps the files recoverable, and none changes
      the ledger's identity. */
  lemma StepKeepsRecoverable(ctx: Ctx, d: Disk, w: Write, now: int)
    requires HashesOk(ctx) && StepOk(ctx, d, w, now)
    ensures Recoverable(ctx, d) && Recoverable(ctx, Perform(d, w))
    ensures View(ctx, Perform(d, w)).ledgerId == View(ctx, d).ledgerId
    ensures d.audit <= Perform(d, w).audit
  {
    hide ReplayAll, Chain.ValidChain, Checked, IsCompaction;
    if PlainStep(ctx, d, w, now) {
      PlainStepEffect(ctx, d, w, now);
      PlainAbsorb(View(ctx, d), w.rec);
    } else if AuditStep(ctx, d, w) {
      AuditStepEffect(ctx, d, w);
    } else if CatchUpStep(ctx, d, w, now) {
      CatchUpEffect(ctx, d, w, now);
    } else {
      SwapEffect(ctx, d, w, now);
    }
  }

  lemma RunPrefix(ctx: Ctx, d: Disk, trace: seq<Timed>, n: nat)
    requires Run(ctx, d, trace) && n <= |trace|
    ensures Run(ctx, d, trace[..n])
  {
    hide StepOk;
    forall k | 0 <= k < n ensures StepAt(ctx, d, trace[..n], k) {
      assert trace[..n][..k] == trace[..k];
      assert StepAt(ctx, d, trace, k);
    }
  }

  lemma RunLast(ctx: Ctx, d: Disk, trace: seq<Timed>)
    requires Run(ctx, d, trace) && trace != []
    ensures Run(ctx, d, trace[..|trace| - 1])
    ensures StepOk(ctx, DiskAfter(d, trace[..|trace| - 1]), trace[|trace| - 1].write, trace[|trace| - 1].now)
  {
    hide StepOk, DiskAfter;
    RunPrefix(ctx, d, trace, |trace| - 1);
    assert StepAt(ctx, d, trace, |trace| - 1);
  }

  /** Crash safety: wherever a run stops, the audit log is a valid chain from
      genesis whose last record is the high-water mark or exactly one past it. */
  lemma {:induction false} RunStaysRecoverable(ctx: Ctx, d: Disk, trace: seq<Timed>)
    requires HashesOk(ctx) && Recoverable(ctx, d) && Run(ctx, d, trace)
    ensures Recoverable(ctx, DiskAfter(d, trace)) && d.audit <= DiskAfter(d, trace).audit
    ensures View(ctx, DiskAfter(d, trace)).ledgerId == View(ctx, d).ledgerId
  {
    hide Recoverable, StepOk, View, Perform, Readable;
    if trace != [] {
      RunLast(ctx, d, trace);
      var init, last := trace[..|trace| - 1], trace[|trace| - 1];
      RunStaysRecoverable(ctx, d, init);
      StepKeepsRecoverable(ctx, DiskAfter(d, init), last.write, last.now);
    }
  }
}
