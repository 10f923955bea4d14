/** What each operation changes in the ledger, in terms of the state before and after it. */
module LedgerEffects {
  import opened LedgerState
  import opened LedgerOps
  import opened Compaction
  import opened LedgerTrace
  import opened LedgerSafety
  import opened LedgerRuns
  import Chain = AuditChain

  /** A completed operation: it starts on the disk d, whose state.db replays to st, and ends
      on d', whose state.db replays to st'; the process then remembers mem. */
  ghost predicate Goes(ctx: Ctx, d: Disk, st: State, view: State, op: Op, now: int, compaction: Option<Order>,
                       d': Disk, st': State, mem: State) {
    && HashesOk(ctx) && CanStart(ctx, d, view, op) && OpOk(ctx, op, now)
    && OrderOk(ctx, view, op, Chain.TailOf(d.audit), now, compaction)
    && d' == DiskAfter(d, OpTrace(ctx, view, op, Chain.TailOf(d.audit), now, compaction))
    && mem == AfterOp(ctx, view, op, Chain.TailOf(d.audit), now, compaction)
    && ReplayAll(d.state, ctx.pol.gatewayId) == Ok(st) && ReplayAll(d'.state, ctx.pol.gatewayId) == Ok(st')
  }

  /** Every operation that may start can go through. */
  lemma OperationGoes(ctx: Ctx, d: Disk, view: State, op: Op, now: int, compaction: Option<Order>)
    requires HashesOk(ctx) && CanStart(ctx, d, view, op) && OpOk(ctx, op, now)
    requires OrderOk(ctx, view, op, Chain.TailOf(d.audit), now, compaction)
    ensures exists st, d', st', mem :: Goes(ctx, d, st, view, op, now, compaction, d', st', mem)
  {
    hide OpOk, OrderOk, Run, SameMeaning, AfterOp, DiskAfter, OpTrace, Chain.TailOf, ReplayAll, Chain.ValidChain;
    OpIsRun(ctx, d, view, op, now, compaction);
    var tail := Chain.TailOf(d.audit);
    var d' := DiskAfter(d, OpTrace(ctx, view, op, tail, now, compaction));
    assert Goes(ctx, d, View(ctx, d), view, op, now, compaction, d', View(ctx, d'), AfterOp(ctx, view, op, tail, now, compaction));
  }

  lemma GoesMeans(ctx: Ctx, d: Disk, st: State, view: State, op: Op, now: int, compaction: Option<Order>,
                  d': Disk, st': State, mem: State)
    requires Goes(ctx, d, st, view, op, now, compaction, d', st', mem)
    ensures SameMeaning(view, st) && SameMeaning(mem, st') && Synced(ctx, d')
    ensures View(ctx, d) == st && View(ctx, d') == st'
  {
    hide OpOk, OrderOk, Run, SameMeaning, AfterOp, DiskAfter, OpTrace, Chain.TailOf, ReplayAll, Synced;
    OpIsRun(ctx, d, view, op, now, compaction);
  }

  /** Equal lists and tokens, or without a compaction only those that it keeps. */
  predicate Kept(st: State, budgets: seq<BudgetEntry>, replays: map<string, StateRecord>, challenges: seq<ChallengeEntry>,
                 now: int, compacted: bool) {
    if compacted then
      && st.budgets == KeptBudgets(budgets, now) && st.challenges == KeptChallenges(challenges, now)
      && st.replays == map j | j in replays && replays[j].expiresAt > now :: replays[j]
    else st.budgets == budgets && st.replays == replays && st.challenges == challenges
  }

  // ----- the audit record -----

  /** The record that an operation appends: chained to the log, with the template's contents. */
  predicate AppendedFrom(ctx: Ctx, r: Chain.AuditRecord, log: seq<Chain.AuditRecord>, id: string, t: Chain.AuditRecord,
                         decision: string) {
    && log != [] && r.seqNo == |log| + 1 && r.prevHash == log[|log| - 1].recordHash
    && r.gatewayId == ctx.pol.gatewayId && r.ledgerId == id && r.decision == decision
    && r.principalId == t.principalId && r.approvalJti == t.approvalJti && r.details == t.details
    && r.scopes == Chain.Some(if t.scopes.None? then [] else t.scopes.value)
    && r.args == Chain.Some(if t.args.None? then map[] else t.args.value)
    && r.recordHash == ctx.h(r.(recordHash := ""))
  }

  lemma NextAuditIs(ctx: Ctx, log: seq<Chain.AuditRecord>, st: State, t: Chain.AuditRecord)
    requires log != [] && st.hwmSeq == |log| && st.hwmHash == log[|log| - 1].recordHash
    ensures AppendedFrom(ctx, NextAudit(ctx, st, t), log, st.ledgerId, t, t.decision)
  {
  }

  lemma SyncedMark(ctx: Ctx, d: Disk)
    requires Synced(ctx, d)
    ensures ReplayAll(d.state, ctx.pol.gatewayId).Ok?
    ensures d.audit != [] && View(ctx, d).hwmSeq == |d.audit| && View(ctx, d).hwmHash == d.audit[|d.audit| - 1].recordHash
  {
    hide ReplayAll, Chain.ValidChain;
    Chain.TailSeqIsLength(ctx.h, d.audit, ctx.pol.gatewayId, View(ctx, d).ledgerId);
  }

  /** One record is appended, made from t, and the mark st' stands at it. */
  ghost predicate Audited(ctx: Ctx, d: Disk, st: State, d': Disk, st': State, t: Chain.AuditRecord, decision: string) {
    && |d'.audit| == |d.audit| + 1 && d'.audit[..|d.audit|] == d.audit
    && AppendedFrom(ctx, d'.audit[|d.audit|], d.audit, st.ledgerId, t, decision)
    && st'.ledgerId == st.ledgerId && st'.hwmSeq == |d'.audit| && st'.hwmHash == d'.audit[|d.audit|].recordHash
  }

  lemma AuditEffect(ctx: Ctx, d: Disk, st: State, view: State, op: Op, now: int, compaction: Option<Order>,
                    d': Disk, st': State, mem: State, t: Chain.AuditRecord)
    requires Goes(ctx, d, st, view, op, now, compaction, d', st', mem) && !op.Open? && !op.Compact?
    requires var mid := AfterPrelude(ctx, view, op, Chain.TailOf(d.audit), now);
             mid.hwmSeq == view.hwmSeq && mid.hwmHash == view.hwmHash && mid.ledgerId == view.ledgerId
    requires var u := Template(ctx, view, op, now); u == t.(decision := u.decision)
    ensures Audited(ctx, d, st, d', st', t, Template(ctx, view, op, now).decision)
  {
    GoesMeans(ctx, d, st, view, op, now, compaction, d', st', mem);
    hide OpOk, OrderOk, Run, AfterOp, DiskAfter, OpTrace, NextAudit, AfterPrelude, Template, AppendedFrom, ReplayAll,
         Chain.ValidChain, Chain.TailOf, SameMeaning;
    AuditingOpIsRun(ctx, d, view, op, now, compaction);
    SyncedMark(ctx, d);
    SyncedMark(ctx, d');
    SameMeaningId(view, st);
    var mid, u := AfterPrelude(ctx, view, op, Chain.TailOf(d.audit), now), Template(ctx, view, op, now);
    NextAuditIs(ctx, d.audit, mid, u);
    FromTemplate(ctx, NextAudit(ctx, mid, u), d.audit, mid.ledgerId, u, t);
    OpKeepsId(ctx, d, view, op, now, compaction);
  }

  lemma OpKeepsId(ctx: Ctx, d: Disk, view: State, op: Op, now: int, compaction: Option<Order>)
    requires HashesOk(ctx) && CanStart(ctx, d, view, op) && OpOk(ctx, op, now)
    requires OrderOk(ctx, view, op, Chain.TailOf(d.audit), now, compaction)
    ensures var d' := DiskAfter(d, OpTrace(ctx, view, op, Chain.TailOf(d.audit), now, compaction));
            Recoverable(ctx, d') && View(ctx, d').ledgerId == View(ctx, d).ledgerId
  {
    hide OpOk, OrderOk, Run, AfterOp, DiskAfter, OpTrace, ReplayAll, Chain.ValidChain, Chain.TailOf, SameMeaning;
    OpIsRun(ctx, d, view, op, now, compaction);
    RunStaysRecoverable(ctx, d, OpTrace(ctx, view, op, Chain.TailOf(d.audit), now, compaction));
  }

  lemma FromTemplate(ctx: Ctx, r: Chain.AuditRecord, log: seq<Chain.AuditRecord>, id: string, u: Chain.AuditRecord,
                     t: Chain.AuditRecord)
    requires AppendedFrom(ctx, r, log, id, u, u.decision) && u == t.(decision := u.decision)
    ensures AppendedFrom(ctx, r, log, id, t, u.decision)
  {
  }

  // ----- from the remembered state to the replayed one -----

  lemma SameGrants(a: State, b: State)
    requires SameMeaning(a, b)
    ensures forall s, e :: Granted(a, s, e) <==> Granted(b, s, e)
  {
  }

  lemma SameKept(a: State, b: State, budgets: seq<BudgetEntry>, replays: map<string, StateRecord>,
                 challenges: seq<ChallengeEntry>, now: int, compacted: bool)
    requires SameMeaning(a, b)
    ensures Kept(a, budgets, replays, challenges, now, compacted) <==> Kept(b, budgets, replays, challenges, now, compacted)
  {
    SameMeaningId(a, b);
  }

  /** The audit record, the mark and the compaction leave the rest as the prelude made it. */
  lemma AfterAuditKeeps(ctx: Ctx, st: State, t: Chain.AuditRecord, now: int, compaction: Option<Order>)
    ensures var st' := AfterAudit(ctx, st, t, now, compaction);
            Kept(st', st.budgets, st.replays, st.challenges, now, compaction.Some?)
            && forall s, e :: Granted(st', s, e) <==> Granted(st, s, e)
  {
    hide NextAudit;
    assert forall s, e :: Granted(AfterAudit(ctx, st, t, now, compaction), s, e) <==> Granted(st, s, e);
  }

  /** What a completed operation leaves, from the state mid before its audit record. */
  lemma Concludes(ctx: Ctx, view: State, st: State, mid: State, t: Chain.AuditRecord, now: int, compaction: Option<Order>,
                  mem: State, st': State)
    requires SameMeaning(view, st) && SameMeaning(mem, st') && mem == AfterAudit(ctx, mid, t, now, compaction)
    ensures view.budgets == st.budgets && view.replays == st.replays && view.challenges == st.challenges
    ensures forall s, e :: Granted(view, s, e) <==> Granted(st, s, e)
    ensures Kept(st', mid.budgets, mid.replays, mid.challenges, now, compaction.Some?)
    ensures Kept(mem, mid.budgets, mid.replays, mid.challenges, now, compaction.Some?)
    ensures forall s, e :: Granted(st', s, e) <==> Granted(mid, s, e)
    ensures forall s, e :: Granted(mem, s, e) <==> Granted(mid, s, e)
  {
    hide SameMeaning, AfterAudit, Kept, Granted;
    AfterAuditKeeps(ctx, mid, t, now, compaction);
    SameMeaningId(view, st);
    SameGrants(view, st);
    SameGrants(mem, st');
    SameKept(mem, st', mid.budgets, mid.replays, mid.challenges, now, compaction.Some?);
  }

  /** The remembered state of an auditing operation. */
  lemma MemoryIs(ctx: Ctx, d: Disk, st: State, view: State, op: Op, now: int, compaction: Option<Order>,
                 d': Disk, st': State, mem: State)
    requires Goes(ctx, d, st, view, op, now, compaction, d', st', mem) && !op.Open? && !op.Compact?
    ensures SameMeaning(view, st) && SameMeaning(mem, st')
    ensures mem == AfterAudit(ctx, AfterPrelude(ctx, view, op, Chain.TailOf(d.audit), now), Template(ctx, view, op, now), now, compaction)
  {
    hide AfterPrelude, Template, AfterAudit, OpTrace, DiskAfter, SameMeaning, OpOk, OrderOk, ReplayAll, Chain.TailOf;
    GoesMeans(ctx, d, st, view, op, now, compaction, d', st', mem);
  }

  // ----- revocation -----

  lemma RemoveGrantIs(view: State, subject: string, ent: string)
    ensures var st := RemoveGrant(view, subject, ent);
            && st.budgets == view.budgets && st.replays == view.replays && st.challenges == view.challenges
            && st.hwmSeq == view.hwmSeq && st.hwmHash == view.hwmHash && st.ledgerId == view.ledgerId
            && forall s, e :: Granted(st, s, e) <==> Granted(view, s, e) && !(s == subject && e == ent)
  {
    GrantEffect(view, subject, ent, 0);
  }

  /** Main result: a revocation takes away the one grant it names, in the files and in
      memory, and nothing else; it is audited as the template says. */
  lemma RevokeRevokes(ctx: Ctx, d: Disk, st: State, view: State, subject: string, ent: string, value: string,
                      t: Chain.AuditRecord, now: int, compaction: Option<Order>, d': Disk, st': State, mem: State)
    requires Goes(ctx, d, st, view, Op.Revoke(subject, ent, value, t), now, compaction, d', st', mem)
    ensures forall s, e :: Granted(st', s, e) <==> Granted(st, s, e) && !(s == subject && e == ent)
    ensures forall s, e :: Granted(mem, s, e) <==> Granted(st, s, e) && !(s == subject && e == ent)
    ensures Kept(st', st.budgets, st.replays, st.challenges, now, compaction.Some?)
    ensures Kept(mem, st.budgets, st.replays, st.challenges, now, compaction.Some?)
    ensures Audited(ctx, d, st, d', st', t, t.decision)
  {
    var op := Op.Revoke(subject, ent, value, t);
    RemoveGrantIs(view, subject, ent);
    hide Goes, AfterAudit, RemoveGrant, Audited, Kept, SameMeaning, Chain.TailOf;
    MemoryIs(ctx, d, st, view, op, now, compaction, d', st', mem);
    AuditEffect(ctx, d, st, view, op, now, compaction, d', st', mem, t);
    Concludes(ctx, view, st, RemoveGrant(view, subject, ent), t, now, compaction, mem, st');
  }

  // ----- challenges -----

  /** The live challenges of a principal within the last minute. */
  function Live(challenges: seq<ChallengeEntry>, principal: string, now: int): set<int> {
    set i | 0 <= i < |challenges| && IsLive(challenges[i], principal, now)
  }

  predicate IsLive(c: ChallengeEntry, principal: string, now: int) {
    c.principal == principal && c.issuedAt > now - 60 && c.expiresAt > now
  }

  lemma {:induction false} ChallengesInIsCount(challenges: seq<ChallengeEntry>, principal: string, now: int)
    ensures ChallengesIn(challenges, principal, now) == |Live(challenges, principal, now)|
  {
    if challenges != [] {
      hide IsLive;
      var k := |challenges| - 1;
      ChallengesInIsCount(challenges[..k], principal, now);
      LiveSnoc(challenges, principal, now);
      LastIsLive(challenges, principal, now);
    }
  }

  lemma LiveSnoc(challenges: seq<ChallengeEntry>, principal: string, now: int)
    requires challenges != []
    ensures var k := |challenges| - 1;
            |Live(challenges, principal, now)| == |Live(challenges[..k], principal, now)| + if IsLive(challenges[k], principal, now) then 1 else 0
  {
    hide IsLive;
    var k := |challenges| - 1;
    var init := Live(challenges[..k], principal, now);
    assert Live(challenges, principal, now) == init + if IsLive(challenges[k], principal, now) then {k} else {};
  }

  lemma LastIsLive(challenges: seq<ChallengeEntry>, principal: string, now: int)
    requires challenges != []
    ensures var k := |challenges| - 1;
            ChallengesIn(challenges, principal, now)
            == ChallengesIn(challenges[..k], principal, now) + if IsLive(challenges[k], principal, now) then 1 else 0
  {
  }

  /** The challenges admitted at now: the new one lives for 60 seconds. */
  function WithChallenge(st: State, principal: string, now: int, admitted: bool): seq<ChallengeEntry> {
    if admitted then st.challenges + [ChallengeEntry(principal, now, now + 60)] else st.challenges
  }

  /** Main result: a challenge is admitted exactly when no limit is set or the principal has
      fewer live ones within a minute than the limit; it then lives for 60 seconds; a
      refused one leaves only a denial in the log. */
  lemma ChallengeIsCounted(ctx: Ctx, d: Disk, st: State, view: State, principal: string, t: Chain.AuditRecord, now: int,
                           compaction: Option<Order>, d': Disk, st': State, mem: State, admitted: bool)
    requires Goes(ctx, d, st, view, Op.RecordChallenge(principal, t), now, compaction, d', st', mem)
    requires admitted <==> ctx.pol.maxChallengesPerMinute <= 0
                           || |Live(st.challenges, principal, now)| < ctx.pol.maxChallengesPerMinute
    ensures admitted <==> !TooManyChallenges(ctx.pol, view, principal, now)
    ensures Kept(st', st.budgets, st.replays, WithChallenge(st, principal, now, admitted), now, compaction.Some?)
    ensures Kept(mem, st.budgets, st.replays, WithChallenge(st, principal, now, admitted), now, compaction.Some?)
    ensures forall s, e :: Granted(st', s, e) <==> Granted(st, s, e)
    ensures Audited(ctx, d, st, d', st', t, if admitted then t.decision else "deny")
  {
    var op := Op.RecordChallenge(principal, t);
    var mid := AfterPrelude(ctx, view, op, Chain.TailOf(d.audit), now);
    SameGrantsOf(view, mid);
    MidIs(ctx, d, st, view, principal, t, now, compaction, d', st', mem);
    hide Goes, AfterAudit, Audited, Kept, SameMeaning, Chain.TailOf, ChallengesIn, Live, AfterPrelude, TooManyChallenges, Template;
    MemoryIs(ctx, d, st, view, op, now, compaction, d', st', mem);
    AuditEffect(ctx, d, st, view, op, now, compaction, d', st', mem, t);
    Concludes(ctx, view, st, mid, Template(ctx, view, op, now), now, compaction, mem, st');
  }

  lemma MidIs(ctx: Ctx, d: Disk, st: State, view: State, principal: string, t: Chain.AuditRecord, now: int,
              compaction: Option<Order>, d': Disk, st': State, mem: State)
    requires Goes(ctx, d, st, view, Op.RecordChallenge(principal, t), now, compaction, d', st', mem)
    ensures var op := Op.RecordChallenge(principal, t);
            var mid := AfterPrelude(ctx, view, op, Chain.TailOf(d.audit), now);
            var admitted := ctx.pol.maxChallengesPerMinute <= 0 || |Live(st.challenges, principal, now)| < ctx.pol.maxChallengesPerMinute;
            && (admitted <==> !TooManyChallenges(ctx.pol, view, principal, now))
            && mid == view.(challenges := WithChallenge(view, principal, now, admitted)) && view.challenges == st.challenges
            && Template(ctx, view, op, now) == t.(decision := if admitted then t.decision else "deny")
  {
    hide OpOk, OrderOk, OpTrace, DiskAfter, AfterOp, ReplayAll, ChallengesIn, Live, SameMeaning;
    GoesMeans(ctx, d, st, view, Op.RecordChallenge(principal, t), now, compaction, d', st', mem);
    SameMeaningId(view, st);
    ChallengesInIsCount(view.challenges, principal, now);
  }

  lemma SameGrantsOf(a: State, b: State)
    requires a.grants == b.grants
    ensures forall s, e :: Granted(a, s, e) <==> Granted(b, s, e)
  {
  }

  // ----- commits -----

  /** The token record of an approval. */
  predicate IsTokenOf(r: StateRecord, pol: Policy, c: Claims, now: int) {
    var skew := if pol.maxClockSkewSeconds <= 0 then 30 else pol.maxClockSkewSeconds;
    && r.kind == Replay && r.key == c.jti && r.value == c.intentDigest && r.issuedAt == now
    && r.expiresAt == c.expiresAt + skew + 60
  }

  /** The tokens after a commit: the approval's own, if any, and the others as before. */
  predicate Consumes(pol: Policy, replays: map<string, StateRecord>, replays': map<string, StateRecord>,
                     approval: Option<Claims>, now: int) {
    match approval
    case None => replays' == replays
    case Some(c) =>
      && replays'.Keys == replays.Keys + {c.jti} && IsTokenOf(replays'[c.jti], pol, c, now)
      && forall j | j in replays && j != c.jti :: replays'[j] == replays[j]
  }

  /** The charge of a commit: the requested targets, for the policy's window. */
  function ChargeOf(pol: Policy, req: Request, now: int): BudgetEntry {
    BudgetEntry(req.principal, req.targets, now, now + if pol.budgetWindowSeconds < 60 then 3600 else pol.budgetWindowSeconds)
  }

  /** Main result: an allowed commit charges the principal for exactly the requested targets,
      grants exactly the requested pairs and consumes exactly its token, and is audited as allowed. */
  lemma CommitCommits(ctx: Ctx, d: Disk, st: State, view: State, req: Request, t: Chain.AuditRecord, now: int,
                      compaction: Option<Order>, d': Disk, st': State, mem: State) returns (replays: map<string, StateRecord>)
    requires Goes(ctx, d, st, view, Op.Commit(req, t), now, compaction, d', st', mem)
    requires Decide(ctx.pol, view, req, now) == Allow
    ensures Consumes(ctx.pol, st.replays, replays, req.approval, now)
    ensures Kept(st', st.budgets + [ChargeOf(ctx.pol, req, now)], replays, st.challenges, now, compaction.Some?)
    ensures Kept(mem, st.budgets + [ChargeOf(ctx.pol, req, now)], replays, st.challenges, now, compaction.Some?)
    ensures forall s, e :: Granted(st', s, e) <==> Granted(st, s, e) || (s in req.subjects && e in req.ents)
    ensures Audited(ctx, d, st, d', st', t, "pre_forward_allow")
  {
    var op := Op.Commit(req, t);
    var mid := CommitState(ctx.pol, view, req, now);
    replays := mid.replays;
    CommitMid(ctx, d, view, req, t, now, compaction) by { hide ReplayAll; }
    hide Goes, AfterAudit, Audited, Kept, SameMeaning, Chain.TailOf, Decide, CommitState, AfterPrelude, Template, Consumes;
    MemoryIs(ctx, d, st, view, op, now, compaction, d', st', mem);
    AuditEffect(ctx, d, st, view, op, now, compaction, d', st', mem, t);
    Concludes(ctx, view, st, mid, t, now, compaction, mem, st');
  }

  /** The state before the audit record of an allowed commit. */
  lemma CommitMid(ctx: Ctx, d: Disk, view: State, req: Request, t: Chain.AuditRecord, now: int, compaction: Option<Order>)
    requires Decide(ctx.pol, view, req, now) == Allow && OpOk(ctx, Op.Commit(req, t), now)
    ensures var op := Op.Commit(req, t);
            var mid := CommitState(ctx.pol, view, req, now);
            && AfterPrelude(ctx, view, op, Chain.TailOf(d.audit), now) == mid
            && Template(ctx, view, op, now) == t && t.decision == "pre_forward_allow"
            && mid.hwmSeq == view.hwmSeq && mid.hwmHash == view.hwmHash && mid.ledgerId == view.ledgerId
            && mid.budgets == view.budgets + [ChargeOf(ctx.pol, req, now)] && mid.challenges == view.challenges
            && Consumes(ctx.pol, view.replays, mid.replays, req.approval, now)
            && forall s, e :: Granted(mid, s, e) <==> Granted(view, s, e) || (s in req.subjects && e in req.ents)
  {
    hide Decide, CommitState, TokenVerified, Granted;
    CommitStateEffect(ctx.pol, view, req, now);
    AllowTemplate(ctx, view, req, t, now);
  }

  lemma AllowTemplate(ctx: Ctx, view: State, req: Request, t: Chain.AuditRecord, now: int)
    requires Decide(ctx.pol, view, req, now) == Allow && OpOk(ctx, Op.Commit(req, t), now)
    ensures Template(ctx, view, Op.Commit(req, t), now) == t && t.decision == "pre_forward_allow"
  {
    hide Decide, TokenVerified;
  }

  /** A denied commit changes nothing but the log. */
  lemma DeniedCommitKeeps(ctx: Ctx, d: Disk, st: State, view: State, req: Request, t: Chain.AuditRecord, now: int,
                          compaction: Option<Order>, d': Disk, st': State, mem: State)
    requires Goes(ctx, d, st, view, Op.Commit(req, t), now, compaction, d', st', mem)
    requires Decide(ctx.pol, view, req, now) != Allow
    ensures Kept(st', st.budgets, st.replays, st.challenges, now, compaction.Some?)
    ensures Kept(mem, st.budgets, st.replays, st.challenges, now, compaction.Some?)
    ensures forall s, e :: Granted(st', s, e) <==> Granted(st, s, e)
    ensures Audited(ctx, d, st, d', st', t, "deny")
  {
    var op := Op.Commit(req, t);
    hide Goes, AfterAudit, Audited, Kept, SameMeaning, Chain.TailOf, Decide;
    MemoryIs(ctx, d, st, view, op, now, compaction, d', st', mem);
    AuditEffect(ctx, d, st, view, op, now, compaction, d', st', mem, t);
    Concludes(ctx, view, st, view, t.(decision := DENY), now, compaction, mem, st');
  }

  /** An audit record alone changes nothing but the log. */
  lemma AuditKeeps(ctx: Ctx, d: Disk, st: State, view: State, t: Chain.AuditRecord, now: int,
                   compaction: Option<Order>, d': Disk, st': State, mem: State)
    requires Goes(ctx, d, st, view, Op.AppendAudit(t), now, compaction, d', st', mem)
    ensures Kept(st', st.budgets, st.replays, st.challenges, now, compaction.Some?)
    ensures Kept(mem, st.budgets, st.replays, st.challenges, now, compaction.Some?)
    ensures forall s, e :: Granted(st', s, e) <==> Granted(st, s, e)
    ensures Audited(ctx, d, st, d', st', t, t.decision)
  {
    var op := Op.AppendAudit(t);
    hide Goes, AfterAudit, Audited, Kept, SameMeaning, Chain.TailOf;
    MemoryIs(ctx, d, st, view, op, now, compaction, d', st', mem);
    AuditEffect(ctx, d, st, view, op, now, compaction, d', st', mem, t);
    Concludes(ctx, view, st, view, t, now, compaction, mem, st');
  }
}
