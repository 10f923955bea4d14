/** Processes that share a ledger, crash, reopen it and forward calls (internal/authz/statedb.go). */
module LedgerSystem {
  import opened LedgerState
  import opened LedgerOps
  import opened Compaction
  import opened LedgerTrace
  import opened LedgerSafety
  import opened LedgerRuns
  import Sod
  import Chain = AuditChain

  /** pending holds the audit sequence numbers of commits that have returned and
      whose call has not yet been forwarded; trace is every durable write so far. */
  datatype Sys = Sys(disk: Disk, up: bool, pending: set<nat>, forwards: seq<nat>, trace: seq<Timed>)

  /** An operation performs its first cut writes; it returns when that is all of
      them, and a shorter cut is a crash. */
  datatype Event =
    | Do(op: Op, now: int, view: State, compaction: Option<Order>, cut: nat)
    | Forward(n: nat)
    | Crash

  /** InitState: a fresh ledger id, one audit record, a header and a mark. */
  function Genesis(ctx: Ctx, id: string, t: Chain.AuditRecord, now: int): Disk {
    var r := Chain.Chained(ctx.h, t, 1, Chain.GENESIS, ctx.pol.gatewayId, id);
    Disk([HeaderRecord(id, ctx.pol.gatewayId, now), HwmRecord(id, ctx.pol.gatewayId, 1, r.recordHash, now)], [r])
  }

  ghost predicate Initial(ctx: Ctx, s: Sys) {
    && (exists id, t, now :: IsLedgerId(id) && s.disk == Genesis(ctx, id, t, now))
    && !s.up && s.pending == {} && s.forwards == [] && s.trace == []
  }

  /** verifyStartupAndRecoverHWM accepts the files. */
  ghost predicate OpenAccepts(ctx: Ctx, d: Disk, view: State) {
    var tail := Chain.TailOf(d.audit);
    && d.audit != [] && Chain.ValidChain(ctx.h, d.audit, ctx.pol.gatewayId, view.ledgerId)
    && ((tail.seqNo == view.hwmSeq && tail.hash == view.hwmHash) || NeedsCatchUp(view, tail))
  }

  predicate CommitAllowed(ctx: Ctx, view: State, op: Op, now: int) {
    op.Commit? && Decide(ctx.pol, view, op.req, now) == Allow
  }

  /** A commit that is about to append audit record n. */
  function Committing(ctx: Ctx, view: State, op: Op, now: int): set<nat> {
    if CommitAllowed(ctx, view, op, now) then {view.hwmSeq + 1} else {}
  }

  /** The guards are what the code has checked: an open ledger or a successful
      OpenLedger, a view loaded under the lock, and what OpOk asks of callers. */
  ghost predicate DoEnabled(ctx: Ctx, s: Sys, ev: Event)
    requires ev.Do?
  {
    && (s.up || ev.op.Open?) && OpOk(ctx, ev.op, ev.now)
    && ReplayAll(s.disk.state, ctx.pol.gatewayId).Ok? && SameMeaning(ev.view, View(ctx, s.disk))
    && (ev.op.Open? ==> OpenAccepts(ctx, s.disk, ev.view))
    && OrderOk(ctx, ev.view, ev.op, Chain.TailOf(s.disk.audit), ev.now, ev.compaction)
    && ev.cut <= |OpTrace(ctx, ev.view, ev.op, Chain.TailOf(s.disk.audit), ev.now, ev.compaction)|
  }

  ghost predicate Next(ctx: Ctx, s: Sys, ev: Event, s': Sys) {
    match ev
    case Do(op, now, view, compaction, cut) =>
      && DoEnabled(ctx, s, ev)
      && var all := OpTrace(ctx, view, op, Chain.TailOf(s.disk.audit), now, compaction);
         var done := cut == |all|;
         s' == Sys(DiskAfter(s.disk, all[..cut]), done,
                   if done then s.pending + Committing(ctx, view, op, now) else {},
                   s.forwards, s.trace + all[..cut])
    case Forward(n) =>
      s.up && n in s.pending && s' == s.(pending := s.pending - {n}, forwards := s.forwards + [n])
    case Crash =>
      s' == s.(up := false, pending := {})
  }

  /** A history of the system, from a fresh ledger. */
  ghost predicate History(ctx: Ctx, states: seq<Sys>, events: seq<Event>) {
    && |states| == |events| + 1 && Initial(ctx, states[0])
    && forall k | 0 <= k < |events| :: Next(ctx, states[k], events[k], states[k + 1])
  }

  // ----- what a commit leaves in the trace -----

  predicate IsAllow(w: Write) {
    w.PutAudit? && w.arec.decision == ALLOW
  }

  /** The write at position p is the allow record n, right after all state
      records of its own commit: budget, grants and, for a high-risk call, the token. */
  ghost predicate CommittedAt(ctx: Ctx, trace: seq<Timed>, n: nat, p: int, req: Request, id: string) {
    && 0 <= p < |trace| && IsAllow(trace[p].write) && trace[p].write.arec.seqNo == n
    && req.targets >= 0
    && (req.approval.Some? ==> TokenVerified(ctx.pol, req.approval.value, trace[p].now))
    && var recs := CommitRecords(ctx.pol, id, req, trace[p].now);
       |recs| <= p && trace[p - |recs|..p] == Stamped(PutStates(recs), trace[p].now)
  }

  ghost predicate Committed(ctx: Ctx, trace: seq<Timed>, n: nat) {
    exists p, req, id :: CommittedAt(ctx, trace, n, p, req, id)
  }

  lemma CommittedStays(ctx: Ctx, trace: seq<Timed>, more: seq<Timed>, n: nat)
    requires Committed(ctx, trace, n)
    ensures Committed(ctx, trace + more, n)
  {
    hide TokenVerified, Stamped, PutStates, CommitRecords;
    var p, req, id :| CommittedAt(ctx, trace, n, p, req, id);
    var recs := CommitRecords(ctx.pol, id, req, trace[p].now);
    assert (trace + more)[p] == trace[p];
    assert (trace + more)[p - |recs|..p] == trace[p - |recs|..p];
    assert CommittedAt(ctx, trace + more, n, p, req, id);
  }

  function Allows(trace: seq<Timed>): nat {
    if trace == [] then 0
    else Allows(trace[..|trace| - 1]) + (if IsAllow(trace[|trace| - 1].write) then 1 else 0)
  }

  lemma {:induction false} CountsConcat(a: seq<Timed>, b: seq<Timed>)
    ensures Allows(a + b) == Allows(a) + Allows(b)
    ensures |Charged(a + b)| == |Charged(a)| + |Charged(b)|
    decreases |b|
  {
    if b == [] {
      assert a + b == a;
    } else {
      var k := |b| - 1;
      assert (a + b)[..|a| + k] == a + b[..k] && (a + b)[|a| + k] == b[k];
      CountsConcat(a, b[..k]);
    }
  }

  lemma {:induction false} OnlyOneAllow(trace: seq<Timed>, p: int)
    requires forall k | 0 <= k < |trace| :: IsAllow(trace[k].write) ==> k == p
    ensures Allows(trace) <= if 0 <= p < |trace| then 1 else 0
    ensures 0 <= p < |trace| && IsAllow(trace[p].write) ==> Allows(trace) == 1
    decreases |trace|
  {
    if trace != [] {
      var init := trace[..|trace| - 1];
      assert forall k | 0 <= k < |init| :: init[k] == trace[k];
      OnlyOneAllow(init, p);
    }
  }

  predicate IsCharge(w: Write) {
    w.PutState? && w.rec.kind == Budget
  }

  lemma {:induction false} FirstIsCharged(trace: seq<Timed>)
    requires trace != [] && IsCharge(trace[0].write)
    ensures |Charged(trace)| >= 1
    decreases |trace|
  {
    if |trace| > 1 {
      FirstIsCharged(trace[..|trace| - 1]);
    } else {
      assert trace[..0] == [];
    }
  }

  /** Only an allowed commit writes an allow record, and first writes its budget. */
  lemma OpAllows(ctx: Ctx, view: State, op: Op, tail: Chain.Tail, now: int, compaction: Option<Order>)
    requires OrderOk(ctx, view, op, tail, now, compaction) && OpOk(ctx, op, now)
    ensures var tr := OpTrace(ctx, view, op, tail, now, compaction);
            var p := |Prelude(ctx, view, op, tail, now)|;
            && (forall k | 0 <= k < |tr| :: IsAllow(tr[k].write) ==> k == p && CommitAllowed(ctx, view, op, now))
            && (CommitAllowed(ctx, view, op, now) ==> 0 < p < |tr| && IsAllow(tr[p].write) && IsCharge(tr[0].write))
  {
    hide CompactRecords, ValidOrder, Decide, TokenVerified, TooManyChallenges, GrantRecords, CommitState, NextAudit,
         NeedsCatchUp, Template, AfterPrelude;
    if !op.Compact? && Audits(view, op, tail) {
      TemplateDecides(ctx, view, op, now);
      NextAuditSays(ctx, AfterPrelude(ctx, view, op, tail, now), Template(ctx, view, op, now));
    }
  }

  lemma NextAuditSays(ctx: Ctx, st: State, t: Chain.AuditRecord)
    ensures NextAudit(ctx, st, t).decision == t.decision && NextAudit(ctx, st, t).seqNo == st.hwmSeq + 1
  {
  }

  lemma TemplateDecides(ctx: Ctx, view: State, op: Op, now: int)
    requires OpOk(ctx, op, now) && !op.Compact?
    ensures Template(ctx, view, op, now).decision == ALLOW <==> CommitAllowed(ctx, view, op, now)
  {
    hide Decide, TokenVerified, TooManyChallenges;
  }

  lemma OpCounts(ctx: Ctx, view: State, op: Op, tail: Chain.Tail, now: int, compaction: Option<Order>, cut: nat)
    requires OrderOk(ctx, view, op, tail, now, compaction) && OpOk(ctx, op, now)
    requires cut <= |OpTrace(ctx, view, op, tail, now, compaction)|
    ensures var tr := OpTrace(ctx, view, op, tail, now, compaction)[..cut];
            Allows(tr) <= |Charged(tr)|
            && (cut == |OpTrace(ctx, view, op, tail, now, compaction)| ==> |Committing(ctx, view, op, now)| <= Allows(tr))
  {
    hide OpTrace, IsAllow, IsCharge, OrderOk, OpOk, CommitAllowed, Prelude;
    var all := OpTrace(ctx, view, op, tail, now, compaction);
    var tr := all[..cut];
    OpAllows(ctx, view, op, tail, now, compaction);
    assert forall k | 0 <= k < |tr| :: tr[k] == all[k];
    if CommitAllowed(ctx, view, op, now) {
      OnlyOneAllow(tr, |Prelude(ctx, view, op, tail, now)|);
      if cut > 0 {
        FirstIsCharged(tr);
      }
    } else {
      OnlyOneAllow(tr, -1);
    }
  }

  /** A completed, allowed commit is recorded as committed. */
  lemma CommitIsCommitted(ctx: Ctx, trace: seq<Timed>, view: State, op: Op, tail: Chain.Tail, now: int, compaction: Option<Order>)
    requires OrderOk(ctx, view, op, tail, now, compaction) && OpOk(ctx, op, now) && CommitAllowed(ctx, view, op, now)
    ensures Committed(ctx, trace + OpTrace(ctx, view, op, tail, now, compaction), view.hwmSeq + 1)
  {
    hide CompactRecords, ValidOrder, Decide, TokenVerified, CommitRecords, CommitState, NextAudit;
    NextAuditSays(ctx, AfterPrelude(ctx, view, op, tail, now), Template(ctx, view, op, now));
    var recs := CommitRecords(ctx.pol, view.ledgerId, op.req, now);
    var more := OpTrace(ctx, view, op, tail, now, compaction);
    var all := trace + more;
    var p := |trace| + |recs|;
    CommitStateMark(ctx.pol, view, op.req, now);
    assert all[p] == more[|recs|];
    assert all[p - |recs|..p] == Stamped(PutStates(recs), now);
    assert CommittedAt(ctx, all, view.hwmSeq + 1, p, op.req, view.ledgerId);
  }

  lemma CommitStateMark(pol: Policy, view: State, req: Request, now: int)
    ensures CommitState(pol, view, req, now).hwmSeq == view.hwmSeq
  {
    hide CommitState;
    CommitStateEffect(pol, view, req, now);
  }

  // ----- the invariant -----

  ghost predicate NoRepeats(xs: seq<nat>) {
    forall i, j | 0 <= i < j < |xs| :: xs[i] != xs[j]
  }

  /** The committed calls: each has its own commit in the trace. */
  ghost predicate CallsOk(ctx: Ctx, s: Sys) {
    && NoRepeats(s.forwards)
    && (forall n :: n in s.pending ==> n !in s.forwards)
    && (forall n :: n in s.pending || n in s.forwards ==> Committed(ctx, s.trace, n) && n <= |s.disk.audit|)
    && |s.forwards| + |s.pending| <= Allows(s.trace) <= |Charged(s.trace)|
  }

  /** The files: d0 was the fresh ledger. */
  ghost predicate FilesOk(ctx: Ctx, d0: Disk, s: Sys) {
    && Run(ctx, d0, s.trace) && s.disk == DiskAfter(d0, s.trace)
    && Recoverable(ctx, s.disk) && (s.up ==> Synced(ctx, s.disk)) && SodSafe(ctx, View(ctx, s.disk))
  }

  lemma GenesisIsFresh(ctx: Ctx, id: string, t: Chain.AuditRecord, now: int)
    requires HashesOk(ctx) && IsLedgerId(id)
    ensures var d := Genesis(ctx, id, t, now);
            Synced(ctx, d) && SodSafe(ctx, View(ctx, d))
            && View(ctx, d).ledgerId == id && View(ctx, d).budgets == [] && View(ctx, d).replays == map[]
            && View(ctx, d).grants == map[] && View(ctx, d).challenges == []
  {
    hide Chain.Chained, IsLedgerId, Sod.SodHolds;
    var gw := ctx.pol.gatewayId;
    var r := Chain.Chained(ctx.h, t, 1, Chain.GENESIS, gw, id);
    var d := Genesis(ctx, id, t, now);
    ChainedHash(ctx, t, id);
    var s0 := EMPTY.(ledgerId := id, gatewayId := gw);
    assert d.state[1..] == [d.state[1]] && d.state[1..][1..] == [];
    LedgerIdNotEmpty(id);
    assert Step(EMPTY, d.state[0], gw, true) == Ok(s0);
    FoldOne(s0, d.state[1], gw);
    NoGrantsSafe(ctx.pol);
  }

  lemma LedgerIdNotEmpty(id: string)
    requires IsLedgerId(id)
    ensures id != ""
  {
  }

  lemma ChainedHash(ctx: Ctx, t: Chain.AuditRecord, id: string)
    requires HashesOk(ctx)
    ensures var r := Chain.Chained(ctx.h, t, 1, Chain.GENESIS, ctx.pol.gatewayId, id);
            |r.recordHash| == 64 && r.seqNo == 1
            && Chain.ValidChain(ctx.h, [r], ctx.pol.gatewayId, id)
  {
    hide Chain.Normal;
  }

  lemma NoGrantsSafe(pol: Policy)
    ensures Sod.SodHolds(pol.rules, pol.statics, map[])
  {
    assert forall j, u | 0 <= j < |pol.rules| :: Sod.LedgerHeld(pol.rules[j], map[], u) == {};
  }

  lemma DoKeepsFiles(ctx: Ctx, d0: Disk, s: Sys, ev: Event, s': Sys)
    requires HashesOk(ctx) && FilesOk(ctx, d0, s) && ev.Do? && Next(ctx, s, ev, s')
    ensures FilesOk(ctx, d0, s')
  {
    hide ReplayAll, Chain.ValidChain, Chain.TailOf, SodSafe, Run, DiskAfter, SameMeaning, OpTrace, OpOk, OrderOk,
         OpenAccepts;
    var all := OpTrace(ctx, ev.view, ev.op, Chain.TailOf(s.disk.audit), ev.now, ev.compaction);
    CrashedOpRecovers(ctx, s.disk, ev.view, ev.op, ev.now, ev.compaction, ev.cut);
    RunConcat(ctx, d0, s.trace, all[..ev.cut]);
    if ev.cut == |all| {
      assert all[..ev.cut] == all;
      OpIsRun(ctx, s.disk, ev.view, ev.op, ev.now, ev.compaction);
    }
  }

  lemma NextAuditNumber(ctx: Ctx, d: Disk, view: State, op: Op, now: int, compaction: Option<Order>)
    requires HashesOk(ctx) && CanStart(ctx, d, view, op) && OpOk(ctx, op, now) && CommitAllowed(ctx, view, op, now)
    requires OrderOk(ctx, view, op, Chain.TailOf(d.audit), now, compaction)
    ensures view.hwmSeq == |d.audit|
    ensures |DiskAfter(d, OpTrace(ctx, view, op, Chain.TailOf(d.audit), now, compaction)).audit| == |d.audit| + 1
  {
    hide ReplayAll, SodSafe, Run, DiskAfter, SameMeaning, OpTrace, OpOk, OrderOk, AfterPrelude, Template, Decide,
         NextAudit, Chain.ValidChain, Chain.TailOf;
    SameMeaningId(view, View(ctx, d));
    Chain.TailSeqIsLength(ctx.h, d.audit, ctx.pol.gatewayId, View(ctx, d).ledgerId);
    AuditingOpIsRun(ctx, d, view, op, now, compaction);
  }

  lemma DoKeepsCalls(ctx: Ctx, d0: Disk, s: Sys, ev: Event, s': Sys)
    requires HashesOk(ctx) && FilesOk(ctx, d0, s) && CallsOk(ctx, s) && ev.Do? && Next(ctx, s, ev, s')
    ensures CallsOk(ctx, s')
  {
    hide ReplayAll, Chain.ValidChain, Chain.TailOf, SodSafe, Run, DiskAfter, SameMeaning, OpTrace, OpOk, OrderOk,
         OpenAccepts, Committed, Allows, Charged, CommitAllowed, Recoverable, Synced;
    var tail := Chain.TailOf(s.disk.audit);
    var all := OpTrace(ctx, ev.view, ev.op, tail, ev.now, ev.compaction);
    DoGrowsAudit(ctx, d0, s, ev, s');
    OpCounts(ctx, ev.view, ev.op, tail, ev.now, ev.compaction, ev.cut);
    CountsConcat(s.trace, all[..ev.cut]);
    forall n | n in s.pending || n in s.forwards ensures Committed(ctx, s'.trace, n) {
      CommittedStays(ctx, s.trace, all[..ev.cut], n);
    }
    if ev.cut == |all| && CommitAllowed(ctx, ev.view, ev.op, ev.now) {
      assert all[..ev.cut] == all;
      CommitIsCommitted(ctx, s.trace, ev.view, ev.op, tail, ev.now, ev.compaction);
      assert ev.view.hwmSeq + 1 !in s.pending && ev.view.hwmSeq + 1 !in s.forwards;
    }
  }

  lemma DoGrowsAudit(ctx: Ctx, d0: Disk, s: Sys, ev: Event, s': Sys)
    requires HashesOk(ctx) && FilesOk(ctx, d0, s) && ev.Do? && Next(ctx, s, ev, s')
    ensures |s.disk.audit| <= |s'.disk.audit|
    ensures s'.up && CommitAllowed(ctx, ev.view, ev.op, ev.now) ==>
              ev.view.hwmSeq == |s.disk.audit| && |s'.disk.audit| == |s.disk.audit| + 1
  {
    hide ReplayAll, Chain.ValidChain, Chain.TailOf, SodSafe, Run, DiskAfter, SameMeaning, OpTrace, OpOk, OrderOk,
         OpenAccepts, StepOk;
    var all := OpTrace(ctx, ev.view, ev.op, Chain.TailOf(s.disk.audit), ev.now, ev.compaction);
    CrashedOpRecovers(ctx, s.disk, ev.view, ev.op, ev.now, ev.compaction, ev.cut);
    RunStaysRecoverable(ctx, s.disk, all[..ev.cut]);
    if s'.up && CommitAllowed(ctx, ev.view, ev.op, ev.now) {
      assert all[..ev.cut] == all;
      NextAuditNumber(ctx, s.disk, ev.view, ev.op, ev.now, ev.compaction);
    }
  }

  lemma StepKeepsAll(ctx: Ctx, d0: Disk, s: Sys, ev: Event, s': Sys)
    requires HashesOk(ctx) && FilesOk(ctx, d0, s) && CallsOk(ctx, s) && Next(ctx, s, ev, s')
    ensures FilesOk(ctx, d0, s') && CallsOk(ctx, s')
  {
    hide Committed, Allows, Charged, Run, DiskAfter, Recoverable, Synced, SodSafe, DoEnabled, OpTrace, Committing;
    if ev.Do? {
      DoKeepsFiles(ctx, d0, s, ev, s');
      DoKeepsCalls(ctx, d0, s, ev, s');
    }
  }

  /** Every state of a history satisfies the invariant. */
  lemma {:induction false} HistoryInvariant(ctx: Ctx, states: seq<Sys>, events: seq<Event>, k: nat)
    requires HashesOk(ctx) && History(ctx, states, events) && k < |states|
    ensures FilesOk(ctx, states[0].disk, states[k]) && CallsOk(ctx, states[k])
  {
    hide Next, Committed, Run, Recoverable, Synced, SodSafe, Genesis;
    if k == 0 {
      var id, t, now :| IsLedgerId(id) && states[0].disk == Genesis(ctx, id, t, now);
      GenesisIsFresh(ctx, id, t, now);
      StartIsFine(ctx, states[0]);
    } else {
      HistoryInvariant(ctx, states, events, k - 1);
      assert Next(ctx, states[k - 1], events[k - 1], states[k - 1 + 1]);
      StepKeepsAll(ctx, states[0].disk, states[k - 1], events[k - 1], states[k]);
    }
  }

  lemma StartIsFine(ctx: Ctx, s: Sys)
    requires Synced(ctx, s.disk) && s.trace == []
    ensures Run(ctx, s.disk, s.trace) && s.disk == DiskAfter(s.disk, s.trace) && Recoverable(ctx, s.disk)
  {
  }

  // ----- the theorems -----

  /** Main result: in every history, crashes and failed recoveries included, each
      forwarded write call has its own earlier, durable commit (budget record,
      grants, token record when it is high-risk, then the allow record), and there
      are never more forwards than allow records, nor more allow records than charges. */
  lemma CommitBeforeForward(ctx: Ctx, states: seq<Sys>, events: seq<Event>, k: nat)
    requires HashesOk(ctx) && History(ctx, states, events) && k < |states|
    ensures NoRepeats(states[k].forwards)
    ensures forall n :: n in states[k].forwards ==> Committed(ctx, states[k].trace, n)
    ensures |states[k].forwards| <= Allows(states[k].trace) <= |Charged(states[k].trace)|
  {
    hide Committed, FilesOk, History;
    HistoryInvariant(ctx, states, events, k);
  }

  /** Main result: in every state of a history OpenLedger accepts the files, and a
      completed OpenLedger leaves the audit tail at the high-water mark, however
      often earlier recoveries crashed. */
  lemma OpenAlwaysRecovers(ctx: Ctx, states: seq<Sys>, events: seq<Event>, k: nat, op: Op, now: int, compaction: Option<Order>)
    requires HashesOk(ctx) && History(ctx, states, events) && k < |states|
    requires op.Open? && OpOk(ctx, op, now)
    ensures Recoverable(ctx, states[k].disk)
    ensures var d := states[k].disk;
            var view := View(ctx, d);
            OpenAccepts(ctx, d, view)
            && (OrderOk(ctx, view, op, Chain.TailOf(d.audit), now, compaction) ==>
                  Synced(ctx, DiskAfter(d, OpTrace(ctx, view, op, Chain.TailOf(d.audit), now, compaction))))
  {
    hide ReplayAll, Chain.ValidChain, Chain.TailOf, SodSafe, Run, DiskAfter, OpTrace, OpOk, OrderOk, History,
         CallsOk;
    HistoryInvariant(ctx, states, events, k);
    var d := states[k].disk;
    var view := View(ctx, d);
    SameMeaningItself(view);
    if OrderOk(ctx, view, op, Chain.TailOf(d.audit), now, compaction) {
      OpIsRun(ctx, d, view, op, now, compaction);
    }
  }

  lemma SameMeaningItself(a: State)
    ensures SameMeaning(a, a)
  {
  }

  /** Main result: the guarantees of runs hold of the whole system. */
  lemma SystemIsSafe(ctx: Ctx, states: seq<Sys>, events: seq<Event>, k: nat, start: int)
    requires HashesOk(ctx) && History(ctx, states, events) && k < |states|
    ensures Recoverable(ctx, states[k].disk) && SodSafe(ctx, View(ctx, states[k].disk))
    ensures SmallDrift(states[k].trace) ==> TokensDistinct(states[k].trace)
    ensures InOrder(states[k].trace) && (forall i | 0 <= i < |states[k].trace| :: start <= states[k].trace[i].now) ==>
              WithinLimits(ctx.pol, Charged(states[k].trace))
  {
    hide ReplayAll, Chain.ValidChain, SodSafe, Run, DiskAfter, CallsOk, SmallDrift, InOrder, WithinLimits, Synced,
         Lagging, Genesis, Next;
    HistoryInvariant(ctx, states, events, k);
    HistoryInvariant(ctx, states, events, 0);
    var trace := states[k].trace;
    var id, t, now :| IsLedgerId(id) && states[0].disk == Genesis(ctx, id, t, now);
    GenesisIsFresh(ctx, id, t, now);
    if SmallDrift(trace) {
      TokensAreSingleUse(ctx, states[0].disk, trace);
    }
    if InOrder(trace) && forall i | 0 <= i < |trace| :: start <= trace[i].now {
      BudgetsHold(ctx, states[0].disk, trace, start);
    }
  }
}
