/** The limits in terms of the calls that were made, not of the records they left. */
module LedgerRequests {
  import opened LedgerState
  import opened LedgerOps
  import opened Compaction
  import opened LedgerTrace
  import opened LedgerSafety
  import opened LedgerRuns
  import opened LedgerSystem
  import Chain = AuditChain
  import Sod
  import SodRules

  // ----- what counts as a call -----

  /** A commit that was allowed and got as far as its first write. */
  predicate Spends(pol: Policy, e: Event) {
    e.Do? && e.op.Commit? && Decide(pol, e.view, e.op.req, e.now) == Allow && e.cut > 0
  }

  /** A challenge that was admitted and got as far as its first write. */
  predicate Asks(pol: Policy, e: Event) {
    e.Do? && e.op.RecordChallenge? && !TooManyChallenges(pol, e.view, e.op.principal, e.now) && e.cut > 0
  }

  predicate Within(now: int, t: int, span: int) {
    t - span < now <= t
  }

  /** How many allowed commits of a principal fall into the span of seconds that ends with t. */
  function CallsMade(pol: Policy, events: seq<Event>, principal: string, t: int, span: int): int {
    if events == [] then 0
    else
      var e := events[|events| - 1];
      CallsMade(pol, events[..|events| - 1], principal, t, span)
      + (if Spends(pol, e) && e.op.req.principal == principal && Within(e.now, t, span) then 1 else 0)
  }

  /** The targets that those commits asked for. */
  function TargetsAsked(pol: Policy, events: seq<Event>, principal: string, t: int, span: int): int {
    if events == [] then 0
    else
      var e := events[|events| - 1];
      TargetsAsked(pol, events[..|events| - 1], principal, t, span)
      + (if Spends(pol, e) && e.op.req.principal == principal && Within(e.now, t, span) then e.op.req.targets else 0)
  }

  function ChallengesMade(pol: Policy, events: seq<Event>, principal: string, t: int): int {
    if events == [] then 0
    else
      var e := events[|events| - 1];
      ChallengesMade(pol, events[..|events| - 1], principal, t)
      + (if Asks(pol, e) && e.op.principal == principal && Within(e.now, t, 60) then 1 else 0)
  }

  // ----- the records that an operation leaves -----

  lemma {:induction false} ChargedConcat(a: seq<Timed>, b: seq<Timed>)
    ensures Charged(a + b) == Charged(a) + Charged(b)
    decreases |b|
  {
    if b == [] {
      assert a + b == a;
    } else {
      var k := |b| - 1;
      assert (a + b)[..|a| + k] == a + b[..k] && (a + b)[|a| + k] == b[k];
      ChargedConcat(a, b[..k]);
    }
  }

  lemma {:induction false} ChallengedConcat(a: seq<Timed>, b: seq<Timed>)
    ensures Challenged(a + b) == Challenged(a) + Challenged(b)
    decreases |b|
  {
    if b == [] {
      assert a + b == a;
    } else {
      var k := |b| - 1;
      assert (a + b)[..|a| + k] == a + b[..k] && (a + b)[|a| + k] == b[k];
      ChallengedConcat(a, b[..k]);
    }
  }

  predicate IsAsk(w: Write) {
    w.PutState? && w.rec.kind == Challenge
  }

  /** Only the first write of an operation may be a charge or a challenge. */
  lemma {:induction false} FirstOnly(tr: seq<Timed>)
    requires forall k | 0 < k < |tr| :: !IsCharge(tr[k].write) && !IsAsk(tr[k].write)
    ensures Charged(tr) == if tr != [] && IsCharge(tr[0].write)
                           then var rec := tr[0].write.rec; [BudgetEntry(rec.key, rec.count, rec.issuedAt, rec.expiresAt)] else []
    ensures Challenged(tr) == if tr != [] && IsAsk(tr[0].write)
                              then var rec := tr[0].write.rec; [ChallengeEntry(rec.key, rec.issuedAt, rec.expiresAt)] else []
    decreases |tr|
  {
    if |tr| > 1 {
      var init := tr[..|tr| - 1];
      assert forall k | 0 <= k < |init| :: init[k] == tr[k];
      FirstOnly(init);
    } else if |tr| == 1 {
      assert tr[..0] == [];
    }
  }

  lemma CommitFirst(pol: Policy, id: string, req: Request, now: int)
    ensures var recs := CommitRecords(pol, id, req, now);
            && recs != [] && recs[0].kind == Budget && recs[0].key == req.principal && recs[0].count == req.targets
            && recs[0].issuedAt == now
            && forall k | 0 < k < |recs| :: recs[k].kind != Budget && recs[k].kind != Challenge
  {
    var gs := GrantRecords(id, pol.gatewayId, req.subjects, req.ents, now);
    GrantRecordsGrant(id, pol.gatewayId, req.subjects, req.ents, now, req.subjects);
    assert forall k | 0 <= k < |gs| :: gs[k].kind == Grant;
  }

  /** The first write of an operation, and that no other charges or asks. */
  lemma FirstWrite(ctx: Ctx, view: State, op: Op, tail: Chain.Tail, now: int, compaction: Option<Order>)
    requires OrderOk(ctx, view, op, tail, now, compaction)
    ensures var tr := OpTrace(ctx, view, op, tail, now, compaction);
            && (forall k | 0 < k < |tr| :: !IsCharge(tr[k].write) && !IsAsk(tr[k].write))
            && (tr != [] ==>
                  && (IsCharge(tr[0].write) <==> op.Commit? && Decide(ctx.pol, view, op.req, now) == Allow)
                  && (IsCharge(tr[0].write) ==>
                        tr[0].write.rec.key == op.req.principal && tr[0].write.rec.count == op.req.targets && tr[0].write.rec.issuedAt == now)
                  && (IsAsk(tr[0].write) <==> op.RecordChallenge? && !TooManyChallenges(ctx.pol, view, op.principal, now))
                  && (IsAsk(tr[0].write) ==> tr[0].write.rec.key == op.principal && tr[0].write.rec.issuedAt == now))
  {
    hide CompactRecords, ValidOrder, Decide, TooManyChallenges, CommitRecords, CommitState, NextAudit, NeedsCatchUp, Template,
         AfterPrelude, RemoveGrant;
    if op.Commit? {
      CommitFirst(ctx.pol, view.ledgerId, op.req, now);
    }
  }

  lemma OneCharge(x: BudgetEntry, principal: string, t: int, span: int)
    ensures CallsWithin([x], principal, t, span) == if x.principal == principal && t - span < x.issuedAt <= t then 1 else 0
    ensures TargetsWithin([x], principal, t, span) == if x.principal == principal && t - span < x.issuedAt <= t then x.count else 0
  {
    assert [x][..0] == [];
  }

  lemma OneChallenge(x: ChallengeEntry, principal: string, t: int)
    ensures ChallengesWithin([x], principal, t) == if x.principal == principal && t - 60 < x.issuedAt <= t then 1 else 0
  {
    assert [x][..0] == [];
  }

  lemma {:induction false} WithinConcat(a: seq<BudgetEntry>, b: seq<BudgetEntry>, principal: string, t: int, span: int)
    ensures CallsWithin(a + b, principal, t, span) == CallsWithin(a, principal, t, span) + CallsWithin(b, principal, t, span)
    ensures TargetsWithin(a + b, principal, t, span) == TargetsWithin(a, principal, t, span) + TargetsWithin(b, principal, t, span)
    decreases |b|
  {
    if b == [] {
      assert a + b == a;
    } else {
      assert (a + b)[..|a + b| - 1] == a + b[..|b| - 1];
      WithinConcat(a, b[..|b| - 1], principal, t, span);
    }
  }

  lemma {:induction false} ChallengesConcat(a: seq<ChallengeEntry>, b: seq<ChallengeEntry>, principal: string, t: int)
    ensures ChallengesWithin(a + b, principal, t) == ChallengesWithin(a, principal, t) + ChallengesWithin(b, principal, t)
    decreases |b|
  {
    if b == [] {
      assert a + b == a;
    } else {
      assert (a + b)[..|a + b| - 1] == a + b[..|b| - 1];
      ChallengesConcat(a, b[..|b| - 1], principal, t);
    }
  }

  /** What the part of an operation that was written adds to the counts. */
  lemma EventCounts(ctx: Ctx, e: Event, tail: Chain.Tail, principal: string, t: int, span: int)
    requires e.Do? && OrderOk(ctx, e.view, e.op, tail, e.now, e.compaction)
    requires e.cut <= |OpTrace(ctx, e.view, e.op, tail, e.now, e.compaction)|
    ensures var tr := OpTrace(ctx, e.view, e.op, tail, e.now, e.compaction)[..e.cut];
            && CallsWithin(Charged(tr), principal, t, span)
               == (if Spends(ctx.pol, e) && e.op.req.principal == principal && Within(e.now, t, span) then 1 else 0)
            && TargetsWithin(Charged(tr), principal, t, span)
               == (if Spends(ctx.pol, e) && e.op.req.principal == principal && Within(e.now, t, span) then e.op.req.targets else 0)
            && ChallengesWithin(Challenged(tr), principal, t)
               == (if Asks(ctx.pol, e) && e.op.principal == principal && Within(e.now, t, 60) then 1 else 0)
  {
    hide OpTrace, OrderOk, Decide, TooManyChallenges, Charged, Challenged, CallsWithin, TargetsWithin, ChallengesWithin;
    var all := OpTrace(ctx, e.view, e.op, tail, e.now, e.compaction);
    var tr := all[..e.cut];
    FirstWrite(ctx, e.view, e.op, tail, e.now, e.compaction);
    assert forall k | 0 <= k < |tr| :: tr[k] == all[k];
    FirstOnly(tr);
    NothingWithin(principal, t, span);
    if tr != [] && IsCharge(tr[0].write) {
      var rec := tr[0].write.rec;
      OneCharge(BudgetEntry(rec.key, rec.count, rec.issuedAt, rec.expiresAt), principal, t, span);
    }
    if tr != [] && IsAsk(tr[0].write) {
      var rec := tr[0].write.rec;
      OneChallenge(ChallengeEntry(rec.key, rec.issuedAt, rec.expiresAt), principal, t);
    }
  }

  lemma NothingWithin(principal: string, t: int, span: int)
    ensures CallsWithin([], principal, t, span) == 0 && TargetsWithin([], principal, t, span) == 0
    ensures ChallengesWithin([], principal, t) == 0
  {
  }

  // ----- histories -----

  lemma HistoryInit(ctx: Ctx, states: seq<Sys>, events: seq<Event>)
    requires History(ctx, states, events) && events != []
    ensures var n := |events| - 1;
            History(ctx, states[..n + 1], events[..n]) && Next(ctx, states[n], events[n], states[n + 1])
  {
    hide Next, Initial;
    var n := |events| - 1;
    forall i | 0 <= i < n ensures Next(ctx, states[..n + 1][i], events[..n][i], states[..n + 1][i + 1]) {
      assert Next(ctx, states[i], events[i], states[i + 1]);
    }
    assert Next(ctx, states[n], events[n], states[n + 1]);
  }

  /** The records of a history count exactly the calls that were made. */
  lemma {:induction false} RecordsCountCalls(ctx: Ctx, states: seq<Sys>, events: seq<Event>, principal: string, t: int, span: int)
    requires History(ctx, states, events)
    ensures var trace := states[|events|].trace;
            && CallsWithin(Charged(trace), principal, t, span) == CallsMade(ctx.pol, events, principal, t, span)
            && TargetsWithin(Charged(trace), principal, t, span) == TargetsAsked(ctx.pol, events, principal, t, span)
            && ChallengesWithin(Challenged(trace), principal, t) == ChallengesMade(ctx.pol, events, principal, t)
    decreases |events|
  {
    hide OpTrace, Spends, Asks, CallsWithin, TargetsWithin, ChallengesWithin, Within, Charged, Challenged;
    if events == [] {
      StartsUncharged(ctx, states[0]);
      NothingWithin(principal, t, span);
    } else {
      var n := |events| - 1;
      var e := events[n];
      HistoryInit(ctx, states, events);
      RecordsCountCalls(ctx, states[..n + 1], events[..n], principal, t, span);
      NextGrows(ctx, states[n], e, states[n + 1]);
      if e.Do? {
        var tail := Chain.TailOf(states[n].disk.audit);
        var tr := OpTrace(ctx, e.view, e.op, tail, e.now, e.compaction)[..e.cut];
        EventCounts(ctx, e, tail, principal, t, span);
        ChargedConcat(states[n].trace, tr);
        ChallengedConcat(states[n].trace, tr);
        WithinConcat(Charged(states[n].trace), Charged(tr), principal, t, span);
        ChallengesConcat(Challenged(states[n].trace), Challenged(tr), principal, t);
      } else {
        OthersDoNotCount(ctx.pol, e);
      }
    }
  }

  lemma OthersDoNotCount(pol: Policy, e: Event)
    requires !e.Do?
    ensures !Spends(pol, e) && !Asks(pol, e)
  {
  }

  lemma StartsUncharged(ctx: Ctx, s: Sys)
    requires Initial(ctx, s)
    ensures Charged(s.trace) == [] && Challenged(s.trace) == []
  {
  }

  lemma NextGrows(ctx: Ctx, s: Sys, e: Event, s': Sys)
    requires Next(ctx, s, e, s')
    ensures e.Do? ==>
              && OrderOk(ctx, e.view, e.op, Chain.TailOf(s.disk.audit), e.now, e.compaction)
              && e.cut <= |OpTrace(ctx, e.view, e.op, Chain.TailOf(s.disk.audit), e.now, e.compaction)|
              && s'.trace == s.trace + OpTrace(ctx, e.view, e.op, Chain.TailOf(s.disk.audit), e.now, e.compaction)[..e.cut]
    ensures !e.Do? ==> s'.trace == s.trace
  {
  }

  /** What the ledger remembers counts like the history, from the last time stamp on. */
  lemma HistoryCounts(ctx: Ctx, states: seq<Sys>, events: seq<Event>, start: int)
    requires HashesOk(ctx) && History(ctx, states, events) && InOrder(states[|events|].trace)
    requires forall i | 0 <= i < |states[|events|].trace| :: start <= states[|events|].trace[i].now
    ensures var s := states[|events|];
            var last := LastTime(s.trace, start);
            && ReplayAll(s.disk.state, ctx.pol.gatewayId).Ok?
            && WithinLimits(ctx.pol, Charged(s.trace)) && ProperCharges(ctx.pol, Charged(s.trace), last)
            && CountsLike(View(ctx, s.disk).budgets, Charged(s.trace), last)
            && WithinChallenges(ctx.pol, Challenged(s.trace)) && ProperChallenges(Challenged(s.trace), last)
            && ChallengesLike(View(ctx, s.disk).challenges, Challenged(s.trace), last)
  {
    hide ReplayAll, Chain.ValidChain, SodSafe, Run, CallsOk, InOrder, WithinLimits, Genesis, Next, ProperCharges, CountsLike,
         WithinChallenges, ProperChallenges, ChallengesLike, DiskAfter;
    HistoryInvariant(ctx, states, events, |events|);
    var trace := states[|events|].trace;
    var id, t, now :| IsLedgerId(id) && states[0].disk == Genesis(ctx, id, t, now);
    GenesisIsFresh(ctx, id, t, now);
    BudgetsHold(ctx, states[0].disk, trace, start);
    ChallengesHold(ctx, states[0].disk, trace, start);
  }

  /** The seconds for which a charge counts against the target limit. */
  function TargetWindow(pol: Policy): int {
    if pol.budgetWindowSeconds < 60 then 3600 else pol.budgetWindowSeconds
  }

  /** Main result: with time stamps in order, in every history, crashes included, the allowed
      commits of a principal never pass the call limit in any 60 seconds, nor the targets they
      ask for the target limit in any window, nor the admitted challenges theirs. */
  lemma CallsStayWithinLimits(ctx: Ctx, states: seq<Sys>, events: seq<Event>, start: int, principal: string, t: int)
    requires HashesOk(ctx) && History(ctx, states, events) && InOrder(states[|events|].trace)
    requires forall i | 0 <= i < |states[|events|].trace| :: start <= states[|events|].trace[i].now
    ensures ctx.pol.maxCallsPerMinute > 0 ==> CallsMade(ctx.pol, events, principal, t, 60) <= ctx.pol.maxCallsPerMinute
    ensures ctx.pol.maxTargetsPerWindow > 0 ==>
              TargetsAsked(ctx.pol, events, principal, t, TargetWindow(ctx.pol)) <= ctx.pol.maxTargetsPerWindow
    ensures ctx.pol.maxChallengesPerMinute > 0 ==> ChallengesMade(ctx.pol, events, principal, t) <= ctx.pol.maxChallengesPerMinute
  {
    hide History, InOrder, CountsLike, ChallengesLike, ProperCharges, ProperChallenges, CallsMade, TargetsAsked, ChallengesMade;
    HistoryCounts(ctx, states, events, start);
    RecordsCountCalls(ctx, states, events, principal, t, 60);
    RecordsCountCalls(ctx, states, events, principal, t, TargetWindow(ctx.pol));
  }

  lemma {:induction false} NowCounts(pol: Policy, charged: seq<BudgetEntry>, principal: string, now: int)
    requires ProperCharges(pol, charged, now)
    ensures CallsIn(charged, principal, now) == CallsWithin(charged, principal, now, 60)
    ensures TargetsIn(charged, principal, now, Window(pol)) == TargetsWithin(charged, principal, now, TargetWindow(pol))
  {
    if charged != [] {
      var k := |charged| - 1;
      NowCounts(pol, charged[..k], principal, now);
      assert ProperCharge(pol, charged[k], now);
    }
  }

  /** Main result: a commit that no token and no duty stands against is allowed exactly when,
      with the calls made so far, it stays within both limits; and a challenge is refused
      exactly when the minute already holds as many as the limit. */
  lemma VerdictIff(ctx: Ctx, states: seq<Sys>, events: seq<Event>, start: int, view: State, req: Request, now: int)
    requires HashesOk(ctx) && History(ctx, states, events) && InOrder(states[|events|].trace)
    requires forall i | 0 <= i < |states[|events|].trace| :: start <= states[|events|].trace[i].now
    requires LastTime(states[|events|].trace, start) <= now
    requires ReplayAll(states[|events|].disk.state, ctx.pol.gatewayId).Ok? && SameMeaning(view, View(ctx, states[|events|].disk))
    ensures (req.approval.Some? ==> !Replayed(view, req.approval.value.jti, now)) && !SodConflict(ctx.pol, view, req) ==>
              (Decide(ctx.pol, view, req, now) == Allow <==>
               && (ctx.pol.maxCallsPerMinute > 0 ==>
                     CallsMade(ctx.pol, events, req.principal, now, 60) + 1 <= ctx.pol.maxCallsPerMinute)
               && (ctx.pol.maxTargetsPerWindow > 0 ==>
                     TargetsAsked(ctx.pol, events, req.principal, now, TargetWindow(ctx.pol)) + req.targets <= ctx.pol.maxTargetsPerWindow))
    ensures TooManyChallenges(ctx.pol, view, req.principal, now) <==>
              ctx.pol.maxChallengesPerMinute > 0
              && ChallengesMade(ctx.pol, events, req.principal, now) >= ctx.pol.maxChallengesPerMinute
  {
    hide Next, Initial, InOrder, WithinLimits, WithinChallenges, CallsMade, TargetsAsked, ChallengesMade, SodConflict, Replayed,
         CallsIn, TargetsIn, ChallengesIn, ReplayAll, ProperCharges, ProperChallenges, SameMeaning;
    HistoryCounts(ctx, states, events, start);
    var s := states[|events|];
    var last := LastTime(s.trace, start);
    RecordsCountCalls(ctx, states, events, req.principal, now, 60);
    RecordsCountCalls(ctx, states, events, req.principal, now, TargetWindow(ctx.pol));
    LaterIsProper(ctx.pol, Charged(s.trace), last, now);
    LaterChallenges(View(ctx, s.disk).challenges, Challenged(s.trace), last, now);
    NowCounts(ctx.pol, Charged(s.trace), req.principal, now);
    ChallengeCountCovers(Challenged(s.trace), req.principal, now, now);
    SameMeaningId(view, View(ctx, s.disk));
    assert CountsEqual(View(ctx, s.disk).budgets, Charged(s.trace), req.principal, now, Window(ctx.pol));
  }

  /** Why a commit is refused: its token is remembered up to now; or else a rule refuses the
      request for one of its subjects; or else it exceeds a limit. */
  lemma DecisionIs(pol: Policy, view: State, req: Request, now: int)
    ensures var replayed := req.approval.Some? && req.approval.value.jti in view.replays
                            && now <= view.replays[req.approval.value.jti].expiresAt;
            var refused := exists rule, s :: rule in pol.rules && s in req.subjects
                                             && Sod.Violates(rule, s, req.ents, pol.statics, view.grants);
            && (Decide(pol, view, req, now) == DenyReplayed <==> replayed)
            && (Decide(pol, view, req, now) == DenySod <==> !replayed && refused)
            && (Decide(pol, view, req, now) == DenyBudget <==> !replayed && !refused && OverBudget(pol, view, req, now))
  {
    hide Sod.Violates, OverBudget, Sod.Conflict;
    SodRules.ConflictIff(pol.rules, pol.statics, req.subjects, req.ents, view.grants);
    if req.ents == [] {
      forall rule, s ensures !Sod.Violates(rule, s, req.ents, pol.statics, view.grants) {
        NothingAsked(rule, s, pol.statics, view.grants);
      }
    }
  }

  lemma NothingAsked(rule: Sod.Rule, s: string, statics: Sod.Statics, grants: Sod.Grants)
    ensures !Sod.Violates(rule, s, [], statics, grants)
  {
    assert Sod.Requested(rule, []) == {};
  }

  // ----- tokens -----

  /** The token jti was consumed at step i. */
  predicate ConsumedAt(trace: seq<Timed>, i: int, jti: string) {
    0 <= i < |trace| && IsToken(trace[i].write) && trace[i].write.rec.key == jti
  }

  /** Every remembered token was consumed in the trace, with that expiry. */
  ghost predicate FromTrace(st: State, trace: seq<Timed>) {
    forall j | j in st.replays :: exists i :: ConsumedAt(trace, i, j) && trace[i].write.rec == st.replays[j]
  }

  lemma LongerTrace(st: State, st': State, trace: seq<Timed>, x: Timed)
    requires FromTrace(st, trace)
    requires forall j | j in st'.replays ::
               (j in st.replays && st'.replays[j] == st.replays[j])
               || (IsToken(x.write) && x.write.rec.key == j && x.write.rec == st'.replays[j])
    ensures FromTrace(st', trace + [x])
  {
    var more := trace + [x];
    forall j | j in st'.replays ensures exists i :: ConsumedAt(more, i, j) && more[i].write.rec == st'.replays[j] {
      if j in st.replays && st'.replays[j] == st.replays[j] {
        var i :| ConsumedAt(trace, i, j) && trace[i].write.rec == st.replays[j];
        assert ConsumedAt(more, i, j) && more[i] == trace[i];
      } else {
        assert ConsumedAt(more, |trace|, j) && more[|trace|] == x;
      }
    }
  }

  lemma StepTokens(ctx: Ctx, d: Disk, x: Timed)
    requires HashesOk(ctx) && StepOk(ctx, d, x.write, x.now) && Recoverable(ctx, d)
    ensures Recoverable(ctx, Perform(d, x.write))
    ensures var st, st' := View(ctx, d), View(ctx, Perform(d, x.write));
            forall j | j in st'.replays ::
              (j in st.replays && st'.replays[j] == st.replays[j])
              || (IsToken(x.write) && x.write.rec.key == j && x.write.rec == st'.replays[j])
  {
    hide ReplayAll, Chain.ValidChain, IsCompaction, SameMeaning, Checked;
    StepKeepsRecoverable(ctx, d, x.write, x.now);
    if PlainStep(ctx, d, x.write, x.now) {
      PlainStepEffect(ctx, d, x.write, x.now);
    } else if AuditStep(ctx, d, x.write) {
      AuditStepEffect(ctx, d, x.write);
    } else if CatchUpStep(ctx, d, x.write, x.now) {
      CatchUpEffect(ctx, d, x.write, x.now);
    } else {
      SwapReplays(ctx, d, x.write, x.now);
    }
  }

  lemma {:induction false} TokensComeFromTrace(ctx: Ctx, d: Disk, trace: seq<Timed>)
    requires HashesOk(ctx) && Recoverable(ctx, d) && Run(ctx, d, trace) && View(ctx, d).replays == map[]
    ensures Recoverable(ctx, DiskAfter(d, trace)) && FromTrace(View(ctx, DiskAfter(d, trace)), trace)
    decreases |trace|
  {
    hide StepOk, Perform, View, IsToken, ConsumedAt, ReplayAll, Chain.ValidChain;
    if trace != [] {
      var init, last := trace[..|trace| - 1], trace[|trace| - 1];
      RunLast(ctx, d, trace);
      TokensComeFromTrace(ctx, d, init);
      StepTokens(ctx, DiskAfter(d, init), last);
      LongerTrace(View(ctx, DiskAfter(d, init)), View(ctx, DiskAfter(d, trace)), init, last);
      assert init + [last] == trace;
    }
  }

  /** Main result: with time stamps in order a token is refused as replayed only if it was
      consumed and is still to be remembered, and whenever it is to be remembered longer. */
  lemma TokenVerdict(ctx: Ctx, states: seq<Sys>, events: seq<Event>, start: int, view: State, jti: string, now: int)
    requires HashesOk(ctx) && History(ctx, states, events) && InOrder(states[|events|].trace)
    requires forall i | 0 <= i < |states[|events|].trace| :: start <= states[|events|].trace[i].now
    requires LastTime(states[|events|].trace, start) <= now
    requires ReplayAll(states[|events|].disk.state, ctx.pol.gatewayId).Ok? && SameMeaning(view, View(ctx, states[|events|].disk))
    ensures var trace := states[|events|].trace;
            && (Replayed(view, jti, now) ==> exists i :: ConsumedAt(trace, i, jti) && trace[i].write.rec.expiresAt >= now)
            && ((exists i :: ConsumedAt(trace, i, jti) && trace[i].write.rec.expiresAt > now) ==> Replayed(view, jti, now))
  {
    hide ReplayAll, Chain.ValidChain, SodSafe, Run, CallsOk, Genesis, Next, DiskAfter, SameMeaning;
    HistoryInvariant(ctx, states, events, |events|);
    var s := states[|events|];
    var id, t, at :| IsLedgerId(id) && states[0].disk == Genesis(ctx, id, t, at);
    GenesisIsFresh(ctx, id, t, at);
    TokensComeFromTrace(ctx, states[0].disk, s.trace);
    SameMeaningId(view, View(ctx, s.disk));
    if i :| ConsumedAt(s.trace, i, jti) && s.trace[i].write.rec.expiresAt > now {
      TokensRemembered(ctx, states[0].disk, s.trace, i);
      NotPast(s.trace, start, now, s.trace[i].write.rec.expiresAt);
    }
  }

  lemma NotPast(trace: seq<Timed>, start: int, now: int, expiry: int)
    requires InOrder(trace) && LastTime(trace, start) <= now < expiry
    ensures !PastBy(trace, expiry)
  {
  }
}
