/** How far clocks may fall behind before an approval token can be used twice. */
module LedgerDrift {
  import opened LedgerState
  import opened LedgerOps
  import opened Compaction
  import opened LedgerTrace
  import opened LedgerSafety
  import opened LedgerRuns
  import opened LedgerSystem
  import Sod
  import Chain = AuditChain

  /** Whatever the policy, no history of operations, crashes and recoveries whose time
      stamps fall less than b behind consumes a token twice. */
  ghost predicate SingleUseBelow(h: Chain.Hasher, b: int) {
    forall pol, states: seq<Sys>, events: seq<Event> ::
      History(Ctx(h, pol), states, events) && DriftBelow(states[|events|].trace, b) ==> TokensDistinct(states[|events|].trace)
  }

  // ----- a history that consumes one token twice -----

  /** Two calls and two targets are allowed. */
  const POLICY := Policy("gateway", "server", 2, 2, 3600, 1, 30, 300, [], map[])

  const JTI: string := "0123456789abcdef0123456789abcdef"
  const TOKEN := Claims(JTI, Chain.GENESIS, 1, 2)
  const REQUEST := Request("agent", 1, [], [], Some(TOKEN))

  /** The last moment at which the token is in its time window. */
  const LATE: int := 32

  /** The compaction that forgets it, by a process whose clock is 60 seconds ahead. */
  const AHEAD: int := 92

  function Template(decision: string): Chain.AuditRecord {
    Chain.AuditRecord(1, "", "", decision, "", "", Chain.None, Chain.None, map[], "", "")
  }

  const COMMIT := Op.Commit(REQUEST, Template(ALLOW))
  const OPEN := Op.Open(Template(DENY))
  const CHARGE := BudgetEntry("agent", 1, LATE, LATE + 3600)

  lemma JtiIsOk()
    ensures IsJti(JTI)
  {
  }

  lemma CommitIsOk(h: Chain.Hasher)
    ensures OpOk(Ctx(h, POLICY), COMMIT, LATE)
  {
    hide IsJti;
    JtiIsOk();
  }

  lemma ConstantsAreOk(h: Chain.Hasher)
    ensures OpOk(Ctx(h, POLICY), OPEN, LATE) && OpOk(Ctx(h, POLICY), Compact, AHEAD)
    ensures ReplayExpiry(POLICY, TOKEN) == AHEAD && NewBudget(POLICY, REQUEST, LATE) == CHARGE
  {
    hide IsJti;
  }

  /** A synced ledger with these charges and tokens and no grants. */
  ghost predicate LedgerIs(ctx: Ctx, d: Disk, id: string, budgets: seq<BudgetEntry>, replays: map<string, StateRecord>) {
    Synced(ctx, d) && StateIs(View(ctx, d), id, budgets, replays)
  }

  ghost predicate StateIs(st: State, id: string, budgets: seq<BudgetEntry>, replays: map<string, StateRecord>) {
    st.ledgerId == id && st.budgets == budgets && st.replays == replays && forall s, e :: !Granted(st, s, e)
  }

  function Consumed(id: string): StateRecord {
    ReplayRecord(POLICY, id, TOKEN, LATE)
  }

  /** One operation of a process that sees exactly what the files replay to. */
  lemma DoStep(ctx: Ctx, s: Sys, op: Op, now: int, compaction: Option<Order>) returns (s': Sys, ev: Event)
    requires HashesOk(ctx) && Synced(ctx, s.disk) && (s.up || op.Open?) && OpOk(ctx, op, now)
    requires OrderOk(ctx, View(ctx, s.disk), op, Chain.TailOf(s.disk.audit), now, compaction)
    ensures Next(ctx, s, ev, s') && s'.up && Synced(ctx, s'.disk)
    ensures s'.trace == s.trace + OpTrace(ctx, View(ctx, s.disk), op, Chain.TailOf(s.disk.audit), now, compaction)
    ensures SameMeaning(AfterOp(ctx, View(ctx, s.disk), op, Chain.TailOf(s.disk.audit), now, compaction), View(ctx, s'.disk))
  {
    hide ReplayAll, Chain.ValidChain, OrderOk, OpOk, OpTrace, AfterOp, Run, SameMeaning, DiskAfter, NeedsCatchUp, Chain.TailOf;
    var view, tail := View(ctx, s.disk), Chain.TailOf(s.disk.audit);
    SameMeaningItself(view);
    OpIsRun(ctx, s.disk, view, op, now, compaction);
    var all := OpTrace(ctx, view, op, tail, now, compaction);
    ev := Do(op, now, view, compaction, |all|);
    assert all[..|all|] == all;
    s' := Sys(DiskAfter(s.disk, all), true, s.pending + Committing(ctx, view, op, now), s.forwards, s.trace + all);
  }

  lemma SameStateIs(a: State, b: State, id: string, budgets: seq<BudgetEntry>, replays: map<string, StateRecord>)
    requires SameMeaning(a, b) && StateIs(a, id, budgets, replays)
    ensures StateIs(b, id, budgets, replays)
  {
    SameMeaningId(a, b);
  }

  /** Opening a synced ledger writes nothing. */
  lemma OpenStep(ctx: Ctx, s: Sys, id: string) returns (s': Sys, ev: Event)
    requires HashesOk(ctx) && ctx.pol == POLICY && LedgerIs(ctx, s.disk, id, [], map[])
    ensures Next(ctx, s, ev, s') && s'.up && s'.trace == s.trace && LedgerIs(ctx, s'.disk, id, [], map[])
  {
    hide ReplayAll, Chain.ValidChain, SameMeaning, Chain.TailOf, OpOk, Next;
    ConstantsAreOk(ctx.h);
    s', ev := DoStep(ctx, s, OPEN, LATE, None);
    SameStateIs(View(ctx, s.disk), View(ctx, s'.disk), id, [], map[]);
    assert s.trace + [] == s.trace;
  }

  lemma ChargeCounts()
    ensures CallsIn([CHARGE], "agent", LATE) == 1 && TargetsIn([CHARGE], "agent", LATE, 3600) == 1
    ensures CallsIn([], "agent", LATE) == 0 && TargetsIn([], "agent", LATE, 3600) == 0
    ensures KeptBudgets([CHARGE], AHEAD) == [CHARGE]
  {
    assert [CHARGE][..0] == [];
  }

  /** With at most one charge and no token, the commit is allowed. */
  lemma CommitIsAllowed(view: State, id: string, budgets: seq<BudgetEntry>)
    requires StateIs(view, id, budgets, map[]) && (budgets == [] || budgets == [CHARGE])
    ensures Decide(POLICY, view, REQUEST, LATE) == Allow
    ensures StateIs(CommitState(POLICY, view, REQUEST, LATE), id, budgets + [CHARGE], map[JTI := Consumed(id)])
  {
    hide Sod.Conflict;
    ChargeCounts();
    CommitStateEffect(POLICY, view, REQUEST, LATE);
  }

  ghost predicate CommitTrace(tr: seq<Timed>, id: string) {
    |tr| == 4 && tr[1].write == PutState(Consumed(id)) && forall k | 0 <= k < |tr| :: tr[k].now == LATE
  }

  lemma CommitWrites(ctx: Ctx, view: State, tail: Chain.Tail, id: string)
    requires ctx.pol == POLICY && view.ledgerId == id && Decide(POLICY, view, REQUEST, LATE) == Allow
    requires OrderOk(ctx, view, COMMIT, tail, LATE, None)
    ensures CommitTrace(OpTrace(ctx, view, COMMIT, tail, LATE, None), id)
  {
    hide Decide, NextAudit, CommitState, LedgerRuns.Template;
    var recs := CommitRecords(POLICY, id, REQUEST, LATE);
    assert recs == [BudgetRecord(id, POLICY.gatewayId, CHARGE), Consumed(id)];
  }

  lemma MarkKeepsState(ctx: Ctx, st: State, t: Chain.AuditRecord, id: string, budgets: seq<BudgetEntry>,
                       replays: map<string, StateRecord>)
    requires StateIs(st, id, budgets, replays)
    ensures StateIs(Marked(ctx, st, t), id, budgets, replays)
  {
    hide NextAudit;
    assert forall s, e :: Granted(Marked(ctx, st, t), s, e) <==> Granted(st, s, e);
  }

  lemma CommitStep(ctx: Ctx, s: Sys, id: string, budgets: seq<BudgetEntry>) returns (s': Sys, ev: Event, tr: seq<Timed>)
    requires HashesOk(ctx) && ctx.pol == POLICY && s.up && LedgerIs(ctx, s.disk, id, budgets, map[])
    requires budgets == [] || budgets == [CHARGE]
    ensures Next(ctx, s, ev, s') && s'.up && LedgerIs(ctx, s'.disk, id, budgets + [CHARGE], map[JTI := Consumed(id)])
    ensures s'.trace == s.trace + tr && CommitTrace(tr, id)
  {
    hide ReplayAll, Chain.ValidChain, SameMeaning, Chain.TailOf, OpOk, Next, Decide, CommitState, OpTrace, StateIs, Marked;
    var view, tail := View(ctx, s.disk), Chain.TailOf(s.disk.audit);
    CommitIsOk(ctx.h);
    CommitIsAllowed(view, id, budgets);
    StateId(view, id, budgets, map[]);
    s', ev := DoStep(ctx, s, COMMIT, LATE, None);
    tr := OpTrace(ctx, view, COMMIT, tail, LATE, None);
    CommitWrites(ctx, view, tail, id);
    var st := CommitState(POLICY, view, REQUEST, LATE);
    var t := LedgerRuns.Template(ctx, view, COMMIT, LATE);
    MarkKeepsState(ctx, st, t, id, budgets + [CHARGE], map[JTI := Consumed(id)]);
    SameStateIs(Marked(ctx, st, t), View(ctx, s'.disk), id, budgets + [CHARGE], map[JTI := Consumed(id)]);
  }

  lemma StateId(st: State, id: string, budgets: seq<BudgetEntry>, replays: map<string, StateRecord>)
    requires StateIs(st, id, budgets, replays)
    ensures st.ledgerId == id
  {
  }

  /** The compaction at the token's expiry drops it and keeps the charge. */
  lemma CompactedIs(view: State, id: string)
    requires StateIs(view, id, [CHARGE], map[JTI := Consumed(id)])
    ensures StateIs(CompactState(view, AHEAD), id, [CHARGE], map[]) && ValidOrder(view, AHEAD, Order([], []))
  {
    ChargeCounts();
    assert KeptReplays(view, AHEAD) == map[];
    assert forall s, e :: Granted(CompactState(view, AHEAD), s, e) <==> Granted(view, s, e);
  }

  lemma CompactStep(ctx: Ctx, s: Sys, id: string) returns (s': Sys, ev: Event, tr: seq<Timed>)
    requires HashesOk(ctx) && ctx.pol == POLICY && s.up && LedgerIs(ctx, s.disk, id, [CHARGE], map[JTI := Consumed(id)])
    ensures Next(ctx, s, ev, s') && s'.up && LedgerIs(ctx, s'.disk, id, [CHARGE], map[])
    ensures s'.trace == s.trace + tr && |tr| == 1 && tr[0].now == AHEAD
  {
    hide ReplayAll, Chain.ValidChain, SameMeaning, Chain.TailOf, OpOk, Next, StateIs, ValidOrder, CompactRecords, CompactState;
    var view, tail := View(ctx, s.disk), Chain.TailOf(s.disk.audit);
    ConstantsAreOk(ctx.h);
    CompactedIs(view, id);
    s', ev := DoStep(ctx, s, Compact, AHEAD, Some(Order([], [])));
    tr := OpTrace(ctx, view, Compact, tail, AHEAD, Some(Order([], [])));
    SameStateIs(CompactState(view, AHEAD), View(ctx, s'.disk), id, [CHARGE], map[]);
  }

  function FreshId(): string {
    "00000000000000000000000000000000"
  }

  lemma FreshStart(ctx: Ctx) returns (s: Sys)
    requires HashesOk(ctx)
    ensures Initial(ctx, s) && LedgerIs(ctx, s.disk, FreshId(), [], map[])
  {
    hide ReplayAll, Chain.ValidChain, Genesis, Synced, SodSafe;
    var d := Genesis(ctx, FreshId(), Template(DENY), 0);
    GenesisIsFresh(ctx, FreshId(), Template(DENY), 0);
    s := Sys(d, false, {}, [], []);
  }

  /** Open, commit, compact 60 seconds later, commit again. */
  lemma TokenUsedTwice(ctx: Ctx) returns (states: seq<Sys>, events: seq<Event>)
    requires HashesOk(ctx) && ctx.pol == POLICY
    ensures History(ctx, states, events)
    ensures var trace := states[|events|].trace;
            (forall k | 0 <= k < |trace| :: LATE <= trace[k].now <= AHEAD) && !TokensDistinct(trace)
  {
    hide Next, LedgerIs, Initial, Consumed;
    var s0 := FreshStart(ctx);
    assert s0.trace == [] by { StartsEmpty(ctx, s0); }
    var s1, e1 := OpenStep(ctx, s0, FreshId());
    var s2, e2, t2 := CommitStep(ctx, s1, FreshId(), []);
    assert [] + [CHARGE] == [CHARGE];
    var s3, e3, t3 := CompactStep(ctx, s2, FreshId());
    var s4, e4, t4 := CommitStep(ctx, s3, FreshId(), [CHARGE]);
    states, events := [s0, s1, s2, s3, s4], [e1, e2, e3, e4];
    var trace := s4.trace;
    assert trace == t2 + t3 + t4;
    ConsumedIsToken(FreshId());
    assert trace[1].write == t2[1].write && trace[6].write == t4[1].write;
    assert !DifferentTokens(trace, 1, 6);
  }

  lemma StartsEmpty(ctx: Ctx, s: Sys)
    requires Initial(ctx, s)
    ensures s.trace == []
  {
  }

  lemma ConsumedIsToken(id: string)
    ensures IsToken(PutState(Consumed(id)))
  {
  }

  /** Main result: the exact bound, for all policies together.  Tokens are single-use in
      every history whose time stamps fall less than b seconds behind exactly when b
      is at most 60. */
  lemma SingleUseIff(h: Chain.Hasher, b: int)
    requires forall r :: |h(r)| == 64
    ensures SingleUseBelow(h, b) <==> b <= 60
  {
    hide Next, Initial, TokensDistinct, HashesOk, DriftBelow;
    if b <= 60 {
      forall pol, states: seq<Sys>, events: seq<Event> | History(Ctx(h, pol), states, events) && DriftBelow(states[|events|].trace, b)
        ensures TokensDistinct(states[|events|].trace)
      {
        HashesAreOk(Ctx(h, pol));
        LessDrift(states[|events|].trace, b);
        HistoryHasStates(Ctx(h, pol), states, events);
        SystemIsSafe(Ctx(h, pol), states, events, |events|, 0);
      }
    } else {
      var ctx := Ctx(h, POLICY);
      HashesAreOk(ctx);
      var states, events := TokenUsedTwice(ctx);
      StampsDrift(states[|events|].trace, b);
    }
  }

  lemma HashesAreOk(ctx: Ctx)
    requires forall r :: |ctx.h(r)| == 64
    ensures HashesOk(ctx)
  {
  }

  lemma HistoryHasStates(ctx: Ctx, states: seq<Sys>, events: seq<Event>)
    requires History(ctx, states, events)
    ensures |events| < |states|
  {
  }

  lemma LessDrift(trace: seq<Timed>, b: int)
    requires DriftBelow(trace, b) && b <= 60
    ensures SmallDrift(trace)
  {
  }

  lemma StampsDrift(trace: seq<Timed>, b: int)
    requires b > 60 && forall k | 0 <= k < |trace| :: LATE <= trace[k].now <= AHEAD
    ensures DriftBelow(trace, b)
  {
  }
}
