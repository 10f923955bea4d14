/** What every run guarantees: single use of tokens, rolling budgets, Separation of Duties. */
module LedgerSafety {
  import opened LedgerState
  import opened LedgerOps
  import opened Compaction
  import opened LedgerTrace
  import Sod
  import Chain = AuditChain

  // ----- single use of approval tokens -----

  predicate IsToken(w: Write) {
    w.PutState? && w.rec.kind == Replay
  }

  /** No time stamp falls b seconds or more behind an earlier one. */
  ghost predicate DriftBelow(trace: seq<Timed>, b: int) {
    forall i, j | 0 <= i < j < |trace| :: trace[j].now > trace[i].now - b
  }

  /** The drift that single use of tokens tolerates. */
  ghost predicate SmallDrift(trace: seq<Timed>) {
    DriftBelow(trace, 60)
  }

  /** The state remembers the token jti until time expiry. */
  predicate Remembers(st: State, jti: string, expiry: int) {
    jti in st.replays && st.replays[jti].expiresAt >= expiry
  }

  ghost predicate PastBy(trace: seq<Timed>, expiry: int) {
    exists m :: 0 <= m < |trace| && expiry <= trace[m].now
  }

  /** A step forgets a token only when its expiry has come. */
  lemma StepRemembers(ctx: Ctx, d: Disk, w: Write, now: int, jti: string, expiry: int)
    requires HashesOk(ctx) && StepOk(ctx, d, w, now) && Remembers(View(ctx, d), jti, expiry)
    ensures Recoverable(ctx, Perform(d, w))
    ensures Remembers(View(ctx, Perform(d, w)), jti, expiry) || expiry <= now
  {
    hide ReplayAll, Chain.ValidChain, IsCompaction, SameMeaning;
    StepKeepsRecoverable(ctx, d, w, now);
    if PlainStep(ctx, d, w, now) {
      PlainStepEffect(ctx, d, w, now);
    } else if AuditStep(ctx, d, w) {
      AuditStepEffect(ctx, d, w);
    } else if CatchUpStep(ctx, d, w, now) {
      CatchUpEffect(ctx, d, w, now);
    } else {
      SwapReplays(ctx, d, w, now);
    }
  }

  lemma SwapReplays(ctx: Ctx, d: Disk, w: Write, now: int)
    requires SwapStep(ctx, d, w, now)
    ensures Synced(ctx, Perform(d, w))
    ensures View(ctx, Perform(d, w)).replays == KeptReplays(View(ctx, d), now)
    ensures View(ctx, Perform(d, w)).budgets == KeptBudgets(View(ctx, d).budgets, now)
    ensures View(ctx, Perform(d, w)).challenges == KeptChallenges(View(ctx, d).challenges, now)
  {
    SwapEffect(ctx, d, w, now);
  }

  lemma TokenStepRecords(ctx: Ctx, d: Disk, w: Write, now: int)
    requires HashesOk(ctx) && StepOk(ctx, d, w, now) && IsToken(w)
    ensures Recoverable(ctx, d) && Recoverable(ctx, Perform(d, w))
    ensures exists c :: TokenChecked(ctx.pol, View(ctx, d), c, w.rec, now)
    ensures Remembers(View(ctx, Perform(d, w)), w.rec.key, w.rec.expiresAt)
  {
    hide ReplayAll, Chain.ValidChain, TokenChecked;
    PlainStepEffect(ctx, d, w, now);
  }

  /** Every consumed token is remembered, or its expiry lies in the past of the run. */
  lemma {:induction false} TokensRemembered(ctx: Ctx, d: Disk, trace: seq<Timed>, i: nat)
    requires HashesOk(ctx) && Recoverable(ctx, d) && Run(ctx, d, trace)
    requires i < |trace| && IsToken(trace[i].write)
    ensures Recoverable(ctx, DiskAfter(d, trace))
    ensures Remembers(View(ctx, DiskAfter(d, trace)), trace[i].write.rec.key, trace[i].write.rec.expiresAt)
            || PastBy(trace, trace[i].write.rec.expiresAt)
    decreases |trace|
  {
    hide StepOk, Recoverable, View, Perform, Remembers, Run;
    var rec := trace[i].write.rec;
    var init, last := trace[..|trace| - 1], trace[|trace| - 1];
    RunStaysRecoverable(ctx, d, trace);
    RunLast(ctx, d, trace);
    RunStaysRecoverable(ctx, d, init);
    if i == |trace| - 1 {
      TokenStepRecords(ctx, DiskAfter(d, init), last.write, last.now);
    } else {
      assert init[i] == trace[i];
      TokensRemembered(ctx, d, init, i);
      if PastBy(init, rec.expiresAt) {
        var m :| 0 <= m < |init| && rec.expiresAt <= init[m].now;
        assert trace[m] == init[m];
      } else {
        StepRemembers(ctx, DiskAfter(d, init), last.write, last.now, rec.key, rec.expiresAt);
      }
    }
  }

  lemma TokenPairDiffers(ctx: Ctx, d: Disk, trace: seq<Timed>, i: nat, j: nat)
    requires HashesOk(ctx) && Recoverable(ctx, d) && Run(ctx, d, trace) && SmallDrift(trace)
    requires i < j < |trace| && IsToken(trace[i].write) && IsToken(trace[j].write)
    ensures DifferentTokens(trace, i, j)
  {
    hide StepOk, View, Perform, ReplayAll, Chain.ValidChain;
    var before := trace[..j];
    var dj := DiskAfter(d, before);
    RunPrefix(ctx, d, trace, j);
    RunStaysRecoverable(ctx, d, before);
    assert StepAt(ctx, d, trace, j);
    TokenStepRecords(ctx, dj, trace[j].write, trace[j].now);
    assert before[i] == trace[i];
    TokensRemembered(ctx, d, before, i);
    var c :| TokenChecked(ctx.pol, View(ctx, dj), c, trace[j].write.rec, trace[j].now);
    var expiry := trace[i].write.rec.expiresAt;
    if PastBy(before, expiry) {
      var m :| 0 <= m < |before| && expiry <= before[m].now;
      assert before[m] == trace[m];
    }
  }

  /** Main result: in every run with small drift, crashes and compactions
      included, no approval token (jti and expiry) is consumed twice. */
  lemma TokensAreSingleUse(ctx: Ctx, d: Disk, trace: seq<Timed>)
    requires HashesOk(ctx) && Recoverable(ctx, d) && Run(ctx, d, trace) && SmallDrift(trace)
    ensures TokensDistinct(trace)
  {
    hide Recoverable, Run, SmallDrift, DifferentTokens;
    forall i, j | 0 <= i < j < |trace| && IsToken(trace[i].write) && IsToken(trace[j].write)
      ensures DifferentTokens(trace, i, j)
    {
      TokenPairDiffers(ctx, d, trace, i, j);
    }
  }

  predicate DifferentTokens(trace: seq<Timed>, i: int, j: int)
    requires 0 <= i < |trace| && 0 <= j < |trace| && IsToken(trace[i].write) && IsToken(trace[j].write)
  {
    trace[i].write.rec.key != trace[j].write.rec.key || trace[i].write.rec.expiresAt != trace[j].write.rec.expiresAt
  }

  /** No approval token is consumed twice. */
  ghost predicate TokensDistinct(trace: seq<Timed>) {
    forall i, j | 0 <= i < j < |trace| && IsToken(trace[i].write) && IsToken(trace[j].write) :: DifferentTokens(trace, i, j)
  }

  // ----- rolling budgets -----

  ghost predicate InOrder(trace: seq<Timed>) {
    forall i, j | 0 <= i < j < |trace| :: trace[i].now <= trace[j].now
  }

  /** All write budgets ever charged, in order. */
  function Charged(trace: seq<Timed>): seq<BudgetEntry> {
    if trace == [] then []
    else
      var w := trace[|trace| - 1].write;
      Charged(trace[..|trace| - 1])
      + (if w.PutState? && w.rec.kind == Budget
         then [BudgetEntry(w.rec.key, w.rec.count, w.rec.issuedAt, w.rec.expiresAt)] else [])
  }

  /** How many of the charges of a principal fall into the span of seconds that ends with t. */
  function CallsWithin(charged: seq<BudgetEntry>, principal: string, t: int, span: int): int {
    if charged == [] then 0
    else
      var b := charged[|charged| - 1];
      CallsWithin(charged[..|charged| - 1], principal, t, span)
      + (if b.principal == principal && t - span < b.issuedAt <= t then 1 else 0)
  }

  function TargetsWithin(charged: seq<BudgetEntry>, principal: string, t: int, span: int): int {
    if charged == [] then 0
    else
      var b := charged[|charged| - 1];
      TargetsWithin(charged[..|charged| - 1], principal, t, span)
      + (if b.principal == principal && t - span < b.issuedAt <= t then b.count else 0)
  }

  /** A charge as the policy makes it, not later than now. */
  predicate ProperCharge(pol: Policy, b: BudgetEntry, now: int) {
    b.expiresAt == b.issuedAt + Window(pol) && b.issuedAt <= now && b.count >= 0
  }

  ghost predicate ProperCharges(pol: Policy, charged: seq<BudgetEntry>, now: int) {
    forall k | 0 <= k < |charged| :: ProperCharge(pol, charged[k], now)
  }

  /** What the budget check counts at time now covers every charge in a span ending at t >= now. */
  lemma {:induction false} CountCovers(pol: Policy, charged: seq<BudgetEntry>, principal: string, now: int, t: int)
    requires ProperCharges(pol, charged, now) && t >= now
    ensures CallsWithin(charged, principal, t, 60) <= CallsIn(charged, principal, now)
    ensures TargetsWithin(charged, principal, t, Window(pol)) <= TargetsIn(charged, principal, now, Window(pol))
  {
    if charged != [] {
      var k := |charged| - 1;
      CountCovers(pol, charged[..k], principal, now, t);
      assert ProperCharge(pol, charged[k], now);
    }
  }

  ghost predicate WithinLimits(pol: Policy, charged: seq<BudgetEntry>) {
    forall principal, t {:trigger CallsWithin(charged, principal, t, 60)}
                        {:trigger TargetsWithin(charged, principal, t, Window(pol))} ::
      && (pol.maxCallsPerMinute > 0 ==> CallsWithin(charged, principal, t, 60) <= pol.maxCallsPerMinute)
      && (pol.maxTargetsPerWindow > 0 ==> TargetsWithin(charged, principal, t, Window(pol)) <= pol.maxTargetsPerWindow)
  }

  /** The ledger's budget list answers like the list of all charges ever made. */
  ghost predicate CountsLike(a: seq<BudgetEntry>, b: seq<BudgetEntry>, since: int) {
    forall principal, t, window :: t >= since ==> CountsEqual(a, b, principal, t, window)
  }

  ghost predicate CountsEqual(a: seq<BudgetEntry>, b: seq<BudgetEntry>, principal: string, t: int, window: int) {
    && CallsIn(a, principal, t) == CallsIn(b, principal, t)
    && TargetsIn(a, principal, t, window) == TargetsIn(b, principal, t, window)
  }

  lemma CountSnoc(a: seq<BudgetEntry>, x: BudgetEntry, principal: string, t: int, window: int)
    ensures CallsIn(a + [x], principal, t) == CallsIn(a, principal, t) + if Counts(x, principal, t, 60) then 1 else 0
    ensures TargetsIn(a + [x], principal, t, window)
         == TargetsIn(a, principal, t, window) + if Counts(x, principal, t, window) then x.count else 0
  {
    assert (a + [x])[..|a|] == a;
  }

  lemma ExtendCountsLike(a: seq<BudgetEntry>, b: seq<BudgetEntry>, x: BudgetEntry, since: int)
    requires CountsLike(a, b, since)
    ensures CountsLike(a + [x], b + [x], since)
  {
    forall principal, t, window | t >= since ensures CountsEqual(a + [x], b + [x], principal, t, window) {
      CountSnoc(a, x, principal, t, window);
      CountSnoc(b, x, principal, t, window);
      assert CountsEqual(a, b, principal, t, window);
    }
  }

  lemma CompactCountsLike(a: seq<BudgetEntry>, b: seq<BudgetEntry>, since: int, now: int)
    requires CountsLike(a, b, since) && now >= since
    ensures CountsLike(KeptBudgets(a, now), b, now)
  {
    forall principal, t, window | t >= now ensures CountsEqual(KeptBudgets(a, now), b, principal, t, window) {
      KeptBudgetsCountSame(a, principal, now, t, window);
      assert CountsEqual(a, b, principal, t, window);
    }
  }

  /** One more admitted charge stays within the limits. */
  lemma ChargeStaysWithin(pol: Policy, charged: seq<BudgetEntry>, st: State, req: Request, now: int)
    requires WithinLimits(pol, charged) && ProperCharges(pol, charged, now) && req.targets >= 0
    requires CountsLike(st.budgets, charged, now) && !OverBudget(pol, st, req, now)
    ensures WithinLimits(pol, charged + [NewBudget(pol, req, now)])
    ensures ProperCharges(pol, charged + [NewBudget(pol, req, now)], now)
  {
    var x := NewBudget(pol, req, now);
    var more := charged + [x];
    forall principal, t ensures
      (pol.maxCallsPerMinute > 0 ==> CallsWithin(more, principal, t, 60) <= pol.maxCallsPerMinute)
      && (pol.maxTargetsPerWindow > 0 ==> TargetsWithin(more, principal, t, Window(pol)) <= pol.maxTargetsPerWindow)
    {
      assert more[..|charged|] == charged;
      var calls := CallsWithin(charged, principal, t, 60);
      if principal == req.principal && t >= now {
        CountCovers(pol, charged, principal, now, t);
        assert CountsEqual(st.budgets, charged, principal, now, Window(pol));
      }
    }
  }

  /** What holds of the charges after a run whose last time stamp is now. */
  ghost predicate Budgeted(ctx: Ctx, d: Disk, trace: seq<Timed>, now: int)
    requires ReplayAll(DiskAfter(d, trace).state, ctx.pol.gatewayId).Ok?
  {
    && WithinLimits(ctx.pol, Charged(trace)) && ProperCharges(ctx.pol, Charged(trace), now)
    && CountsLike(View(ctx, DiskAfter(d, trace)).budgets, Charged(trace), now)
  }

  lemma LaterIsProper(pol: Policy, charged: seq<BudgetEntry>, since: int, now: int)
    requires ProperCharges(pol, charged, since) && since <= now
    ensures ProperCharges(pol, charged, now)
  {
  }

  lemma StepStaysBudgeted(ctx: Ctx, d: Disk, w: Write, since: int, now: int, charged: seq<BudgetEntry>)
    requires HashesOk(ctx) && StepOk(ctx, d, w, now) && since <= now && Recoverable(ctx, d)
    requires WithinLimits(ctx.pol, charged) && ProperCharges(ctx.pol, charged, since)
    requires CountsLike(View(ctx, d).budgets, charged, since)
    ensures Recoverable(ctx, Perform(d, w))
    ensures var more := charged + if w.PutState? && w.rec.kind == Budget
                                  then [BudgetEntry(w.rec.key, w.rec.count, w.rec.issuedAt, w.rec.expiresAt)] else [];
            WithinLimits(ctx.pol, more) && ProperCharges(ctx.pol, more, now)
            && CountsLike(View(ctx, Perform(d, w)).budgets, more, now)
  {
    hide ReplayAll, Chain.ValidChain, IsCompaction, SameMeaning, WithinLimits, ProperCharges, CountsEqual,
         OverBudget;
    StepKeepsRecoverable(ctx, d, w, now);
    LaterIsProper(ctx.pol, charged, since, now);
    assert charged + [] == charged;
    if PlainStep(ctx, d, w, now) {
      PlainStepEffect(ctx, d, w, now);
      if w.rec.kind == Budget {
        var req :| BudgetChecked(ctx.pol, View(ctx, d), req, w.rec, now);
        ChargeStaysWithin(ctx.pol, charged, View(ctx, d), req, now);
        ExtendCountsLike(View(ctx, d).budgets, charged, NewBudget(ctx.pol, req, now), now);
      }
    } else if AuditStep(ctx, d, w) {
      AuditStepEffect(ctx, d, w);
    } else if CatchUpStep(ctx, d, w, now) {
      CatchUpEffect(ctx, d, w, now);
    } else {
      SwapReplays(ctx, d, w, now);
      CompactCountsLike(View(ctx, d).budgets, charged, since, now);
    }
  }

  /** A time not later than any of the run's. */
  function LastTime(trace: seq<Timed>, start: int): int {
    if trace == [] then start else trace[|trace| - 1].now
  }

  /** Main result: with time stamps in order, at every point of every run, every
      principal stays within the call limit in every 60-second span and within
      the target limit in every span of the policy's window. */
  lemma {:induction false} BudgetsHold(ctx: Ctx, d: Disk, trace: seq<Timed>, start: int)
    requires HashesOk(ctx) && Recoverable(ctx, d) && Run(ctx, d, trace) && InOrder(trace)
    requires View(ctx, d).budgets == [] && forall k | 0 <= k < |trace| :: start <= trace[k].now
    ensures Recoverable(ctx, DiskAfter(d, trace))
    ensures Budgeted(ctx, d, trace, LastTime(trace, start))
    decreases |trace|
  {
    hide StepOk, Recoverable, Perform, Readable, WithinLimits, ProperCharges, CountsLike;
    if trace == [] {
      NothingCharged(ctx.pol, start);
    } else {
      var init, last := trace[..|trace| - 1], trace[|trace| - 1];
      RunLast(ctx, d, trace);
      assert forall k | 0 <= k < |init| :: init[k] == trace[k];
      BudgetsHold(ctx, d, init, start);
      assert LastTime(init, start) <= last.now;
      StepStaysBudgeted(ctx, DiskAfter(d, init), last.write, LastTime(init, start), last.now, Charged(init));
    }
  }

  lemma NothingCharged(pol: Policy, start: int)
    ensures WithinLimits(pol, []) && ProperCharges(pol, [], start) && CountsLike([], [], start)
  {
  }

  // ----- rolling challenges -----

  /** All challenges ever admitted, in order. */
  function Challenged(trace: seq<Timed>): seq<ChallengeEntry> {
    if trace == [] then []
    else
      var w := trace[|trace| - 1].write;
      Challenged(trace[..|trace| - 1])
      + (if w.PutState? && w.rec.kind == Challenge then [ChallengeEntry(w.rec.key, w.rec.issuedAt, w.rec.expiresAt)] else [])
  }

  /** How many of a principal's challenges fall into the 60 seconds that end with t. */
  function ChallengesWithin(challenged: seq<ChallengeEntry>, principal: string, t: int): int {
    if challenged == [] then 0
    else
      var c := challenged[|challenged| - 1];
      ChallengesWithin(challenged[..|challenged| - 1], principal, t)
      + (if c.principal == principal && t - 60 < c.issuedAt <= t then 1 else 0)
  }

  ghost predicate ProperChallenges(challenged: seq<ChallengeEntry>, now: int) {
    forall k | 0 <= k < |challenged| :: ProperChallenge(challenged[k], now)
  }

  predicate ProperChallenge(c: ChallengeEntry, now: int) {
    c.expiresAt == c.issuedAt + 60 && c.issuedAt <= now
  }

  ghost predicate ChallengesLike(a: seq<ChallengeEntry>, b: seq<ChallengeEntry>, since: int) {
    forall principal, t :: t >= since ==> ChallengesIn(a, principal, t) == ChallengesIn(b, principal, t)
  }

  ghost predicate WithinChallenges(pol: Policy, challenged: seq<ChallengeEntry>) {
    pol.maxChallengesPerMinute > 0 ==>
      forall principal, t :: ChallengesWithin(challenged, principal, t) <= pol.maxChallengesPerMinute
  }

  /** What the check counts at now covers every challenge in a minute ending at t >= now, and is
      what the minute ending at now holds. */
  lemma {:induction false} ChallengeCountCovers(challenged: seq<ChallengeEntry>, principal: string, now: int, t: int)
    requires ProperChallenges(challenged, now) && t >= now
    ensures ChallengesWithin(challenged, principal, t) <= ChallengesIn(challenged, principal, now)
    ensures ChallengesWithin(challenged, principal, now) == ChallengesIn(challenged, principal, now)
  {
    if challenged != [] {
      var k := |challenged| - 1;
      ChallengeCountCovers(challenged[..k], principal, now, t);
      assert ProperChallenge(challenged[k], now);
    }
  }

  lemma ChallengeSnoc(a: seq<ChallengeEntry>, x: ChallengeEntry, principal: string, t: int)
    ensures ChallengesIn(a + [x], principal, t)
         == ChallengesIn(a, principal, t) + if x.principal == principal && x.issuedAt > t - 60 && x.expiresAt > t then 1 else 0
    ensures ChallengesWithin(a + [x], principal, t)
         == ChallengesWithin(a, principal, t) + if x.principal == principal && t - 60 < x.issuedAt <= t then 1 else 0
  {
    assert (a + [x])[..|a|] == a;
  }

  /** One more admitted challenge stays within the limit. */
  lemma ChallengeStaysWithin(pol: Policy, st: State, challenged: seq<ChallengeEntry>, principal: string, now: int)
    requires WithinChallenges(pol, challenged) && ProperChallenges(challenged, now)
    requires ChallengesLike(st.challenges, challenged, now) && !TooManyChallenges(pol, st, principal, now)
    ensures var x := ChallengeEntry(principal, now, now + 60);
            && WithinChallenges(pol, challenged + [x]) && ProperChallenges(challenged + [x], now)
            && ChallengesLike(st.challenges + [x], challenged + [x], now)
  {
    var x := ChallengeEntry(principal, now, now + 60);
    hide ChallengesIn, ChallengesWithin;
    forall p, t ensures pol.maxChallengesPerMinute > 0 ==> ChallengesWithin(challenged + [x], p, t) <= pol.maxChallengesPerMinute {
      ChallengeSnoc(challenged, x, p, t);
      if p == principal && t >= now {
        ChallengeCountCovers(challenged, p, now, t);
      }
    }
    forall p, t | t >= now ensures ChallengesIn(st.challenges + [x], p, t) == ChallengesIn(challenged + [x], p, t) {
      ChallengeSnoc(challenged, x, p, t);
      ChallengeSnoc(st.challenges, x, p, t);
    }
  }

  lemma CompactChallengesLike(a: seq<ChallengeEntry>, b: seq<ChallengeEntry>, since: int, now: int)
    requires ChallengesLike(a, b, since) && now >= since
    ensures ChallengesLike(KeptChallenges(a, now), b, now)
  {
    forall principal, t | t >= now ensures ChallengesIn(KeptChallenges(a, now), principal, t) == ChallengesIn(b, principal, t) {
      KeptChallengesCountSame(a, principal, now, t);
    }
  }

  lemma LaterChallenges(a: seq<ChallengeEntry>, b: seq<ChallengeEntry>, since: int, now: int)
    requires ProperChallenges(b, since) && ChallengesLike(a, b, since) && since <= now
    ensures ProperChallenges(b, now) && ChallengesLike(a, b, now)
  {
  }

  lemma StepKeepsChallenges(ctx: Ctx, d: Disk, w: Write, since: int, now: int, challenged: seq<ChallengeEntry>)
    requires HashesOk(ctx) && StepOk(ctx, d, w, now) && since <= now && Recoverable(ctx, d)
    requires WithinChallenges(ctx.pol, challenged) && ProperChallenges(challenged, since)
    requires ChallengesLike(View(ctx, d).challenges, challenged, since)
    ensures Recoverable(ctx, Perform(d, w))
    ensures var more := challenged + if w.PutState? && w.rec.kind == Challenge
                                     then [ChallengeEntry(w.rec.key, w.rec.issuedAt, w.rec.expiresAt)] else [];
            WithinChallenges(ctx.pol, more) && ProperChallenges(more, now)
            && ChallengesLike(View(ctx, Perform(d, w)).challenges, more, now)
  {
    hide ReplayAll, Chain.ValidChain, IsCompaction, SameMeaning, WithinChallenges, ProperChallenges, ChallengesLike, TooManyChallenges;
    StepKeepsRecoverable(ctx, d, w, now);
    LaterChallenges(View(ctx, d).challenges, challenged, since, now);
    assert challenged + [] == challenged;
    if PlainStep(ctx, d, w, now) {
      PlainStepEffect(ctx, d, w, now);
      if w.rec.kind == Challenge {
        var principal :| ChallengeChecked(ctx.pol, View(ctx, d), principal, w.rec, now);
        ChallengeStaysWithin(ctx.pol, View(ctx, d), challenged, principal, now);
      }
    } else if AuditStep(ctx, d, w) {
      AuditStepEffect(ctx, d, w);
    } else if CatchUpStep(ctx, d, w, now) {
      CatchUpEffect(ctx, d, w, now);
    } else {
      SwapReplays(ctx, d, w, now);
      CompactChallengesLike(View(ctx, d).challenges, challenged, since, now);
    }
  }

  /** What holds of the challenges after a run whose last time stamp is now. */
  ghost predicate ChallengesKept(ctx: Ctx, d: Disk, trace: seq<Timed>, now: int)
    requires ReplayAll(DiskAfter(d, trace).state, ctx.pol.gatewayId).Ok?
  {
    && WithinChallenges(ctx.pol, Challenged(trace)) && ProperChallenges(Challenged(trace), now)
    && ChallengesLike(View(ctx, DiskAfter(d, trace)).challenges, Challenged(trace), now)
  }

  /** Main result: with time stamps in order, at every point of every run, every principal stays
      within the challenge limit in every 60-second span. */
  lemma {:induction false} ChallengesHold(ctx: Ctx, d: Disk, trace: seq<Timed>, start: int)
    requires HashesOk(ctx) && Recoverable(ctx, d) && Run(ctx, d, trace) && InOrder(trace)
    requires View(ctx, d).challenges == [] && forall k | 0 <= k < |trace| :: start <= trace[k].now
    ensures Recoverable(ctx, DiskAfter(d, trace))
    ensures ChallengesKept(ctx, d, trace, LastTime(trace, start))
    decreases |trace|
  {
    hide StepOk, Recoverable, Perform, Readable, WithinChallenges, ProperChallenges, ChallengesLike;
    if trace == [] {
      NothingChallenged(ctx.pol, start);
    } else {
      var init, last := trace[..|trace| - 1], trace[|trace| - 1];
      RunLast(ctx, d, trace);
      assert forall k | 0 <= k < |init| :: init[k] == trace[k];
      ChallengesHold(ctx, d, init, start);
      assert LastTime(init, start) <= last.now;
      StepKeepsChallenges(ctx, DiskAfter(d, init), last.write, LastTime(init, start), last.now, Challenged(init));
    }
  }

  lemma NothingChallenged(pol: Policy, start: int)
    ensures WithinChallenges(pol, []) && ProperChallenges([], start) && ChallengesLike([], [], start)
  {
  }

  // ----- Separation of Duties -----

  ghost predicate SodSafe(ctx: Ctx, st: State) {
    Sod.SodHolds(ctx.pol.rules, ctx.pol.statics, st.grants)
  }

  lemma StepKeepsSod(ctx: Ctx, d: Disk, w: Write, now: int)
    requires HashesOk(ctx) && StepOk(ctx, d, w, now) && Recoverable(ctx, d) && SodSafe(ctx, View(ctx, d))
    ensures Recoverable(ctx, Perform(d, w)) && SodSafe(ctx, View(ctx, Perform(d, w)))
  {
    hide ReplayAll, Chain.ValidChain, IsCompaction, Sod.SodHolds, AddGrant, GrantChecked;
    StepKeepsRecoverable(ctx, d, w, now);
    var before := View(ctx, d);
    var after := View(ctx, Perform(d, w));
    if PlainStep(ctx, d, w, now) {
      PlainStepEffect(ctx, d, w, now);
      if w.rec.kind == Grant {
        GrantKeepsSod(ctx, before, w.rec);
      }
      if w.rec.kind == GrantRevoke {
        GrantEffect(before, w.rec.key, w.rec.subKey, 0);
        FewerGrants(ctx, before, after);
      }
    } else if AuditStep(ctx, d, w) {
      AuditStepEffect(ctx, d, w);
    } else if CatchUpStep(ctx, d, w, now) {
      CatchUpEffect(ctx, d, w, now);
    } else {
      SwapEffect(ctx, d, w, now);
      assert forall s, e :: Granted(CompactState(before, now), s, e) <==> Granted(before, s, e);
      FewerGrants(ctx, before, after);
    }
  }

  lemma FewerGrants(ctx: Ctx, before: State, after: State)
    requires SodSafe(ctx, before) && forall s, e :: Granted(after, s, e) ==> Granted(before, s, e)
    ensures SodSafe(ctx, after)
  {
    hide Sod.SodHolds;
    assert forall s, e :: Sod.Holds(after.grants, s, e) <==> Granted(after, s, e);
    assert forall s, e :: Sod.Holds(before.grants, s, e) <==> Granted(before, s, e);
    Sod.FewerGrantsSafe(ctx.pol.rules, ctx.pol.statics, before.grants, after.grants);
  }

  /** A grant of a request that passed the check: the state it is made from and the
      state it leads to lie between the state the check saw and that state with
      the whole request granted. */
  lemma GrantKeepsSod(ctx: Ctx, st: State, rec: StateRecord)
    requires SodSafe(ctx, st) && exists before, req :: GrantChecked(ctx.pol, before, st, req, rec)
    ensures SodSafe(ctx, AddGrant(st, rec.key, rec.subKey, rec.issuedAt))
  {
    hide Sod.SodHolds, Sod.Conflict, AddGrant, SodSafe;
    var before, req :| GrantChecked(ctx.pol, before, st, req, rec);
    FewerGrants(ctx, before := st, after := before);
    var target := GrantAll(before, req.subjects, req.ents, 0);
    GrantAllKeepsSod(ctx, before, req);
    GrantAllEffect(before, req.subjects, req.ents, 0);
    GrantEffect(st, rec.key, rec.subKey, rec.issuedAt);
    FewerGrants(ctx, before := target, after := AddGrant(st, rec.key, rec.subKey, rec.issuedAt));
  }

  lemma GrantAllKeepsSod(ctx: Ctx, before: State, req: Request)
    requires SodSafe(ctx, before) && !SodConflict(ctx.pol, before, req) && req.subjects != [] && req.ents != []
    ensures SodSafe(ctx, GrantAll(before, req.subjects, req.ents, 0))
  {
    hide Sod.SodHolds, Sod.Conflict, GrantAll;
    var after := GrantAll(before, req.subjects, req.ents, 0);
    GrantAllEffect(before, req.subjects, req.ents, 0);
    assert forall s, e :: Sod.Holds(before.grants, s, e) <==> Granted(before, s, e);
    assert forall s, e :: Sod.Holds(after.grants, s, e) <==> Granted(after, s, e);
    Sod.CommitKeepsSod(ctx.pol.rules, ctx.pol.statics, before.grants, after.grants, req.subjects, req.ents);
  }

  /** Main result: at every point of every run, for every rule and subject, a
      subject that holds a conflicting entitlement through the ledger holds no
      second one, the static baseline included. */
  lemma {:induction false} SodHoldsThroughout(ctx: Ctx, d: Disk, trace: seq<Timed>)
    requires HashesOk(ctx) && Recoverable(ctx, d) && Run(ctx, d, trace) && SodSafe(ctx, View(ctx, d))
    ensures Recoverable(ctx, DiskAfter(d, trace)) && SodSafe(ctx, View(ctx, DiskAfter(d, trace)))
    decreases |trace|
  {
    hide StepOk, Recoverable, Perform, Readable, SodSafe;
    if trace != [] {
      var init, last := trace[..|trace| - 1], trace[|trace| - 1];
      RunLast(ctx, d, trace);
      SodHoldsThroughout(ctx, d, init);
      StepKeepsSod(ctx, DiskAfter(d, init), last.write, last.now);
    }
  }
}
