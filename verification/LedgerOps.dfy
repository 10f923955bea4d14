/** What the ledger's operations decide and which records they write (internal/authz/statedb.go). */
module LedgerOps {
  import opened LedgerState
  import Sod

  datatype Option<T> = None | Some(value: T)

  /** The parts of the policy that the ledger reads. */
  datatype Policy = Policy(
    gatewayId: string, serverName: string,
    maxCallsPerMinute: int, maxTargetsPerWindow: int, budgetWindowSeconds: int,
    maxChallengesPerMinute: int, maxClockSkewSeconds: int, maxApprovalTtlSeconds: int,
    rules: seq<Sod.Rule>, statics: Sod.Statics)

  function Window(pol: Policy): (w: int)
    ensures w >= 60
  {
    if pol.budgetWindowSeconds < 60 then 3600 else pol.budgetWindowSeconds
  }

  function Skew(pol: Policy): (s: int)
    ensures s > 0
  {
    if pol.maxClockSkewSeconds <= 0 then 30 else pol.maxClockSkewSeconds
  }

  /** ApprovalTokenClaimsV1, as far as the ledger and the time window use it. */
  datatype Claims = Claims(jti: string, intentDigest: string, issuedAt: int, expiresAt: int)

  /** The temporal bounds of VerifyApprovalToken. */
  predicate InTimeWindow(pol: Policy, c: Claims, now: int) {
    var maxTtl := if pol.maxApprovalTtlSeconds <= 0 then 300 else pol.maxApprovalTtlSeconds;
    && 0 < c.issuedAt < c.expiresAt && c.expiresAt - c.issuedAt <= maxTtl
    && c.issuedAt - Skew(pol) <= now <= c.expiresAt + Skew(pol)
  }

  /** jtiHexRegex */
  predicate IsJti(s: string) {
    32 <= |s| <= 64 && forall k | 0 <= k < |s| :: IsHexChar(s[k])
  }

  /** What the ledger relies on of a token that VerifyApprovalToken has accepted. */
  predicate TokenVerified(pol: Policy, c: Claims, now: int) {
    IsJti(c.jti) && InTimeWindow(pol, c, now)
  }

  datatype Request = Request(
    principal: string, targets: int, subjects: seq<string>, ents: seq<string>, approval: Option<Claims>)

  datatype Decision = Allow | DenyReplayed | DenySod | DenyBudget

  // ----- counting -----

  predicate Counts(b: BudgetEntry, principal: string, now: int, span: int) {
    b.principal == principal && b.expiresAt > now && b.issuedAt > now - span
  }

  function CallsIn(budgets: seq<BudgetEntry>, principal: string, now: int): int {
    if budgets == [] then 0
    else CallsIn(budgets[..|budgets| - 1], principal, now)
         + (if Counts(budgets[|budgets| - 1], principal, now, 60) then 1 else 0)
  }

  function TargetsIn(budgets: seq<BudgetEntry>, principal: string, now: int, window: int): int {
    if budgets == [] then 0
    else TargetsIn(budgets[..|budgets| - 1], principal, now, window)
         + (if Counts(budgets[|budgets| - 1], principal, now, window) then budgets[|budgets| - 1].count else 0)
  }

  function ChallengesIn(challenges: seq<ChallengeEntry>, principal: string, now: int): int {
    if challenges == [] then 0
    else
      var c := challenges[|challenges| - 1];
      ChallengesIn(challenges[..|challenges| - 1], principal, now)
      + (if c.principal == principal && c.issuedAt > now - 60 && c.expiresAt > now then 1 else 0)
  }

  predicate Replayed(st: State, jti: string, now: int) {
    jti in st.replays && st.replays[jti].expiresAt >= now
  }

  predicate OverBudget(pol: Policy, st: State, req: Request, now: int) {
    || (pol.maxCallsPerMinute > 0 && CallsIn(st.budgets, req.principal, now) + 1 > pol.maxCallsPerMinute)
    || (pol.maxTargetsPerWindow > 0
        && TargetsIn(st.budgets, req.principal, now, Window(pol)) + req.targets > pol.maxTargetsPerWindow)
  }

  predicate TooManyChallenges(pol: Policy, view: State, principal: string, now: int) {
    pol.maxChallengesPerMinute > 0 && ChallengesIn(view.challenges, principal, now) >= pol.maxChallengesPerMinute
  }

  predicate SodConflict(pol: Policy, st: State, req: Request) {
    req.subjects != [] && req.ents != []
    && Sod.Conflict(pol.rules, pol.statics, req.subjects, req.ents, st.grants)
  }

  /** The checks of CommitWriteAndPreForwardAudit, in order. */
  function Decide(pol: Policy, st: State, req: Request, now: int): Decision {
    if req.approval.Some? && Replayed(st, req.approval.value.jti, now) then DenyReplayed
    else if SodConflict(pol, st, req) then DenySod
    else if OverBudget(pol, st, req, now) then DenyBudget
    else Allow
  }

  /** The counting loop over st.Budgets. */
  method CountBudgets(budgets: seq<BudgetEntry>, principal: string, now: int, window: int)
    returns (calls: int, targets: int)
    requires window >= 60
    ensures calls == CallsIn(budgets, principal, now) && targets == TargetsIn(budgets, principal, now, window)
  {
    calls, targets := 0, 0;
    for i := 0 to |budgets|
      invariant calls == CallsIn(budgets[..i], principal, now)
      invariant targets == TargetsIn(budgets[..i], principal, now, window)
    {
      var b := budgets[i];
      assert budgets[..i + 1][..i] == budgets[..i];
      if b.principal != principal || b.expiresAt <= now {
        continue;
      }
      if b.issuedAt > now - 60 {
        calls := calls + 1;
      }
      if b.issuedAt > now - window {
        targets := targets + b.count;
      }
    }
    assert budgets[..|budgets|] == budgets;
  }

  method CountChallenges(challenges: seq<ChallengeEntry>, principal: string, now: int) returns (n: int)
    ensures n == ChallengesIn(challenges, principal, now)
  {
    n := 0;
    for i := 0 to |challenges|
      invariant n == ChallengesIn(challenges[..i], principal, now)
    {
      var c := challenges[i];
      assert challenges[..i + 1][..i] == challenges[..i];
      if c.principal == principal && c.issuedAt > now - 60 && c.expiresAt > now {
        n := n + 1;
      }
    }
    assert challenges[..|challenges|] == challenges;
  }

  // ----- records -----

  function HeaderRecord(id: string, gw: string, now: int): StateRecord {
    StateRecord(id, Header, gw, "ledger_id", "", id, 0, 0, "", now, 0)
  }

  function HwmRecord(id: string, gw: string, seqNo: nat, hash: string, now: int): StateRecord {
    StateRecord(id, AuditHwm, gw, "hwm", "", "", 0, seqNo, hash, now, 0)
  }

  function BudgetRecord(id: string, gw: string, b: BudgetEntry): StateRecord {
    StateRecord(id, Budget, gw, b.principal, "", "", b.count, 0, "", b.issuedAt, b.expiresAt)
  }

  function ChallengeRecord(id: string, gw: string, c: ChallengeEntry): StateRecord {
    StateRecord(id, Challenge, gw, c.principal, "", "", 1, 0, "", c.issuedAt, c.expiresAt)
  }

  function GrantRecord(id: string, gw: string, subject: string, ent: string, iat: int): StateRecord {
    StateRecord(id, Grant, gw, subject, ent, "", 0, 0, "", iat, 0)
  }

  function RevokeRecord(id: string, gw: string, subject: string, ent: string, value: string, now: int): StateRecord {
    StateRecord(id, GrantRevoke, gw, subject, ent, value, 0, 0, "", now, 0)
  }

  /** How long a consumed approval token is remembered. */
  function ReplayExpiry(pol: Policy, c: Claims): int {
    c.expiresAt + Skew(pol) + 60
  }

  function ReplayRecord(pol: Policy, id: string, c: Claims, now: int): StateRecord {
    StateRecord(id, Replay, pol.gatewayId, c.jti, "", c.intentDigest, 0, 0, "", now, ReplayExpiry(pol, c))
  }

  function NewBudget(pol: Policy, req: Request, now: int): BudgetEntry {
    BudgetEntry(req.principal, req.targets, now, now + Window(pol))
  }

  function EntRecords(id: string, gw: string, subject: string, ents: seq<string>, now: int): seq<StateRecord> {
    if ents == [] then [] else
      EntRecords(id, gw, subject, ents[..|ents| - 1], now) + [GrantRecord(id, gw, subject, ents[|ents| - 1], now)]
  }

  function GrantRecords(id: string, gw: string, subjects: seq<string>, ents: seq<string>, now: int): seq<StateRecord> {
    if subjects == [] then [] else
      GrantRecords(id, gw, subjects[..|subjects| - 1], ents, now)
      + EntRecords(id, gw, subjects[|subjects| - 1], ents, now)
  }

  /** The state records of an allowed commit: budget, grants, replay. */
  function CommitRecords(pol: Policy, id: string, req: Request, now: int): seq<StateRecord> {
    [BudgetRecord(id, pol.gatewayId, NewBudget(pol, req, now))]
    + GrantRecords(id, pol.gatewayId, req.subjects, req.ents, now)
    + (if req.approval.Some? then [ReplayRecord(pol, id, req.approval.value, now)] else [])
  }

  // ----- the in-memory update agrees with replaying the records -----

  function GrantEnts(st: State, subject: string, ents: seq<string>, now: int): State {
    if ents == [] then st else AddGrant(GrantEnts(st, subject, ents[..|ents| - 1], now), subject, ents[|ents| - 1], now)
  }

  function TouchSubject(st: State, subject: string): State {
    if subject in st.grants then st
    else st.(grants := st.grants[subject := {}], origins := st.origins[subject := map[]])
  }

  function GrantAll(st: State, subjects: seq<string>, ents: seq<string>, now: int): State {
    if subjects == [] then st
    else
      var subject := subjects[|subjects| - 1];
      GrantEnts(TouchSubject(GrantAll(st, subjects[..|subjects| - 1], ents, now), subject), subject, ents, now)
  }

  /** The in-memory update of CommitWriteAndPreForwardAudit. */
  function CommitState(pol: Policy, st: State, req: Request, now: int): State {
    var st1 := st.(budgets := st.budgets + [NewBudget(pol, req, now)]);
    var st2 := GrantAll(st1, req.subjects, req.ents, now);
    if req.approval.Some? then
      var rec := ReplayRecord(pol, st.ledgerId, req.approval.value, now);
      st2.(replays := st2.replays[rec.key := rec])
    else st2
  }

  lemma {:induction false} GrantEntsEffect(st: State, subject: string, ents: seq<string>, now: int)
    ensures ExceptGrants(GrantEnts(st, subject, ents, now), st)
    ensures forall s, e :: Granted(GrantEnts(st, subject, ents, now), s, e) <==> Granted(st, s, e) || (s == subject && e in ents)
  {
    if ents != [] {
      var k := |ents| - 1;
      var before := GrantEnts(st, subject, ents[..k], now);
      GrantEntsEffect(st, subject, ents[..k], now);
      GrantEffect(before, subject, ents[k], now);
      assert ents == ents[..k] + [ents[k]];
    }
  }

  lemma {:induction false} GrantAllEffect(st: State, subjects: seq<string>, ents: seq<string>, now: int)
    ensures ExceptGrants(GrantAll(st, subjects, ents, now), st)
    ensures forall s, e :: Granted(GrantAll(st, subjects, ents, now), s, e) <==>
                             Granted(st, s, e) || (s in subjects && e in ents)
  {
    if subjects != [] {
      var k := |subjects| - 1;
      var before := GrantAll(st, subjects[..k], ents, now);
      GrantAllEffect(st, subjects[..k], ents, now);
      var touched := TouchSubject(before, subjects[k]);
      assert forall s, e :: Granted(touched, s, e) <==> Granted(before, s, e);
      GrantEntsEffect(touched, subjects[k], ents, now);
      assert subjects == subjects[..k] + [subjects[k]];
    }
  }

  lemma FoldOne(st: State, rec: StateRecord, gw: string)
    requires rec.gatewayId == gw && rec.ledgerId == st.ledgerId && st.ledgerId != ""
    ensures Fold(st, [rec], gw, false) == Absorb(st, rec)
  {
    assert [rec][1..] == [];
  }

  lemma FoldSnoc(st: State, recs: seq<StateRecord>, rec: StateRecord, gw: string)
    requires Fold(st, recs, gw, false).Ok?
    requires var st' := Fold(st, recs, gw, false).value;
             rec.gatewayId == gw && rec.ledgerId == st'.ledgerId && st'.ledgerId != ""
    ensures Fold(st, recs + [rec], gw, false) == Absorb(Fold(st, recs, gw, false).value, rec)
  {
    FoldConcat(st, recs, [rec], gw, false);
    FoldOne(Fold(st, recs, gw, false).value, rec, gw);
  }

  lemma {:induction false} FoldEntRecords(st: State, gw: string, subject: string, ents: seq<string>, now: int)
    requires st.ledgerId != ""
    ensures Fold(st, EntRecords(st.ledgerId, gw, subject, ents, now), gw, false) == Ok(GrantEnts(st, subject, ents, now))
  {
    if ents != [] {
      var k := |ents| - 1;
      FoldEntRecords(st, gw, subject, ents[..k], now);
      GrantEntsEffect(st, subject, ents[..k], now);
      FoldSnoc(st, EntRecords(st.ledgerId, gw, subject, ents[..k], now), GrantRecord(st.ledgerId, gw, subject, ents[k], now), gw);
    }
  }

  /** Replaying the grant records of a commit grants every requested pair and nothing else. */
  lemma {:induction false} FoldGrantRecords(st: State, gw: string, subjects: seq<string>, ents: seq<string>, now: int)
    requires st.ledgerId != ""
    ensures var r := Fold(st, GrantRecords(st.ledgerId, gw, subjects, ents, now), gw, false);
            r.Ok? && ExceptGrants(r.value, st)
            && forall s, e :: Granted(r.value, s, e) <==> Granted(st, s, e) || (s in subjects && e in ents)
  {
    if subjects != [] {
      var k := |subjects| - 1;
      FoldGrantRecords(st, gw, subjects[..k], ents, now);
      var first := GrantRecords(st.ledgerId, gw, subjects[..k], ents, now);
      var last := EntRecords(st.ledgerId, gw, subjects[k], ents, now);
      var mid := Fold(st, first, gw, false).value;
      FoldConcat(st, first, last, gw, false);
      FoldEntRecords(mid, gw, subjects[k], ents, now);
      GrantEntsEffect(mid, subjects[k], ents, now);
      assert subjects == subjects[..k] + [subjects[k]];
    }
  }

  lemma BudgetAndGrantsReplay(pol: Policy, st: State, req: Request, now: int)
    requires st.ledgerId != ""
    ensures var st1 := st.(budgets := st.budgets + [NewBudget(pol, req, now)]);
            var r := Fold(st, [BudgetRecord(st.ledgerId, pol.gatewayId, NewBudget(pol, req, now))]
                              + GrantRecords(st.ledgerId, pol.gatewayId, req.subjects, req.ents, now), pol.gatewayId, false);
            r.Ok? && ExceptGrants(r.value, st1)
            && forall s, e :: Granted(r.value, s, e) <==> Granted(st, s, e) || (s in req.subjects && e in req.ents)
  {
    var b := BudgetRecord(st.ledgerId, pol.gatewayId, NewBudget(pol, req, now));
    var st1 := st.(budgets := st.budgets + [NewBudget(pol, req, now)]);
    FoldOne(st, b, pol.gatewayId);
    FoldConcat(st, [b], GrantRecords(st.ledgerId, pol.gatewayId, req.subjects, req.ents, now), pol.gatewayId, false);
    FoldGrantRecords(st1, pol.gatewayId, req.subjects, req.ents, now);
    assert forall s, e :: Granted(st1, s, e) <==> Granted(st, s, e);
  }

  lemma CommitStateEffect(pol: Policy, st: State, req: Request, now: int)
    ensures var st' := CommitState(pol, st, req, now);
            var st1 := st.(budgets := st.budgets + [NewBudget(pol, req, now)],
                           replays := if req.approval.Some?
                                      then st.replays[req.approval.value.jti := ReplayRecord(pol, st.ledgerId, req.approval.value, now)]
                                      else st.replays);
            ExceptGrants(st', st1)
            && forall s, e :: Granted(st', s, e) <==> Granted(st, s, e) || (s in req.subjects && e in req.ents)
  {
    var st1 := st.(budgets := st.budgets + [NewBudget(pol, req, now)]);
    GrantAllEffect(st1, req.subjects, req.ents, now);
    var st2 := GrantAll(st1, req.subjects, req.ents, now);
    assert forall s, e :: Granted(st1, s, e) <==> Granted(st, s, e);
    assert forall s, e :: Granted(CommitState(pol, st, req, now), s, e) <==> Granted(st2, s, e);
  }

  /** Replaying a commit's records gives, up to empty grant sets, the in-memory update. */
  lemma CommitReplays(pol: Policy, st: State, req: Request, now: int)
    requires st.ledgerId != ""
    ensures var r := Fold(st, CommitRecords(pol, st.ledgerId, req, now), pol.gatewayId, false);
            r.Ok? && SameMeaning(r.value, CommitState(pol, st, req, now))
  {
    hide Fold, GrantRecords, CommitState;
    var id, gw := st.ledgerId, pol.gatewayId;
    var recs := [BudgetRecord(id, gw, NewBudget(pol, req, now))] + GrantRecords(id, gw, req.subjects, req.ents, now);
    BudgetAndGrantsReplay(pol, st, req, now);
    CommitStateEffect(pol, st, req, now);
    var mid := Fold(st, recs, gw, false).value;
    if req.approval.Some? {
      FoldSnoc(st, recs, ReplayRecord(pol, id, req.approval.value, now), gw);
      var last := Absorb(mid, ReplayRecord(pol, id, req.approval.value, now)).value;
      assert forall s, e :: Granted(last, s, e) <==> Granted(mid, s, e);
    } else {
      assert recs + [] == recs;
    }
  }
}
