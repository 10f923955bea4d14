/** Compaction of state.db (compactLocked in internal/authz/statedb.go). */
module Compaction {
  import opened LedgerState
  import opened LedgerOps
  import opened Lex

  /** The order in which compaction visits the kept tokens and the grants.  The code
      sorts them (InKeyOrder); what is proved of the file holds in every order. */
  datatype Order = Order(jtis: seq<string>, pairs: seq<(string, string)>)

  ghost predicate ValidOrder(st: State, now: int, o: Order) {
    && (forall j :: j in o.jtis <==> j in st.replays && st.replays[j].expiresAt > now)
    && (forall s, e :: (s, e) in o.pairs <==> Granted(st, s, e))
  }

  predicate PairLess(a: (string, string), b: (string, string)) {
    LexLess(a.0, b.0) || (a.0 == b.0 && LexLess(a.1, b.1))
  }

  predicate PairsIncrease(pairs: seq<(string, string)>) {
    forall j, k | 0 <= j < k < |pairs| :: PairLess(pairs[j], pairs[k])
  }

  /** Tokens by jti, grants by subject and entitlement. */
  predicate InKeyOrder(o: Order) {
    Increasing(o.jtis) && PairsIncrease(o.pairs)
  }

  lemma PairOrderIsStrict(a: (string, string), b: (string, string))
    ensures PairLess(a, b) || PairLess(b, a) || a == b
    ensures !(PairLess(a, b) && PairLess(b, a)) && !PairLess(a, a)
  {
    LexIsTotal(a.0, b.0);
    LexIsTotal(a.1, b.1);
    LexIsTotal(a.0, a.0);
    LexIsTotal(a.1, a.1);
  }

  lemma {:induction false} PairsAreUnique(a: seq<(string, string)>, b: seq<(string, string)>)
    requires PairsIncrease(a) && PairsIncrease(b) && forall p :: p in a <==> p in b
    ensures a == b
  {
    hide PairLess;
    assert b != [] ==> b[0] in b;
    if a != [] {
      assert a[0] in a && a[0] in b;
      assert b[0] in a;
      PairOrderIsStrict(a[0], b[0]);
      assert a[0] == b[0];
      forall p ensures p in a[1..] <==> p in b[1..] {
        PairOrderIsStrict(p, p);
        assert p in a <==> p == a[0] || p in a[1..];
        assert p in b <==> p == b[0] || p in b[1..];
      }
      PairsAreUnique(a[1..], b[1..]);
    }
  }

  /** The state determines the compacted file: map iteration order leaves no trace. */
  lemma CompactionIsDetermined(st: State, gw: string, now: int, o: Order, o': Order)
    requires ValidOrder(st, now, o) && ValidOrder(st, now, o') && InKeyOrder(o) && InKeyOrder(o')
    ensures CompactRecords(st, gw, now, o) == CompactRecords(st, gw, now, o')
  {
    hide Increasing, PairsIncrease, Granted;
    IncreasingIsUnique(o.jtis, o'.jtis);
    forall p ensures p in o.pairs <==> p in o'.pairs {
      assert p == (p.0, p.1);
    }
    PairsAreUnique(o.pairs, o'.pairs);
  }

  function KeptReplays(st: State, now: int): map<string, StateRecord> {
    map j | j in st.replays && st.replays[j].expiresAt > now :: st.replays[j]
  }

  function KeptBudgets(budgets: seq<BudgetEntry>, now: int): seq<BudgetEntry> {
    if budgets == [] then []
    else
      var b := budgets[|budgets| - 1];
      KeptBudgets(budgets[..|budgets| - 1], now) + (if b.expiresAt > now then [b] else [])
  }

  function KeptChallenges(challenges: seq<ChallengeEntry>, now: int): seq<ChallengeEntry> {
    if challenges == [] then []
    else
      var c := challenges[|challenges| - 1];
      KeptChallenges(challenges[..|challenges| - 1], now) + (if c.expiresAt > now then [c] else [])
  }

  /** The in-memory state after a compaction. */
  function CompactState(st: State, now: int): State {
    st.(replays := KeptReplays(st, now), budgets := KeptBudgets(st.budgets, now),
        challenges := KeptChallenges(st.challenges, now))
  }

  function ReplayRecords(st: State, jtis: seq<string>): seq<StateRecord>
    requires forall i | 0 <= i < |jtis| :: jtis[i] in st.replays
  {
    seq(|jtis|, i requires 0 <= i < |jtis| => st.replays[jtis[i]])
  }

  function BudgetRecords(id: string, gw: string, budgets: seq<BudgetEntry>): seq<StateRecord> {
    seq(|budgets|, i requires 0 <= i < |budgets| => BudgetRecord(id, gw, budgets[i]))
  }

  function ChallengeRecords(id: string, gw: string, challenges: seq<ChallengeEntry>): seq<StateRecord> {
    seq(|challenges|, i requires 0 <= i < |challenges| => ChallengeRecord(id, gw, challenges[i]))
  }

  /** The time stamp a grant is rewritten with. */
  function Origin(st: State, subject: string, ent: string, now: int): int {
    if subject in st.origins && ent in st.origins[subject] && st.origins[subject][ent] != 0
    then st.origins[subject][ent] else now
  }

  function PairRecords(st: State, gw: string, pairs: seq<(string, string)>, now: int): seq<StateRecord> {
    seq(|pairs|, i requires 0 <= i < |pairs| =>
      GrantRecord(st.ledgerId, gw, pairs[i].0, pairs[i].1, Origin(st, pairs[i].0, pairs[i].1, now)))
  }

  /** The whole compacted file. */
  ghost function CompactRecords(st: State, gw: string, now: int, o: Order): seq<StateRecord>
    requires ValidOrder(st, now, o)
  {
    [HeaderRecord(st.ledgerId, gw, now)]
    + ReplayRecords(st, o.jtis)
    + BudgetRecords(st.ledgerId, gw, KeptBudgets(st.budgets, now))
    + ChallengeRecords(st.ledgerId, gw, KeptChallenges(st.challenges, now))
    + PairRecords(st, gw, o.pairs, now)
    + [HwmRecord(st.ledgerId, gw, st.hwmSeq, st.hwmHash, now)]
  }

  // ----- well-formed states: what replaying a file gives -----

  ghost predicate WellFormed(st: State, gw: string) {
    && IsLedgerId(st.ledgerId) && st.gatewayId == gw
    && forall j :: j in st.replays ==>
         st.replays[j].key == j && st.replays[j].kind == Replay
         && st.replays[j].gatewayId == gw && st.replays[j].ledgerId == st.ledgerId
  }

  lemma AbsorbKeepsWellFormed(st: State, rec: StateRecord, gw: string)
    requires WellFormed(st, gw) && rec.gatewayId == gw && rec.ledgerId == st.ledgerId && Absorb(st, rec).Ok?
    ensures WellFormed(Absorb(st, rec).value, gw)
  {
    hide IsLedgerId;
  }

  lemma StepKeepsWellFormed(st: State, rec: StateRecord, gw: string)
    requires WellFormed(st, gw) && Step(st, rec, gw, false).Ok?
    ensures WellFormed(Step(st, rec, gw, false).value, gw)
  {
    hide Absorb, WellFormed;
    AbsorbKeepsWellFormed(st, rec, gw);
  }

  lemma {:induction false} FoldKeepsWellFormed(st: State, recs: seq<StateRecord>, gw: string)
    requires WellFormed(st, gw) && Fold(st, recs, gw, false).Ok?
    ensures WellFormed(Fold(st, recs, gw, false).value, gw)
    decreases |recs|
  {
    if recs != [] {
      StepKeepsWellFormed(st, recs[0], gw);
      FoldKeepsWellFormed(Step(st, recs[0], gw, false).value, recs[1..], gw);
    }
  }

  /** A file that replays gives a well-formed, complete state. */
  lemma ReplayIsWellFormed(recs: seq<StateRecord>, gw: string)
    requires ReplayAll(recs, gw).Ok?
    ensures WellFormed(ReplayAll(recs, gw).value, gw) && Complete(ReplayAll(recs, gw).value)
  {
    FoldKeepsWellFormed(Step(EMPTY, recs[0], gw, true).value, recs[1..], gw);
  }

  // ----- replaying each section of the compacted file -----

  lemma FoldThen(st: State, a: seq<StateRecord>, mid: State, b: seq<StateRecord>, gw: string, isFirst: bool)
    requires Fold(st, a, gw, isFirst) == Ok(mid) && (a != [] || !isFirst)
    ensures Fold(st, a + b, gw, isFirst) == Fold(mid, b, gw, false)
  {
    FoldConcat(st, a, b, gw, isFirst);
  }

  function Pick(src: State, jtis: seq<string>): map<string, StateRecord>
    requires forall i | 0 <= i < |jtis| :: jtis[i] in src.replays
  {
    map j | j in jtis :: src.replays[j]
  }

  lemma PickCons(src: State, jtis: seq<string>, m: map<string, StateRecord>)
    requires jtis != [] && forall i | 0 <= i < |jtis| :: jtis[i] in src.replays
    ensures m[jtis[0] := src.replays[jtis[0]]] + Pick(src, jtis[1..]) == m + Pick(src, jtis)
  {
    assert jtis == [jtis[0]] + jtis[1..];
  }

  lemma {:induction false} FoldReplays(src: State, st: State, jtis: seq<string>, gw: string)
    requires WellFormed(src, gw) && st.ledgerId == src.ledgerId
    requires forall i | 0 <= i < |jtis| :: jtis[i] in src.replays
    ensures Fold(st, ReplayRecords(src, jtis), gw, false) == Ok(st.(replays := st.replays + Pick(src, jtis)))
    decreases |jtis|
  {
    var recs := ReplayRecords(src, jtis);
    if jtis == [] {
      assert st.replays + Pick(src, jtis) == st.replays;
    } else {
      hide Pick;
      var next := st.(replays := st.replays[jtis[0] := src.replays[jtis[0]]]);
      assert recs[1..] == ReplayRecords(src, jtis[1..]);
      assert Step(st, recs[0], gw, false) == Ok(next);
      FoldReplays(src, next, jtis[1..], gw);
      PickCons(src, jtis, st.replays);
    }
  }

  lemma {:induction false} FoldBudgets(st: State, budgets: seq<BudgetEntry>, gw: string)
    requires st.ledgerId != ""
    ensures Fold(st, BudgetRecords(st.ledgerId, gw, budgets), gw, false) == Ok(st.(budgets := st.budgets + budgets))
    decreases |budgets|
  {
    var recs := BudgetRecords(st.ledgerId, gw, budgets);
    if budgets == [] {
      assert st.budgets + budgets == st.budgets;
    } else {
      var next := st.(budgets := st.budgets + [budgets[0]]);
      assert recs[1..] == BudgetRecords(st.ledgerId, gw, budgets[1..]);
      FoldBudgets(next, budgets[1..], gw);
      assert st.budgets + [budgets[0]] + budgets[1..] == st.budgets + budgets;
    }
  }

  lemma {:induction false} FoldChallenges(st: State, challenges: seq<ChallengeEntry>, gw: string)
    requires st.ledgerId != ""
    ensures Fold(st, ChallengeRecords(st.ledgerId, gw, challenges), gw, false)
         == Ok(st.(challenges := st.challenges + challenges))
    decreases |challenges|
  {
    var recs := ChallengeRecords(st.ledgerId, gw, challenges);
    if challenges == [] {
      assert st.challenges + challenges == st.challenges;
    } else {
      var next := st.(challenges := st.challenges + [challenges[0]]);
      assert recs[1..] == ChallengeRecords(st.ledgerId, gw, challenges[1..]);
      FoldChallenges(next, challenges[1..], gw);
      assert st.challenges + [challenges[0]] + challenges[1..] == st.challenges + challenges;
    }
  }

  /** The time stamp recorded for a grant. */
  function Stamp(st: State, subject: string, ent: string): int {
    if subject in st.origins && ent in st.origins[subject] then st.origins[subject][ent] else 0
  }

  lemma AddGrantStamps(st: State, subject: string, ent: string, iat: int)
    requires st.grants.Keys == st.origins.Keys
    ensures var st' := AddGrant(st, subject, ent, iat);
            st'.grants.Keys == st'.origins.Keys
            && forall s, e :: Stamp(st', s, e) == if s == subject && e == ent then iat else Stamp(st, s, e)
  {
  }

  lemma {:induction false} FoldPairs(src: State, st: State, pairs: seq<(string, string)>, gw: string, now: int)
    requires st.ledgerId == src.ledgerId && st.ledgerId != "" && st.grants.Keys == st.origins.Keys
    ensures var r := Fold(st, PairRecords(src, gw, pairs, now), gw, false);
            r.Ok? && ExceptGrants(r.value, st) && r.value.grants.Keys == r.value.origins.Keys
            && (forall s, e :: Granted(r.value, s, e) <==> Granted(st, s, e) || (s, e) in pairs)
            && (forall s, e :: Stamp(r.value, s, e) == if (s, e) in pairs then Origin(src, s, e, now) else Stamp(st, s, e))
    decreases |pairs|
  {
    hide AddGrant, Stamp, Origin, Granted;
    var recs := PairRecords(src, gw, pairs, now);
    if pairs != [] {
      var next := AddGrant(st, pairs[0].0, pairs[0].1, recs[0].issuedAt);
      GrantEffect(st, pairs[0].0, pairs[0].1, recs[0].issuedAt);
      AddGrantKeepsRest(st, recs[0]);
      AddGrantStamps(st, pairs[0].0, pairs[0].1, recs[0].issuedAt);
      assert Step(st, recs[0], gw, false) == Ok(next);
      assert recs[1..] == PairRecords(src, gw, pairs[1..], now);
      FoldPairs(src, next, pairs[1..], gw, now);
      assert pairs == [pairs[0]] + pairs[1..];
    }
  }

  /** The state after the header and the replay, budget and challenge sections. */
  ghost function BeforeGrants(st: State, gw: string, now: int): State {
    EMPTY.(ledgerId := st.ledgerId, gatewayId := gw, replays := KeptReplays(st, now),
           budgets := KeptBudgets(st.budgets, now), challenges := KeptChallenges(st.challenges, now))
  }

  lemma FoldFrontSections(st: State, gw: string, now: int, o: Order)
    requires WellFormed(st, gw) && ValidOrder(st, now, o)
    ensures Fold(EMPTY,
                 [HeaderRecord(st.ledgerId, gw, now)] + ReplayRecords(st, o.jtis)
                 + BudgetRecords(st.ledgerId, gw, KeptBudgets(st.budgets, now))
                 + ChallengeRecords(st.ledgerId, gw, KeptChallenges(st.challenges, now)), gw, true)
         == Ok(BeforeGrants(st, gw, now))
  {
    var h := [HeaderRecord(st.ledgerId, gw, now)];
    var s0 := EMPTY.(ledgerId := st.ledgerId, gatewayId := gw);
    assert h[1..] == [];
    assert Fold(EMPTY, h, gw, true) == Ok(s0);
    var rs := ReplayRecords(st, o.jtis);
    FoldThen(EMPTY, h, s0, rs, gw, true);
    FoldReplays(st, s0, o.jtis, gw);
    var s1 := s0.(replays := KeptReplays(st, now));
    assert map[] + Pick(st, o.jtis) == KeptReplays(st, now);
    var bs := BudgetRecords(st.ledgerId, gw, KeptBudgets(st.budgets, now));
    FoldThen(EMPTY, h + rs, s1, bs, gw, true);
    FoldBudgets(s1, KeptBudgets(st.budgets, now), gw);
    var s2 := s1.(budgets := KeptBudgets(st.budgets, now));
    assert [] + KeptBudgets(st.budgets, now) == KeptBudgets(st.budgets, now);
    var cs := ChallengeRecords(st.ledgerId, gw, KeptChallenges(st.challenges, now));
    FoldThen(EMPTY, h + rs + bs, s2, cs, gw, true);
    FoldChallenges(s2, KeptChallenges(st.challenges, now), gw);
    assert [] + KeptChallenges(st.challenges, now) == KeptChallenges(st.challenges, now);
  }

  /** Main result: the compacted file replays, and to the state that compaction
      leaves in memory. */
  lemma CompactedFileReplays(st: State, gw: string, now: int, o: Order)
    requires WellFormed(st, gw) && Complete(st) && ValidOrder(st, now, o)
    ensures var r := ReplayAll(CompactRecords(st, gw, now, o), gw);
            r.Ok? && SameMeaning(r.value, CompactState(st, now))
            && forall s, e :: Granted(st, s, e) ==> Stamp(r.value, s, e) == Origin(st, s, e, now)
  {
    hide Fold, KeptReplays, KeptBudgets, KeptChallenges, ReplayRecords, BudgetRecords, ChallengeRecords,
         PairRecords;
    var front := [HeaderRecord(st.ledgerId, gw, now)] + ReplayRecords(st, o.jtis)
                 + BudgetRecords(st.ledgerId, gw, KeptBudgets(st.budgets, now))
                 + ChallengeRecords(st.ledgerId, gw, KeptChallenges(st.challenges, now));
    FoldFrontSections(st, gw, now, o);
    var s3 := BeforeGrants(st, gw, now);
    var ps := PairRecords(st, gw, o.pairs, now);
    FoldThen(EMPTY, front, s3, ps, gw, true);
    FoldPairs(st, s3, o.pairs, gw, now);
    var s4 := Fold(s3, ps, gw, false).value;
    var hwm := HwmRecord(st.ledgerId, gw, st.hwmSeq, st.hwmHash, now);
    FoldThen(EMPTY, front + ps, s4, [hwm], gw, true);
    FoldOne(s4, hwm, gw);
    var last := s4.(hwmSeq := st.hwmSeq, hwmHash := st.hwmHash);
    assert forall s, e :: Granted(last, s, e) <==> Granted(s4, s, e);
    assert forall s, e :: Granted(s3, s, e) <==> false;
    assert forall s, e :: Granted(CompactState(st, now), s, e) <==> Granted(st, s, e);
  }

  // ----- compaction preserves every later answer -----

  lemma {:induction false} KeptBudgetsCountSame(budgets: seq<BudgetEntry>, principal: string, now: int, t: int, window: int)
    requires t >= now
    ensures CallsIn(KeptBudgets(budgets, now), principal, t) == CallsIn(budgets, principal, t)
    ensures TargetsIn(KeptBudgets(budgets, now), principal, t, window) == TargetsIn(budgets, principal, t, window)
  {
    if budgets != [] {
      var k := |budgets| - 1;
      var init := KeptBudgets(budgets[..k], now);
      KeptBudgetsCountSame(budgets[..k], principal, now, t, window);
      assert (init + [budgets[k]])[..|init|] == init;
      assert init + [] == init;
    }
  }

  lemma {:induction false} KeptChallengesCountSame(challenges: seq<ChallengeEntry>, principal: string, now: int, t: int)
    requires t >= now
    ensures ChallengesIn(KeptChallenges(challenges, now), principal, t) == ChallengesIn(challenges, principal, t)
  {
    if challenges != [] {
      var k := |challenges| - 1;
      var init := KeptChallenges(challenges[..k], now);
      KeptChallengesCountSame(challenges[..k], principal, now, t);
      assert (init + [challenges[k]])[..|init|] == init;
      assert init + [] == init;
    }
  }

  /** Main result: replaying the compacted file gives the same ledger, marks and
      grants, the same counts at every time from now on, and the same replay
      verdict at every later time; at now itself the verdict changes exactly for
      tokens that expire at now. */
  lemma CompactionPreservesMeaning(st: State, gw: string, now: int, o: Order, t: int, principal: string, window: int)
    requires WellFormed(st, gw) && Complete(st) && ValidOrder(st, now, o) && t >= now
    ensures ReplayAll(CompactRecords(st, gw, now, o), gw).Ok?
    ensures var st' := ReplayAll(CompactRecords(st, gw, now, o), gw).value;
            && st'.ledgerId == st.ledgerId && st'.hwmSeq == st.hwmSeq && st'.hwmHash == st.hwmHash
            && (forall s, e :: Granted(st', s, e) <==> Granted(st, s, e))
            && CallsIn(st'.budgets, principal, t) == CallsIn(st.budgets, principal, t)
            && TargetsIn(st'.budgets, principal, t, window) == TargetsIn(st.budgets, principal, t, window)
            && ChallengesIn(st'.challenges, principal, t) == ChallengesIn(st.challenges, principal, t)
            && forall j :: Replayed(st', j, t) <==>
                             Replayed(st, j, t) && !(t == now && st.replays[j].expiresAt == now)
  {
    hide ReplayAll, CompactRecords, KeptBudgets, KeptChallenges, CallsIn, TargetsIn, ChallengesIn;
    CompactedFileReplays(st, gw, now, o);
    KeptBudgetsCountSame(st.budgets, principal, now, t, window);
    KeptChallengesCountSame(st.challenges, principal, now, t);
    var st' := ReplayAll(CompactRecords(st, gw, now, o), gw).value;
    assert forall s, e :: Granted(CompactState(st, now), s, e) <==> Granted(st, s, e);
  }

  // ----- the loops of compactLocked -----

  method CompactLocked(st: State, gw: string, now: int) returns (recs: seq<StateRecord>, after: State, ghost o: Order)
    ensures ValidOrder(st, now, o) && InKeyOrder(o) && recs == CompactRecords(st, gw, now, o)
    ensures after == CompactState(st, now)
  {
    hide Increasing, PairsIncrease;
    recs := [HeaderRecord(st.ledgerId, gw, now)];
    var jtis := CollectTokens(st, now);
    recs := recs + ReplayRecords(st, jtis);
    var keptBudgets: seq<BudgetEntry> := [];
    for i := 0 to |st.budgets|
      invariant keptBudgets == KeptBudgets(st.budgets[..i], now)
    {
      assert st.budgets[..i + 1][..i] == st.budgets[..i];
      if st.budgets[i].expiresAt > now {
        keptBudgets := keptBudgets + [st.budgets[i]];
      }
    }
    assert st.budgets[..|st.budgets|] == st.budgets;
    recs := recs + BudgetRecords(st.ledgerId, gw, keptBudgets);
    var keptChallenges: seq<ChallengeEntry> := [];
    for i := 0 to |st.challenges|
      invariant keptChallenges == KeptChallenges(st.challenges[..i], now)
    {
      assert st.challenges[..i + 1][..i] == st.challenges[..i];
      if st.challenges[i].expiresAt > now {
        keptChallenges := keptChallenges + [st.challenges[i]];
      }
    }
    assert st.challenges[..|st.challenges|] == st.challenges;
    recs := recs + ChallengeRecords(st.ledgerId, gw, keptChallenges);
    var pairs := CollectPairs(st);
    recs := recs + PairRecords(st, gw, pairs, now);
    recs := recs + [HwmRecord(st.ledgerId, gw, st.hwmSeq, st.hwmHash, now)];
    after := st.(replays := KeptReplays(st, now), budgets := keptBudgets, challenges := keptChallenges);
    o := Order(jtis, pairs);
  }

  method CollectTokens(st: State, now: int) returns (jtis: seq<string>)
    ensures Increasing(jtis) && forall j :: j in jtis <==> j in st.replays && st.replays[j].expiresAt > now
  {
    jtis := SortKeys(set j | j in st.replays && st.replays[j].expiresAt > now);
  }

  method CollectPairs(st: State) returns (pairs: seq<(string, string)>)
    ensures PairsIncrease(pairs) && forall s, e :: (s, e) in pairs <==> Granted(st, s, e)
  {
    hide Increasing, LexLess;
    pairs := [];
    var subjects := SortKeys(st.grants.Keys);
    for i := 0 to |subjects|
      invariant PairsIncrease(pairs)
      invariant forall s, e :: (s, e) in pairs <==> Granted(st, s, e) && s in subjects[..i]
    {
      var s := subjects[i];
      var ents := SortKeys(st.grants[s]);
      var more := PairsOf(s, ents);
      LaterSubject(subjects, i, pairs);
      JoinPairs(pairs, more, s);
      pairs := pairs + more;
      assert subjects[..i + 1] == subjects[..i] + [s];
    }
    assert subjects[..|subjects|] == subjects;
  }

  lemma LaterSubject(subjects: seq<string>, i: nat, pairs: seq<(string, string)>)
    requires Increasing(subjects) && i < |subjects| && forall s, e :: (s, e) in pairs ==> s in subjects[..i]
    ensures forall k | 0 <= k < |pairs| :: LexLess(pairs[k].0, subjects[i])
  {
    hide LexLess;
    forall k | 0 <= k < |pairs| ensures LexLess(pairs[k].0, subjects[i]) {
      assert (pairs[k].0, pairs[k].1) in pairs;
      var j :| 0 <= j < i && subjects[j] == pairs[k].0;
    }
  }

  lemma JoinPairs(a: seq<(string, string)>, b: seq<(string, string)>, s: string)
    requires PairsIncrease(a) && PairsIncrease(b)
    requires (forall k | 0 <= k < |a| :: LexLess(a[k].0, s)) && forall k | 0 <= k < |b| :: b[k].0 == s
    ensures PairsIncrease(a + b)
  {
    hide LexLess;
  }

  method PairsOf(s: string, ents: seq<string>) returns (pairs: seq<(string, string)>)
    requires Increasing(ents)
    ensures PairsIncrease(pairs) && (forall x, e :: (x, e) in pairs <==> x == s && e in ents)
    ensures forall k | 0 <= k < |pairs| :: pairs[k].0 == s
  {
    hide LexLess;
    pairs := [];
    for i := 0 to |ents|
      invariant |pairs| == i && forall k | 0 <= k < i :: pairs[k] == (s, ents[k])
    {
      pairs := pairs + [(s, ents[i])];
    }
    forall x, e ensures (x, e) in pairs <==> x == s && e in ents {
      if x == s && e in ents {
        var k :| 0 <= k < |ents| && ents[k] == e;
        assert pairs[k] == (x, e);
      }
    }
  }
}
