/** What a compaction leaves: what is live, once, and nothing else. */
module CompactionSize {
  import opened LedgerState
  import opened LedgerOps
  import opened Lex
  import opened Compaction

  /** Places of the charges and challenges that have not run out. */
  function LiveCharges(budgets: seq<BudgetEntry>, now: int): set<int> {
    set i | 0 <= i < |budgets| && now < budgets[i].expiresAt
  }

  function LiveChallenges(challenges: seq<ChallengeEntry>, now: int): set<int> {
    set i | 0 <= i < |challenges| && now < challenges[i].expiresAt
  }

  function LiveTokens(replays: map<string, StateRecord>, now: int): set<string> {
    set j | j in replays && now < replays[j].expiresAt
  }

  function Grants(st: State): set<(string, string)> {
    set s, e | s in st.grants && e in st.grants[s] :: (s, e)
  }

  lemma ChargesSnoc(budgets: seq<BudgetEntry>, now: int)
    requires budgets != []
    ensures var k := |budgets| - 1;
            LiveCharges(budgets, now) == LiveCharges(budgets[..k], now) + if now < budgets[k].expiresAt then {k} else {}
  {
  }

  lemma {:induction false} KeptBudgetsSize(budgets: seq<BudgetEntry>, now: int)
    ensures |KeptBudgets(budgets, now)| == |LiveCharges(budgets, now)|
    ensures forall b :: b in KeptBudgets(budgets, now) <==> b in budgets && now < b.expiresAt
  {
    if budgets != [] {
      var k := |budgets| - 1;
      KeptBudgetsSize(budgets[..k], now);
      ChargesSnoc(budgets, now);
      assert k !in LiveCharges(budgets[..k], now);
      hide LiveCharges;
      assert budgets == budgets[..k] + [budgets[k]];
    }
  }

  lemma ChallengesSnoc(challenges: seq<ChallengeEntry>, now: int)
    requires challenges != []
    ensures var k := |challenges| - 1;
            LiveChallenges(challenges, now) == LiveChallenges(challenges[..k], now) + if now < challenges[k].expiresAt then {k} else {}
  {
  }

  lemma {:induction false} KeptChallengesSize(challenges: seq<ChallengeEntry>, now: int)
    ensures |KeptChallenges(challenges, now)| == |LiveChallenges(challenges, now)|
    ensures forall c :: c in KeptChallenges(challenges, now) <==> c in challenges && now < c.expiresAt
  {
    if challenges != [] {
      var k := |challenges| - 1;
      KeptChallengesSize(challenges[..k], now);
      ChallengesSnoc(challenges, now);
      assert k !in LiveChallenges(challenges[..k], now);
      hide LiveChallenges;
      assert challenges == challenges[..k] + [challenges[k]];
    }
  }

  lemma {:induction false} DistinctStrings(s: seq<string>)
    requires Increasing(s)
    ensures |s| == |set x | x in s|
  {
    hide LexLess;
    if s != [] {
      var k := |s| - 1;
      DistinctStrings(s[..k]);
      if s[k] in s[..k] {
        var j :| 0 <= j < k && s[j] == s[k];
        LexIsTotal(s[j], s[k]);
      }
      assert s == s[..k] + [s[k]];
      assert (set x | x in s) == (set x | x in s[..k]) + {s[k]};
    }
  }

  lemma {:induction false} DistinctPairs(s: seq<(string, string)>)
    requires PairsIncrease(s)
    ensures |s| == |set x | x in s|
  {
    hide PairLess;
    if s != [] {
      var k := |s| - 1;
      DistinctPairs(s[..k]);
      if s[k] in s[..k] {
        var j :| 0 <= j < k && s[j] == s[k];
        PairOrderIsStrict(s[j], s[k]);
      }
      assert s == s[..k] + [s[k]];
      assert (set x | x in s) == (set x | x in s[..k]) + {s[k]};
    }
  }

  lemma OrderSizes(st: State, now: int, o: Order)
    requires ValidOrder(st, now, o) && InKeyOrder(o)
    ensures |o.jtis| == |LiveTokens(st.replays, now)| && |o.pairs| == |Grants(st)|
  {
    DistinctStrings(o.jtis);
    DistinctPairs(o.pairs);
    assert (set x | x in o.jtis) == LiveTokens(st.replays, now);
    forall p ensures p in o.pairs <==> p in Grants(st) {
      assert p == (p.0, p.1);
    }
    assert (set x | x in o.pairs) == Grants(st);
  }

  /** A compacted file begins with its only header and ends with its only mark; in between
      each live token, charge and challenge and each grant stands once, and nothing that has
      run out or been revoked. */
  lemma CompactionLeavesTheLive(st: State, gw: string, now: int, o: Order)
    requires WellFormed(st, gw) && ValidOrder(st, now, o) && InKeyOrder(o)
    ensures var recs := CompactRecords(st, gw, now, o);
            && |recs| == 2 + |LiveTokens(st.replays, now)| + |LiveCharges(st.budgets, now)|
                         + |LiveChallenges(st.challenges, now)| + |Grants(st)|
            && recs[0].kind == Header && recs[0].value == st.ledgerId
            && recs[|recs| - 1].kind == AuditHwm && recs[|recs| - 1].auditSeq == st.hwmSeq && recs[|recs| - 1].auditHash == st.hwmHash
            && forall i :: 0 < i < |recs| - 1 ==> IsLive(st, recs[i], now)
  {
    hide Increasing, PairsIncrease, KeptBudgets, KeptChallenges, IsLive, Granted;
    OrderSizes(st, now, o);
    KeptBudgetsSize(st.budgets, now);
    KeptChallengesSize(st.challenges, now);
    var a, b := ReplayRecords(st, o.jtis), BudgetRecords(st.ledgerId, gw, KeptBudgets(st.budgets, now));
    var c, d := ChallengeRecords(st.ledgerId, gw, KeptChallenges(st.challenges, now)), PairRecords(st, gw, o.pairs, now);
    TokensLive(st, now, o);
    CountsLive(st, gw, now);
    GrantsLive(st, gw, now, o);
    assert AllLive(st, a + b + c + d, now);
    Between(st, gw, now, o, a + b + c + d);
  }

  predicate AllLive(st: State, recs: seq<StateRecord>, now: int) {
    forall i | 0 <= i < |recs| :: IsLive(st, recs[i], now)
  }

  lemma TokensLive(st: State, now: int, o: Order)
    requires ValidOrder(st, now, o) && forall j :: j in st.replays ==> st.replays[j].key == j && st.replays[j].kind == Replay
    ensures AllLive(st, ReplayRecords(st, o.jtis), now)
  {
    forall i | 0 <= i < |o.jtis| ensures IsLive(st, st.replays[o.jtis[i]], now) {
      assert o.jtis[i] in o.jtis;
    }
  }

  lemma CountsLive(st: State, gw: string, now: int)
    ensures AllLive(st, BudgetRecords(st.ledgerId, gw, KeptBudgets(st.budgets, now)), now)
    ensures AllLive(st, ChallengeRecords(st.ledgerId, gw, KeptChallenges(st.challenges, now)), now)
  {
    hide KeptBudgets, KeptChallenges;
    KeptBudgetsSize(st.budgets, now);
    KeptChallengesSize(st.challenges, now);
    var b, c := KeptBudgets(st.budgets, now), KeptChallenges(st.challenges, now);
    forall i | 0 <= i < |b| ensures IsLive(st, BudgetRecord(st.ledgerId, gw, b[i]), now) {
      assert b[i] in b;
    }
    forall i | 0 <= i < |c| ensures IsLive(st, ChallengeRecord(st.ledgerId, gw, c[i]), now) {
      assert c[i] in c;
    }
  }

  lemma GrantsLive(st: State, gw: string, now: int, o: Order)
    requires ValidOrder(st, now, o)
    ensures AllLive(st, PairRecords(st, gw, o.pairs, now), now)
  {
    forall i | 0 <= i < |o.pairs| ensures Granted(st, o.pairs[i].0, o.pairs[i].1) {
      assert o.pairs[i] == (o.pairs[i].0, o.pairs[i].1) && o.pairs[i] in o.pairs;
    }
  }

  lemma Between(st: State, gw: string, now: int, o: Order, mid: seq<StateRecord>)
    requires ValidOrder(st, now, o)
    requires mid == ReplayRecords(st, o.jtis) + BudgetRecords(st.ledgerId, gw, KeptBudgets(st.budgets, now))
                    + ChallengeRecords(st.ledgerId, gw, KeptChallenges(st.challenges, now)) + PairRecords(st, gw, o.pairs, now)
    ensures CompactRecords(st, gw, now, o)
         == [HeaderRecord(st.ledgerId, gw, now)] + mid + [HwmRecord(st.ledgerId, gw, st.hwmSeq, st.hwmHash, now)]
  {
    hide ReplayRecords, BudgetRecords, ChallengeRecords, PairRecords, ValidOrder;
  }

  /** A token, charge or challenge of st that has not run out, or a grant of st. */
  predicate IsLive(st: State, r: StateRecord, now: int) {
    match r.kind
    case Replay => r.key in st.replays && r == st.replays[r.key] && now < r.expiresAt
    case Budget => BudgetEntry(r.key, r.count, r.issuedAt, r.expiresAt) in st.budgets && now < r.expiresAt
    case Challenge => ChallengeEntry(r.key, r.issuedAt, r.expiresAt) in st.challenges && now < r.expiresAt
    case Grant => Granted(st, r.key, r.subKey)
    case _ => false
  }
}
