/** What a state.db says: which files replay, and to what, record by record (internal/authz/statedb.go). */
module LedgerReplay {
  import opened LedgerState
  import opened LedgerOps

  // ----- which files replay -----

  predicate IsMark(rec: StateRecord) {
    rec.kind == AuditHwm
  }

  /** The position of the last high-water mark, or -1. */
  function LastMark(recs: seq<StateRecord>): (i: int)
    ensures -1 <= i < |recs| && (i >= 0 ==> IsMark(recs[i])) && forall k | i < k < |recs| :: !IsMark(recs[k])
  {
    if recs == [] then -1
    else if IsMark(recs[|recs| - 1]) then |recs| - 1
    else LastMark(recs[..|recs| - 1])
  }

  /** The marks never fall. */
  predicate MarksGrow(recs: seq<StateRecord>) {
    forall i, k | 0 <= i < k < |recs| && IsMark(recs[i]) && IsMark(recs[k]) :: recs[i].auditSeq <= recs[k].auditSeq
  }

  /** A header first, and after it only records of a known kind of the same ledger and gateway. */
  predicate OneLedger(recs: seq<StateRecord>, gw: string) {
    && recs != [] && recs[0].kind == Header && recs[0].key == "ledger_id" && recs[0].value == recs[0].ledgerId
    && |recs[0].ledgerId| == 32 && (forall k | 0 <= k < 32 :: '0' <= recs[0].ledgerId[k] <= '9' || 'a' <= recs[0].ledgerId[k] <= 'f')
    && forall i | 0 <= i < |recs| ::
         recs[i].gatewayId == gw && recs[i].ledgerId == recs[0].ledgerId && !recs[i].kind.Unknown?
  }

  // ----- what they say -----

  function BudgetsOf(recs: seq<StateRecord>): seq<BudgetEntry> {
    if recs == [] then []
    else
      var r := recs[|recs| - 1];
      BudgetsOf(recs[..|recs| - 1])
      + (if r.kind == Budget then [BudgetEntry(r.key, r.count, r.issuedAt, r.expiresAt)] else [])
  }

  function ChallengesOf(recs: seq<StateRecord>): seq<ChallengeEntry> {
    if recs == [] then []
    else
      var r := recs[|recs| - 1];
      ChallengesOf(recs[..|recs| - 1]) + (if r.kind == Challenge then [ChallengeEntry(r.key, r.issuedAt, r.expiresAt)] else [])
  }

  predicate IsTokenRecord(r: StateRecord, jti: string) {
    r.kind == Replay && r.key == jti
  }

  /** Record i is the last one for the token. */
  predicate LastToken(recs: seq<StateRecord>, i: int, jti: string) {
    0 <= i < |recs| && IsTokenRecord(recs[i], jti) && forall k | i < k < |recs| :: !IsTokenRecord(recs[k], jti)
  }

  predicate IsPair(r: StateRecord, kind: Kind, s: string, e: string) {
    r.kind == kind && r.key == s && r.subKey == e
  }

  /** Record i grants e to s, and no later one revokes it. */
  predicate GrantStands(recs: seq<StateRecord>, i: int, s: string, e: string) {
    0 <= i < |recs| && IsPair(recs[i], Grant, s, e) && forall k | i < k < |recs| :: !IsPair(recs[k], GrantRevoke, s, e)
  }

  ghost predicate TokensAre(st: State, recs: seq<StateRecord>) {
    && (forall i, j :: LastToken(recs, i, j) ==> j in st.replays && st.replays[j] == recs[i])
    && forall j | j in st.replays :: exists i :: LastToken(recs, i, j)
  }

  ghost predicate GrantsStand(st: State, recs: seq<StateRecord>) {
    forall s, e :: Granted(st, s, e) <==> exists i :: GrantStands(recs, i, s, e)
  }

  /** Record i grants e to s, and no later record grants or revokes it. */
  predicate LastGrant(recs: seq<StateRecord>, i: int, s: string, e: string) {
    && 0 <= i < |recs| && IsPair(recs[i], Grant, s, e)
    && forall k | i < k < |recs| :: !IsPair(recs[k], GrantRevoke, s, e) && !IsPair(recs[k], Grant, s, e)
  }

  /** A standing grant keeps the time stamp of its last record. */
  ghost predicate StampsAre(st: State, recs: seq<StateRecord>) {
    forall i, s, e :: LastGrant(recs, i, s, e) ==> Granted(st, s, e) && StampIs(st, s, e, recs[i].issuedAt)
  }

  predicate StampIs(st: State, s: string, e: string, iat: int) {
    s in st.origins && e in st.origins[s] && st.origins[s][e] == iat
  }

  predicate MarkIs(st: State, recs: seq<StateRecord>) {
    var i := LastMark(recs);
    if i < 0 then st.hwmSeq == 0 && st.hwmHash == "" else st.hwmSeq == recs[i].auditSeq && st.hwmHash == recs[i].auditHash
  }

  /** The state says what the records say: the charges and challenges in order, the last record of
      each token, the grants that no later record revokes with their last stamps, and the last mark. */
  ghost predicate Says(st: State, recs: seq<StateRecord>, gw: string) {
    && recs != [] && st.ledgerId == recs[0].ledgerId && st.gatewayId == gw
    && st.budgets == BudgetsOf(recs) && st.challenges == ChallengesOf(recs)
    && TokensAre(st, recs) && GrantsStand(st, recs) && StampsAre(st, recs) && MarkIs(st, recs)
  }

  // ----- one more record -----

  lemma MarkSnoc(st: State, recs: seq<StateRecord>, r: StateRecord)
    requires MarksGrow(recs) && MarkIs(st, recs)
    ensures MarksGrow(recs + [r]) <==> (IsMark(r) ==> st.hwmSeq <= r.auditSeq)
    ensures LastMark(recs + [r]) == if IsMark(r) then |recs| else LastMark(recs)
  {
    var more := recs + [r];
    assert more[..|recs|] == recs && more[|recs|] == r;
    var i := LastMark(recs);
    if IsMark(r) && i >= 0 {
      assert more[i] == recs[i];
      forall k | 0 <= k < |recs| && IsMark(recs[k]) ensures recs[k].auditSeq <= recs[i].auditSeq {
      }
      assert MarksGrow(more) ==> recs[i].auditSeq <= r.auditSeq;
    }
    forall k, l | 0 <= k < l < |recs| && IsMark(more[k]) && IsMark(more[l]) ensures more[k].auditSeq <= more[l].auditSeq {
      assert more[k] == recs[k] && more[l] == recs[l];
    }
    assert forall k | 0 <= k < |recs| :: more[k] == recs[k];
  }

  lemma TokenSnoc(st: State, st': State, recs: seq<StateRecord>, r: StateRecord)
    requires TokensAre(st, recs)
    requires st'.replays == if r.kind == Replay then st.replays[r.key := r] else st.replays
    ensures TokensAre(st', recs + [r])
  {
    var more := recs + [r];
    assert more[|recs|] == r && forall k | 0 <= k < |recs| :: more[k] == recs[k];
    forall i, j | LastToken(more, i, j) ensures j in st'.replays && st'.replays[j] == more[i] {
      if i < |recs| {
        assert !IsTokenRecord(more[|recs|], j);
        assert LastToken(recs, i, j);
      }
    }
    forall j | j in st'.replays ensures exists i :: LastToken(more, i, j) {
      if IsTokenRecord(r, j) {
        assert LastToken(more, |recs|, j);
      } else {
        var i :| LastToken(recs, i, j);
        assert LastToken(more, i, j);
      }
    }
  }

  lemma GrantSnoc(st: State, st': State, recs: seq<StateRecord>, r: StateRecord)
    requires GrantsStand(st, recs)
    requires forall s, e :: Granted(st', s, e) <==> (Granted(st, s, e) && !IsPair(r, GrantRevoke, s, e)) || IsPair(r, Grant, s, e)
    ensures GrantsStand(st', recs + [r])
  {
    var more := recs + [r];
    assert more[|recs|] == r && forall k | 0 <= k < |recs| :: more[k] == recs[k];
    forall s, e ensures Granted(st', s, e) <==> exists i :: GrantStands(more, i, s, e) {
      if Granted(st', s, e) {
        if IsPair(r, Grant, s, e) {
          assert GrantStands(more, |recs|, s, e);
        } else {
          var i :| GrantStands(recs, i, s, e);
          assert GrantStands(more, i, s, e);
        }
      }
      if i :| GrantStands(more, i, s, e) {
        if i < |recs| {
          assert !IsPair(more[|recs|], GrantRevoke, s, e);
          assert GrantStands(recs, i, s, e);
        }
      }
    }
  }

  lemma StampSnoc(st: State, st': State, recs: seq<StateRecord>, r: StateRecord)
    requires StampsAre(st, recs) && Absorb(st, r) == Ok(st')
    ensures StampsAre(st', recs + [r])
  {
    var more := recs + [r];
    assert more[|recs|] == r && forall k | 0 <= k < |recs| :: more[k] == recs[k];
    forall i, s, e | LastGrant(more, i, s, e) ensures Granted(st', s, e) && StampIs(st', s, e, more[i].issuedAt) {
      if i < |recs| {
        assert !IsPair(more[|recs|], GrantRevoke, s, e) && !IsPair(more[|recs|], Grant, s, e);
        assert LastGrant(recs, i, s, e);
        StampStays(st, st', r, s, e, recs[i].issuedAt);
      } else {
        NewStamp(st, st', r);
      }
    }
  }

  lemma StampStays(st: State, st': State, r: StateRecord, s: string, e: string, iat: int)
    requires Granted(st, s, e) && StampIs(st, s, e, iat) && Absorb(st, r) == Ok(st')
    requires !IsPair(r, GrantRevoke, s, e) && !IsPair(r, Grant, s, e)
    ensures Granted(st', s, e) && StampIs(st', s, e, iat)
  {
  }

  lemma NewStamp(st: State, st': State, r: StateRecord)
    requires r.kind == Grant && Absorb(st, r) == Ok(st')
    ensures Granted(st', r.key, r.subKey) && StampIs(st', r.key, r.subKey, r.issuedAt)
  {
  }

  lemma ListSnoc(recs: seq<StateRecord>, r: StateRecord)
    ensures BudgetsOf(recs + [r])
         == BudgetsOf(recs) + if r.kind == Budget then [BudgetEntry(r.key, r.count, r.issuedAt, r.expiresAt)] else []
    ensures ChallengesOf(recs + [r])
         == ChallengesOf(recs) + if r.kind == Challenge then [ChallengeEntry(r.key, r.issuedAt, r.expiresAt)] else []
  {
    assert (recs + [r])[..|recs|] == recs;
  }

  /** What one admitted record does. */
  lemma AbsorbIs(st: State, r: StateRecord)
    requires st.ledgerId != "" && r.ledgerId == st.ledgerId
    ensures Absorb(st, r).Ok? <==> !r.kind.Unknown? && (IsMark(r) ==> st.hwmSeq <= r.auditSeq)
    ensures Absorb(st, r).Ok? ==>
              var st' := Absorb(st, r).value;
              && st'.ledgerId == st.ledgerId && st'.gatewayId == st.gatewayId
              && st'.budgets == st.budgets + (if r.kind == Budget then [BudgetEntry(r.key, r.count, r.issuedAt, r.expiresAt)] else [])
              && st'.challenges == st.challenges + (if r.kind == Challenge then [ChallengeEntry(r.key, r.issuedAt, r.expiresAt)] else [])
              && st'.replays == (if r.kind == Replay then st.replays[r.key := r] else st.replays)
              && (st'.hwmSeq, st'.hwmHash) == (if IsMark(r) then (r.auditSeq, r.auditHash) else (st.hwmSeq, st.hwmHash))
              && forall s, e :: Granted(st', s, e) <==> (Granted(st, s, e) && !IsPair(r, GrantRevoke, s, e)) || IsPair(r, Grant, s, e)
  {
    hide AddGrant, RemoveGrant;
    GrantEffect(st, r.key, r.subKey, r.issuedAt);
    AddGrantKeepsRest(st, r);
    assert st.budgets + [] == st.budgets && st.challenges + [] == st.challenges;
    if r.kind != Grant && r.kind != GrantRevoke && Absorb(st, r).Ok? {
      SameGrantsHold(st, Absorb(st, r).value);
    }
  }

  lemma SameGrantsHold(a: State, b: State)
    requires a.grants == b.grants
    ensures forall s, e :: Granted(a, s, e) <==> Granted(b, s, e)
  {
  }

  lemma SaysSnoc(st: State, st': State, recs: seq<StateRecord>, r: StateRecord, gw: string)
    requires Says(st, recs, gw) && MarksGrow(recs) && st.ledgerId != "" && r.ledgerId == st.ledgerId && Absorb(st, r) == Ok(st')
    ensures Says(st', recs + [r], gw)
  {
    hide Absorb, TokensAre, GrantsStand, StampsAre, MarksGrow, Granted, LastMark;
    StampSnoc(st, st', recs, r);
    AbsorbIs(st, r);
    MarkSnoc(st, recs, r);
    TokenSnoc(st, st', recs, r);
    GrantSnoc(st, st', recs, r);
    ListSnoc(recs, r);
    assert (recs + [r])[0] == recs[0];
  }

  // ----- the whole file -----

  /** A file whose records may all be folded. */
  predicate Admissible(recs: seq<StateRecord>, gw: string) {
    OneLedger(recs, gw) && MarksGrow(recs)
  }

  lemma FirstRecord(recs: seq<StateRecord>, gw: string)
    requires |recs| == 1
    ensures Fold(EMPTY, recs, gw, true).Ok? <==> Admissible(recs, gw)
    ensures Fold(EMPTY, recs, gw, true).Ok? ==> Says(Fold(EMPTY, recs, gw, true).value, recs, gw)
  {
    assert recs[1..] == [] && recs[..0] == [];
    if Fold(EMPTY, recs, gw, true).Ok? {
      var st := Fold(EMPTY, recs, gw, true).value;
      assert forall s, e, i :: !GrantStands(recs, i, s, e);
      assert forall i, j :: !LastToken(recs, i, j);
      assert forall i, s, e :: !LastGrant(recs, i, s, e);
    }
  }

  lemma OneLedgerSnoc(recs: seq<StateRecord>, r: StateRecord, gw: string)
    requires recs != []
    ensures OneLedger(recs + [r], gw) <==>
            OneLedger(recs, gw) && r.gatewayId == gw && r.ledgerId == recs[0].ledgerId && !r.kind.Unknown?
  {
    var more := recs + [r];
    assert more[0] == recs[0] && more[|recs|] == r && forall i | 0 <= i < |recs| :: more[i] == recs[i];
  }

  lemma MarksInit(recs: seq<StateRecord>, r: StateRecord)
    requires MarksGrow(recs + [r])
    ensures MarksGrow(recs)
  {
    assert forall i | 0 <= i < |recs| :: (recs + [r])[i] == recs[i];
  }

  lemma {:induction false} FoldSays(recs: seq<StateRecord>, gw: string)
    requires recs != []
    ensures Fold(EMPTY, recs, gw, true).Ok? <==> Admissible(recs, gw)
    ensures Fold(EMPTY, recs, gw, true).Ok? ==> Says(Fold(EMPTY, recs, gw, true).value, recs, gw)
    decreases |recs|
  {
    if |recs| == 1 {
      FirstRecord(recs, gw);
    } else {
      hide Fold, Absorb, Says, OneLedger, MarksGrow;
      var init, r := recs[..|recs| - 1], recs[|recs| - 1];
      assert recs == init + [r];
      FoldSays(init, gw);
      FoldConcat(EMPTY, init, [r], gw, true);
      OneLedgerSnoc(init, r, gw);
      if Admissible(init, gw) {
        LastFold(init, r, gw);
      } else if Admissible(recs, gw) {
        MarksInit(init, r);
      }
    }
  }

  lemma LastFold(init: seq<StateRecord>, r: StateRecord, gw: string)
    requires init != [] && Admissible(init, gw) && Fold(EMPTY, init, gw, true).Ok?
    requires Says(Fold(EMPTY, init, gw, true).value, init, gw)
    ensures var st := Fold(EMPTY, init, gw, true).value;
            && (Fold(st, [r], gw, false).Ok? <==> Admissible(init + [r], gw))
            && (Fold(st, [r], gw, false).Ok? ==> Says(Fold(st, [r], gw, false).value, init + [r], gw))
  {
    var st := Fold(EMPTY, init, gw, true).value;
    OneFold(st, r, gw);
    OneLedgerSnoc(init, r, gw);
    IdNotEmpty(init, gw);
    hide Fold, Absorb, OneLedger, MarksGrow, TokensAre, GrantsStand, StampsAre, LastMark;
    MarkSnoc(st, init, r);
    if r.ledgerId == st.ledgerId {
      AbsorbIs(st, r);
      if Absorb(st, r).Ok? {
        SaysSnoc(st, Absorb(st, r).value, init, r, gw);
      }
    }
  }

  lemma OneFold(st: State, r: StateRecord, gw: string)
    ensures Fold(st, [r], gw, false).Ok? <==>
            r.gatewayId == gw && st.ledgerId != "" && r.ledgerId == st.ledgerId && Absorb(st, r).Ok?
    ensures Fold(st, [r], gw, false).Ok? ==> Fold(st, [r], gw, false) == Absorb(st, r)
  {
    hide Absorb;
    assert [r][1..] == [];
  }

  lemma IdNotEmpty(recs: seq<StateRecord>, gw: string)
    requires OneLedger(recs, gw)
    ensures recs[0].ledgerId != ""
  {
  }

  /** Main result: state.db replays exactly when it starts with a header of a 32-digit ledger id, holds
      only known records of that ledger and gateway, its marks never fall, and the last one has a
      number and a 64-character hash. */
  lemma ReplaysIff(recs: seq<StateRecord>, gw: string)
    ensures ReplayAll(recs, gw).Ok? <==>
            && OneLedger(recs, gw) && MarksGrow(recs)
            && LastMark(recs) >= 0 && recs[LastMark(recs)].auditSeq != 0 && |recs[LastMark(recs)].auditHash| == 64
  {
    hide Fold, LastMark, MarksGrow, TokensAre, GrantsStand, StampsAre;
    if recs != [] {
      FoldSays(recs, gw);
      if OneLedger(recs, gw) {
        IdNotEmpty(recs, gw);
      }
    }
  }

  /** Main result: and then it says what its records say. */
  lemma ReplaySays(recs: seq<StateRecord>, gw: string)
    requires ReplayAll(recs, gw).Ok?
    ensures Says(ReplayAll(recs, gw).value, recs, gw)
  {
    hide Fold, Says;
    FoldSays(recs, gw);
  }
}
