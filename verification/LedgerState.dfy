/** The records of state.db and the state they replay to (internal/authz/statedb.go). */
module LedgerState {
  datatype Kind = Header | AuditHwm | Replay | Budget | Challenge | Grant | GrantRevoke | Unknown(name: string)

  /** StateDBRecordV1, after its version and checksum have been verified. */
  datatype StateRecord = StateRecord(
    ledgerId: string, kind: Kind, gatewayId: string, key: string, subKey: string, value: string,
    count: int, auditSeq: nat, auditHash: string, issuedAt: int, expiresAt: int)

  datatype BudgetEntry = BudgetEntry(principal: string, count: int, issuedAt: int, expiresAt: int)

  datatype ChallengeEntry = ChallengeEntry(principal: string, issuedAt: int, expiresAt: int)

  /** parsedLedgerState */
  datatype State = State(
    ledgerId: string, gatewayId: string, hwmSeq: nat, hwmHash: string,
    replays: map<string, StateRecord>,
    budgets: seq<BudgetEntry>,
    challenges: seq<ChallengeEntry>,
    grants: map<string, set<string>>,
    origins: map<string, map<string, int>>)

  /** newParsedLedgerState */
  const EMPTY := State("", "", 0, "", map[], [], [], map[], map[])

  datatype Error =
    | Unavailable(why: string)
    | Uninitialized
    | AuditCorrupted
    | PayloadTooLarge
    | CorruptLine

  datatype Result<T> = Ok(value: T) | Err(error: Error)

  predicate IsHexChar(c: char) { '0' <= c <= '9' || 'a' <= c <= 'f' }

  /** ledgerIDHexRegex */
  predicate IsLedgerId(s: string) {
    |s| == 32 && forall k | 0 <= k < |s| :: IsHexChar(s[k])
  }

  predicate IsGenesisHeader(rec: StateRecord) {
    rec.kind == Header && rec.key == "ledger_id" && IsLedgerId(rec.value) && rec.ledgerId == rec.value
  }

  function AddGrant(st: State, subject: string, ent: string, iat: int): State {
    var known := subject in st.grants;
    var ents := if known then st.grants[subject] else {};
    var iats := if known && subject in st.origins then st.origins[subject] else map[];
    st.(grants := st.grants[subject := ents + {ent}], origins := st.origins[subject := iats[ent := iat]])
  }

  function RemoveGrant(st: State, subject: string, ent: string): State {
    if subject in st.grants then
      st.(grants := st.grants[subject := st.grants[subject] - {ent}],
          origins := if subject in st.origins then st.origins[subject := st.origins[subject] - {ent}] else st.origins)
    else st
  }

  /** The checks on a record that precede the switch on its kind. */
  function Admit(st: State, rec: StateRecord, gw: string, isFirst: bool): Result<State> {
    if rec.gatewayId != gw then Err(Unavailable("gateway_id"))
    else if isFirst then
      if IsGenesisHeader(rec) then Ok(st.(ledgerId := rec.ledgerId, gatewayId := rec.gatewayId))
      else Err(Unavailable("genesis header"))
    else if st.ledgerId == "" || rec.ledgerId != st.ledgerId then Err(Unavailable("ledger_id"))
    else Ok(st)
  }

  /** The switch on the kind of an admitted record. */
  function Absorb(st: State, rec: StateRecord): Result<State> {
    match rec.kind
    case Header =>
      if st.ledgerId != "" && rec.ledgerId != st.ledgerId then Err(Unavailable("conflicting header")) else Ok(st)
    case AuditHwm =>
      if rec.auditSeq < st.hwmSeq then Err(AuditCorrupted)
      else Ok(st.(hwmSeq := rec.auditSeq, hwmHash := rec.auditHash))
    case Replay => Ok(st.(replays := st.replays[rec.key := rec]))
    case Budget => Ok(st.(budgets := st.budgets + [BudgetEntry(rec.key, rec.count, rec.issuedAt, rec.expiresAt)]))
    case Challenge => Ok(st.(challenges := st.challenges + [ChallengeEntry(rec.key, rec.issuedAt, rec.expiresAt)]))
    case Grant => Ok(AddGrant(st, rec.key, rec.subKey, rec.issuedAt))
    case GrantRevoke => Ok(RemoveGrant(st, rec.key, rec.subKey))
    case Unknown(_) => Err(Unavailable("unknown kind"))
  }

  function Step(st: State, rec: StateRecord, gw: string, isFirst: bool): Result<State> {
    match Admit(st, rec, gw, isFirst)
    case Err(e) => Err(e)
    case Ok(st') => Absorb(st', rec)
  }

  function Fold(st: State, recs: seq<StateRecord>, gw: string, isFirst: bool): Result<State>
    decreases |recs|
  {
    if recs == [] then Ok(st)
    else
      match Step(st, recs[0], gw, isFirst)
      case Err(e) => Err(e)
      case Ok(st') => Fold(st', recs[1..], gw, false)
  }

  /** The final check: a usable ledger has an id and a high-water mark. */
  predicate Complete(st: State) {
    st.ledgerId != "" && st.hwmSeq != 0 && |st.hwmHash| == 64
  }

  function Finish(r: Result<State>): Result<State> {
    if r.Ok? && !Complete(r.value) then Err(Uninitialized) else r
  }

  /** applyStateRecordsBytes, on records that have been parsed. */
  function Apply(st: State, recs: seq<StateRecord>, gw: string, requireHeader: bool): Result<State> {
    if recs == [] then (if requireHeader then Err(Uninitialized) else Ok(st))
    else Finish(Fold(st, recs, gw, requireHeader))
  }

  /** A full replay of a file. */
  function ReplayAll(recs: seq<StateRecord>, gw: string): Result<State> {
    Apply(EMPTY, recs, gw, true)
  }

  // ----- replay in two parts -----

  lemma {:induction false} FoldConcat(st: State, a: seq<StateRecord>, b: seq<StateRecord>, gw: string, isFirst: bool)
    ensures Fold(st, a + b, gw, isFirst)
         == match Fold(st, a, gw, isFirst)
            case Err(e) => Err(e)
            case Ok(st') => Fold(st', b, gw, isFirst && a == [])
    decreases |a|
  {
    if a == [] {
      assert a + b == b;
    } else {
      assert (a + b)[0] == a[0] && (a + b)[1..] == a[1..] + b;
      var r := Step(st, a[0], gw, isFirst);
      if r.Ok? {
        FoldConcat(r.value, a[1..], b, gw, false);
      }
    }
  }

  /** The law behind the cache: once a prefix replays, replaying the whole file
      and applying the rest as a delta give the same result, errors included. */
  lemma DeltaReplay(d1: seq<StateRecord>, d2: seq<StateRecord>, gw: string)
    requires ReplayAll(d1, gw).Ok?
    ensures ReplayAll(d1 + d2, gw) == Apply(ReplayAll(d1, gw).value, d2, gw, false)
  {
    FoldConcat(EMPTY, d1, d2, gw, true);
    if d2 == [] {
      assert d1 + d2 == d1;
    }
  }

  // ----- states that mean the same -----

  predicate Granted(st: State, subject: string, ent: string) {
    subject in st.grants && ent in st.grants[subject]
  }

  /** Equal but for the grants. */
  ghost predicate ExceptGrants(a: State, b: State) {
    a.(grants := b.grants, origins := b.origins) == b
  }

  /** Equal but for subjects with an empty grant set and the grants' time stamps. */
  ghost predicate SameMeaning(a: State, b: State) {
    ExceptGrants(a, b) && forall s, e :: Granted(a, s, e) <==> Granted(b, s, e)
  }

  ghost predicate SameResult(a: Result<State>, b: Result<State>) {
    if a.Ok? && b.Ok? then SameMeaning(a.value, b.value) else a == b
  }

  lemma GrantEffect(st: State, subject: string, ent: string, iat: int)
    ensures forall s, e :: Granted(AddGrant(st, subject, ent, iat), s, e) <==>
                             Granted(st, s, e) || (s == subject && e == ent)
    ensures forall s, e :: Granted(RemoveGrant(st, subject, ent), s, e) <==>
                             Granted(st, s, e) && !(s == subject && e == ent)
  {
  }

  lemma StepSameMeaning(a: State, b: State, rec: StateRecord, gw: string, isFirst: bool)
    requires SameMeaning(a, b)
    ensures SameResult(Step(a, rec, gw, isFirst), Step(b, rec, gw, isFirst))
  {
    var x, y := Admit(a, rec, gw, isFirst), Admit(b, rec, gw, isFirst);
    if x.Ok? {
      assert SameMeaning(x.value, y.value) by {
        assert x.value.grants == a.grants && y.value.grants == b.grants;
        assert forall s, e :: Granted(x.value, s, e) <==> Granted(a, s, e);
        assert forall s, e :: Granted(y.value, s, e) <==> Granted(b, s, e);
      }
      AbsorbSameMeaning(x.value, y.value, rec);
    }
  }

  lemma AbsorbSameMeaning(a: State, b: State, rec: StateRecord)
    requires SameMeaning(a, b)
    ensures SameResult(Absorb(a, rec), Absorb(b, rec))
  {
    hide AddGrant, RemoveGrant;
    var x, y := Absorb(a, rec), Absorb(b, rec);
    if rec.kind == Grant || rec.kind == GrantRevoke {
      GrantEffect(a, rec.key, rec.subKey, rec.issuedAt);
      GrantEffect(b, rec.key, rec.subKey, rec.issuedAt);
      AddGrantKeepsRest(a, rec);
      AddGrantKeepsRest(b, rec);
    } else if x.Ok? {
      assert x.value.grants == a.grants && y.value.grants == b.grants;
      assert forall s, e :: Granted(x.value, s, e) <==> Granted(a, s, e);
      assert forall s, e :: Granted(y.value, s, e) <==> Granted(b, s, e);
    }
  }

  lemma AddGrantKeepsRest(st: State, rec: StateRecord)
    ensures AddGrant(st, rec.key, rec.subKey, rec.issuedAt).(grants := st.grants, origins := st.origins) == st
    ensures RemoveGrant(st, rec.key, rec.subKey).(grants := st.grants, origins := st.origins) == st
  {
  }

  lemma {:induction false} FoldSameMeaning(a: State, b: State, recs: seq<StateRecord>, gw: string, isFirst: bool)
    requires SameMeaning(a, b)
    ensures SameResult(Fold(a, recs, gw, isFirst), Fold(b, recs, gw, isFirst))
    decreases |recs|
  {
    if recs != [] {
      StepSameMeaning(a, b, recs[0], gw, isFirst);
      var x, y := Step(a, recs[0], gw, isFirst), Step(b, recs[0], gw, isFirst);
      if x.Ok? {
        FoldSameMeaning(x.value, y.value, recs[1..], gw, false);
      }
    }
  }

  /** Replaying a delta on states that mean the same gives states that mean the same. */
  lemma ApplySameMeaning(a: State, b: State, recs: seq<StateRecord>, gw: string)
    requires SameMeaning(a, b)
    ensures SameResult(Apply(a, recs, gw, false), Apply(b, recs, gw, false))
  {
    FoldSameMeaning(a, b, recs, gw, false);
  }
}
