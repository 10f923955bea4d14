/** What the lines and digests are made of, member by member (StateRecordV1 in
    internal/authz/statedb.go, AuditRecordV1 in internal/authz/audit.go and
    IntentPayloadV1 in internal/authz/stepup.go). */
module LineMembers {
  import opened Json
  import T = JsonRoundTrip
  import R = JsonRecord
  import S = StateLine
  import L = LedgerState
  import A = AuditLine
  import C = AuditChain
  import U = StepUp

  predicate Is(fields: map<string, Value>, name: string, v: Value) {
    name in fields && fields[name] == v
  }

  /** A string member that is left out when empty. */
  predicate IsOptional(fields: map<string, Value>, name: string, s: string) {
    if s == "" then name !in fields else Is(fields, name, Str(s))
  }

  predicate IsCount(fields: map<string, Value>, name: string, n: int) {
    if n == 0 then name !in fields else Is(fields, name, Num(n))
  }

  /** The member at place i of a record's object. */
  lemma MemberAt(names: seq<string>, vals: seq<R.Option<Value>>, i: nat)
    requires |names| == |vals| && T.Distinct(names) && i < |names|
    ensures var f := R.Fields(names, vals);
            if vals[i].Some? then Is(f, names[i], vals[i].value) else names[i] !in f
  {
    hide R.Fields;
    R.FieldsAt(names, vals, i);
  }

  lemma OptStrAt(names: seq<string>, vals: seq<R.Option<Value>>, i: nat, s: string)
    requires |names| == |vals| && T.Distinct(names) && i < |names| && vals[i] == R.OptStr(s)
    ensures IsOptional(R.Fields(names, vals), names[i], s)
  {
    hide R.Fields;
    MemberAt(names, vals, i);
  }

  lemma OptNumAt(names: seq<string>, vals: seq<R.Option<Value>>, i: nat, n: int)
    requires |names| == |vals| && T.Distinct(names) && i < |names| && vals[i] == R.OptNum(n)
    ensures IsCount(R.Fields(names, vals), names[i], n)
  {
    hide R.Fields;
    MemberAt(names, vals, i);
  }

  lemma ValueAt(names: seq<string>, vals: seq<R.Option<Value>>, i: nat, v: Value)
    requires |names| == |vals| && T.Distinct(names) && i < |names| && vals[i] == R.Some(v)
    ensures Is(R.Fields(names, vals), names[i], v)
  {
    hide R.Fields;
    MemberAt(names, vals, i);
  }

  /** A line of state.db: its members, and no others. */
  lemma StateLineMembers(r: L.StateRecord, sum: string)
    ensures var f := S.RecordFields(r, sum);
            && Is(f, "ver", Str("mcp-authz-state/v1")) && Is(f, "ledger_id", Str(r.ledgerId))
            && Is(f, "kind", Str(S.KindName(r.kind))) && Is(f, "gateway_id", Str(r.gatewayId)) && Is(f, "key", Str(r.key))
            && IsOptional(f, "sub_key", r.subKey) && IsOptional(f, "value", r.value)
            && IsCount(f, "count", r.count) && IsCount(f, "audit_seq", r.auditSeq)
            && IsOptional(f, "audit_hash", r.auditHash)
            && Is(f, "iat", Num(r.issuedAt)) && Is(f, "exp", Num(r.expiresAt)) && IsOptional(f, "crc32c", sum)
            && forall n :: n in f ==> n in S.NAMES
  {
    hide R.Fields, R.OptStr, R.OptNum, Is, IsOptional, IsCount, T.Distinct, S.KindName;
    var vals := S.RecordValues(r, sum);
    S.NamesDistinct();
    R.FieldsKeys(S.NAMES, vals);
    ValueAt(S.NAMES, vals, 0, Str("mcp-authz-state/v1"));
    ValueAt(S.NAMES, vals, 1, Str(r.ledgerId));
    ValueAt(S.NAMES, vals, 2, Str(S.KindName(r.kind)));
    ValueAt(S.NAMES, vals, 3, Str(r.gatewayId));
    ValueAt(S.NAMES, vals, 4, Str(r.key));
    OptStrAt(S.NAMES, vals, 5, r.subKey);
    OptStrAt(S.NAMES, vals, 6, r.value);
    OptNumAt(S.NAMES, vals, 7, r.count);
    OptNumAt(S.NAMES, vals, 8, r.auditSeq);
    OptStrAt(S.NAMES, vals, 9, r.auditHash);
    ValueAt(S.NAMES, vals, 10, Num(r.issuedAt));
    ValueAt(S.NAMES, vals, 11, Num(r.expiresAt));
    OptStrAt(S.NAMES, vals, 12, sum);
  }

  lemma KindNames()
    ensures S.KindName(L.Header) == "header" && S.KindName(L.AuditHwm) == "audit_hwm" && S.KindName(L.Replay) == "replay"
    ensures S.KindName(L.Budget) == "budget" && S.KindName(L.Challenge) == "challenge" && S.KindName(L.Grant) == "grant"
    ensures S.KindName(L.GrantRevoke) == "grant_revoke"
  {
  }

  /** The checksum covers all other members: a line that is accepted is the canonical
      text of an object whose crc32c is the checksum of the object without it. */
  lemma ChecksumCovers(crc: S.Crc, line: string)
    requires S.Parse(crc, line).Some?
    ensures exists f: map<string, Value> :: line == Text(Obj(f)) && IsOptional(f, "crc32c", crc(Text(Obj(f - {"crc32c"}))))
  {
    hide S.Parse, S.RecordFields, Text, IsOptional, Serialisable;
    S.ParsedFits(crc, line);
    var r := S.Parse(crc, line).value;
    var sum := S.CrcOf(crc, r);
    var f := S.RecordFields(r, sum);
    StateLineMembers(r, sum);
    WithoutChecksum(r, sum);
    assert line == Text(Obj(f));
  }

  lemma WithoutChecksum(r: L.StateRecord, sum: string)
    ensures S.RecordFields(r, sum) - {"crc32c"} == S.RecordFields(r, "")
  {
    hide R.Fields;
    var k := |S.NAMES| - 1;
    var vals, bare := S.RecordValues(r, sum), S.RecordValues(r, "");
    assert vals[..k] == bare[..k] && S.NAMES[k] == "crc32c";
    LastMember(S.NAMES, vals);
    LastMember(S.NAMES, bare);
    S.NamesDistinct();
    R.FieldsKeys(S.NAMES[..k], vals[..k]);
  }

  lemma LastMember(names: seq<string>, vals: seq<R.Option<Value>>)
    requires |names| == |vals| && names != []
    ensures var k := |names| - 1;
            R.Fields(names, vals) == R.Fields(names[..k], vals[..k])
                                     + if vals[k].Some? then map[names[k] := vals[k].value] else map[]
  {
  }

  /** A line of audit.jsonl: its members by name, and beside them the descriptive ones. */
  lemma AuditLineMembers(r: C.AuditRecord)
    requires A.DetailsApart(r.details)
    ensures var f := A.RecordFields(r);
            && Is(f, "seq", Num(r.seqNo)) && Is(f, "gateway_id", Str(r.gatewayId)) && Is(f, "ledger_id", Str(r.ledgerId))
            && Is(f, "decision", Str(r.decision)) && Is(f, "principal_id", Str(r.principalId))
            && IsOptional(f, "approval_jti", r.approvalJti) && Is(f, "prev_hash", Str(r.prevHash))
            && Is(f, "effective_scopes", A.ScopesValue(r.scopes)) && Is(f, "redacted_args", A.ArgsValue(r.args))
            && IsOptional(f, "record_hash", r.recordHash)
            && (forall n :: n in r.details ==> Is(f, n, r.details[n])) && forall n :: n in f ==> n in A.NAMES || n in r.details
  {
    hide A.RecordFields, R.OptStr, A.ScopesValue, A.ArgsValue, Is, IsOptional, A.DetailsApart;
    AuditValueAt(r, 0, Num(r.seqNo));
    AuditValueAt(r, 1, Str(r.gatewayId));
    AuditValueAt(r, 2, Str(r.ledgerId));
    AuditValueAt(r, 3, Str(r.decision));
    AuditValueAt(r, 4, Str(r.principalId));
    AuditOptStrAt(r, 5, r.approvalJti);
    AuditValueAt(r, 6, A.ScopesValue(r.scopes));
    AuditValueAt(r, 7, A.ArgsValue(r.args));
    AuditValueAt(r, 8, Str(r.prevHash));
    AuditOptStrAt(r, 9, r.recordHash);
    AuditOthers(r);
  }

  lemma AuditValueAt(r: C.AuditRecord, i: nat, v: Value)
    requires A.DetailsApart(r.details) && i < |A.NAMES| && A.RecordValues(r)[i] == R.Some(v)
    ensures Is(A.RecordFields(r), A.NAMES[i], v)
  {
    hide R.Fields, A.RecordValues;
    A.NamesDistinct();
    ValueAt(A.NAMES, A.RecordValues(r), i, v);
  }

  lemma AuditOptStrAt(r: C.AuditRecord, i: nat, s: string)
    requires A.DetailsApart(r.details) && i < |A.NAMES| && A.RecordValues(r)[i] == R.OptStr(s)
    ensures IsOptional(A.RecordFields(r), A.NAMES[i], s)
  {
    hide R.Fields, A.RecordValues;
    A.NamesDistinct();
    OptStrAt(A.NAMES, A.RecordValues(r), i, s);
  }

  lemma AuditOthers(r: C.AuditRecord)
    ensures forall n :: n in r.details ==> Is(A.RecordFields(r), n, r.details[n])
    ensures forall n :: n in A.RecordFields(r) ==> n in A.NAMES || n in r.details
  {
    hide R.Fields;
    R.FieldsKeys(A.NAMES, A.RecordValues(r));
  }

  /** What an audit record's hash covers: the domain and the line of the record without
      its hash, with null lists and arguments written as empty ones. */
  lemma HashCovers(sha: string -> string, r: C.AuditRecord)
    ensures C.HashOf(A.AuditHasher(sha), r)
         == sha("MCP-AUTHZ-AUDIT-V1\0"
                + A.Format(r.(recordHash := "", scopes := C.Some(if r.scopes.None? then [] else r.scopes.value),
                              args := C.Some(if r.args.None? then map[] else r.args.value))))
  {
    hide A.Format;
  }

  /** What an intent digest covers. */
  lemma IntentMembers(i: U.Intent)
    ensures U.IntentJson(i).Obj?
    ensures var f := U.IntentJson(i).fields;
            && Is(f, "ver", Str("mcp-authz-intent/v1")) && Is(f, "gateway_id", Str(i.gatewayId))
            && Is(f, "ledger_id", Str(i.ledgerId)) && Is(f, "server_name", Str(i.serverName))
            && Is(f, "tool_name", Str(i.toolName)) && Is(f, "action_class", Str(i.actionClass))
            && Is(f, "tool_sha256", Str(i.toolDigest)) && Is(f, "upstream_binary_sha256", Str(i.upstreamDigest))
            && Is(f, "policy_sha256", Str(i.policyDigest)) && Is(f, "principal_identity_id", Str(i.principalId))
            && Is(f, "principal_sub", Str(i.principalSub)) && Is(f, "principal_email", Str(i.principalEmail))
            && Is(f, "principal_token_digest", Str(i.principalTokenDigest))
            && Is(f, "effective_scopes", Arr(U.Strings(i.scopes))) && Is(f, "clean_arguments", Obj(i.args))
            && forall n :: n in f ==> n in U.NAMES
  {
    hide R.Fields, Is, T.Distinct;
    var vals := U.IntentValues(i);
    U.NamesDistinct();
    R.FieldsKeys(U.NAMES, vals);
    ValueAt(U.NAMES, vals, 0, Str("mcp-authz-intent/v1"));
    ValueAt(U.NAMES, vals, 1, Str(i.gatewayId));
    ValueAt(U.NAMES, vals, 2, Str(i.ledgerId));
    ValueAt(U.NAMES, vals, 3, Str(i.serverName));
    ValueAt(U.NAMES, vals, 4, Str(i.toolName));
    ValueAt(U.NAMES, vals, 5, Str(i.actionClass));
    ValueAt(U.NAMES, vals, 6, Str(i.toolDigest));
    ValueAt(U.NAMES, vals, 7, Str(i.upstreamDigest));
    ValueAt(U.NAMES, vals, 8, Str(i.policyDigest));
    ValueAt(U.NAMES, vals, 9, Str(i.principalId));
    ValueAt(U.NAMES, vals, 10, Str(i.principalSub));
    ValueAt(U.NAMES, vals, 11, Str(i.principalEmail));
    ValueAt(U.NAMES, vals, 12, Str(i.principalTokenDigest));
    ValueAt(U.NAMES, vals, 13, Arr(U.Strings(i.scopes)));
    ValueAt(U.NAMES, vals, 14, Obj(i.args));
    assert U.IntentJson(i) == Obj(R.Fields(U.NAMES, vals));
  }
}
