/** The lines of audit.jsonl and the record hash (internal/authz/audit.go, internal/authz/statedb.go). */
module AuditLine {
  import opened Json
  import opened JsonRoundTrip
  import opened JsonRecord
  import opened Chain = AuditChain
  import F = Framing

  const DOMAIN: string := "MCP-AUTHZ-AUDIT-V1\0"
  const MAX_LINE: nat := 4194304

  /** The members behind the named fields; details holds the others. */
  const NAMES: seq<string> := [
    "seq", "gateway_id", "ledger_id", "decision", "principal_id", "approval_jti", "effective_scopes",
    "redacted_args", "prev_hash", "record_hash"]

  function IndexOf(name: string): nat {
    if name == "seq" then 0 else if name == "gateway_id" then 1 else if name == "ledger_id" then 2
    else if name == "decision" then 3 else if name == "principal_id" then 4 else if name == "approval_jti" then 5
    else if name == "effective_scopes" then 6 else if name == "redacted_args" then 7
    else if name == "prev_hash" then 8 else 9
  }

  lemma NamesDistinct()
    ensures Distinct(NAMES)
  {
    assert forall i | 0 <= i < |NAMES| :: IndexOf(NAMES[i]) == i;
  }

  function Strings(ss: seq<string>): seq<Value> {
    seq(|ss|, i requires 0 <= i < |ss| => Str(ss[i]))
  }

  /** A nil slice or map is written as null. */
  function ScopesValue(scopes: Chain.Option<seq<string>>): Value {
    if scopes.None? then Null else Arr(Strings(scopes.value))
  }

  function ArgsValue(args: Chain.Option<map<string, Value>>): Value {
    if args.None? then Null else Obj(args.value)
  }

  function RecordValues(r: AuditRecord): (vals: seq<JsonRecord.Option<Value>>)
    ensures |vals| == |NAMES|
  {
    [JsonRecord.Some(Num(r.seqNo)), JsonRecord.Some(Str(r.gatewayId)), JsonRecord.Some(Str(r.ledgerId)),
     JsonRecord.Some(Str(r.decision)), JsonRecord.Some(Str(r.principalId)), OptStr(r.approvalJti),
     JsonRecord.Some(ScopesValue(r.scopes)), JsonRecord.Some(ArgsValue(r.args)),
     JsonRecord.Some(Str(r.prevHash)), OptStr(r.recordHash)]
  }

  function RecordFields(r: AuditRecord): map<string, Value> {
    Fields(NAMES, RecordValues(r)) + r.details
  }

  // ----- the descriptive members -----

  const STRINGS: seq<string> := [
    "ts", "server_name", "tool_name", "action_class", "error_code", "principal_sub", "principal_email"]
  const NUMBERS: seq<string> := ["stage", "upstream_duration_ms"]
  const FLAGS: seq<string> := ["upstream_is_error"]
  /** Left out when empty. */
  const OPTIONALS: seq<string> := ["approver_sub", "ticket_id", "intent_digest"]

  predicate DetailOk(name: string, v: Value) {
    if name in STRINGS then v.Str?
    else if name in NUMBERS then v.Num?
    else if name in FLAGS then v.Bool?
    else name in OPTIONALS && v.Str? && v.s != ""
  }

  /** What the struct decoder takes and MarshalJCS writes again: the members of
      AuditRecordV1 and no others, with their types. */
  predicate DetailsOk(details: map<string, Value>) {
    && (forall n | n in STRINGS :: n in details) && (forall n | n in NUMBERS :: n in details)
    && (forall n | n in FLAGS :: n in details) && forall n | n in details :: DetailOk(n, details[n])
  }

  lemma OkIsApart(details: map<string, Value>)
    requires DetailsOk(details)
    ensures DetailsApart(details)
  {
    assert forall i | 0 <= i < |NAMES| :: forall v :: !DetailOk(NAMES[i], v);
  }

  predicate DetailsApart(details: map<string, Value>) {
    forall i | 0 <= i < |NAMES| :: NAMES[i] !in details
  }

  ghost function Format(r: AuditRecord): string {
    Text(Obj(RecordFields(r)))
  }

  // ----- reading a record -----

  predicate AllStrings(vs: seq<Value>) {
    forall i | 0 <= i < |vs| :: vs[i].Str?
  }

  function Unwrap(vs: seq<Value>): seq<string>
    requires AllStrings(vs)
  {
    seq(|vs|, i requires 0 <= i < |vs| => vs[i].s)
  }

  function AsScopes(v: JsonRecord.Option<Value>): JsonRecord.Option<Chain.Option<seq<string>>> {
    if v.None? || v.value.Null? then JsonRecord.Some(Chain.None)
    else if v.value.Arr? && AllStrings(v.value.elems) then JsonRecord.Some(Chain.Some(Unwrap(v.value.elems)))
    else JsonRecord.None
  }

  function AsArgs(v: JsonRecord.Option<Value>): JsonRecord.Option<Chain.Option<map<string, Value>>> {
    if v.None? || v.value.Null? then JsonRecord.Some(Chain.None)
    else if v.value.Obj? then JsonRecord.Some(Chain.Some(v.value.fields))
    else JsonRecord.None
  }

  function ReadRecord(vals: seq<JsonRecord.Option<Value>>, details: map<string, Value>): JsonRecord.Option<AuditRecord>
    requires |vals| == |NAMES|
  {
    var sq, gw, id, decision, principal := AsNat(vals[0]), AsStr(vals[1]), AsStr(vals[2]), AsStr(vals[3]), AsStr(vals[4]);
    var jti, scopes, args := AsStr(vals[5]), AsScopes(vals[6]), AsArgs(vals[7]);
    var prev, hash := AsStr(vals[8]), AsStr(vals[9]);
    if sq.None? || gw.None? || id.None? || decision.None? || principal.None? || jti.None? || scopes.None? || args.None?
       || prev.None? || hash.None?
    then JsonRecord.None
    else
      JsonRecord.Some(AuditRecord(sq.value, gw.value, id.value, decision.value, principal.value, jti.value,
                                  scopes.value, args.value, details, prev.value, hash.value))
  }

  function ReadFields(fields: map<string, Value>): JsonRecord.Option<AuditRecord> {
    ReadRecord(Values(NAMES, fields), map n | n in fields && n !in NAMES :: fields[n])
  }

  /** The decoding part of parseAndVerifyAuditLine. */
  ghost function Parse(line: string): F.Option<AuditRecord> {
    match DecodeStrict(line, MAX_LINE, false)
    case Err(_) => F.None
    case Ok(v) =>
      if !v.Obj? then F.None
      else
        match ReadFields(v.fields)
        case None => F.None
        case Some(r) =>
          if !DetailsOk(r.details) || !Serialisable(Obj(RecordFields(r))) || line != Format(r) then F.None else F.Some(r)
  }

  /** Safe strings, int53 numbers, at most 16 levels (15 for the arguments) and 4 MiB. */
  ghost predicate Fits(r: AuditRecord) {
    && DetailsOk(r.details) && Serialisable(Obj(RecordFields(r)))
    && Accepted(Obj(RecordFields(r)), 0, Strict(false)) && Utf8Length(Format(r)) <= MAX_LINE
  }

  ghost function LineCodec(): F.Codec<AuditRecord> {
    F.Codec(r => Format(r), l => Parse(l), r => Fits(r))
  }

  lemma ScopesReadBack(scopes: Chain.Option<seq<string>>)
    ensures AsScopes(JsonRecord.Some(ScopesValue(scopes))) == JsonRecord.Some(scopes)
  {
    if scopes.Some? {
      assert Unwrap(Strings(scopes.value)) == scopes.value;
    }
  }

  lemma SplitFields(r: AuditRecord)
    requires DetailsApart(r.details)
    ensures Values(NAMES, RecordFields(r)) == RecordValues(r)
    ensures (map n | n in RecordFields(r) && n !in NAMES :: RecordFields(r)[n]) == r.details
  {
    hide Fields, RecordValues;
    NamesDistinct();
    ValuesOfFields(NAMES, RecordValues(r));
    FieldsKeys(NAMES, RecordValues(r));
    var fields := Fields(NAMES, RecordValues(r));
    forall i | 0 <= i < |NAMES| ensures Lookup(RecordFields(r), NAMES[i]) == RecordValues(r)[i] {
      assert Values(NAMES, fields)[i] == Lookup(fields, NAMES[i]);
    }
    ApartKeys(r.details);
  }

  lemma ApartKeys(details: map<string, Value>)
    requires DetailsApart(details)
    ensures forall n :: n in details ==> n !in NAMES
  {
  }

  /** A record can be read back from its members. */
  lemma ReadsBack(r: AuditRecord)
    requires DetailsApart(r.details)
    ensures ReadFields(RecordFields(r)) == JsonRecord.Some(r)
  {
    hide RecordFields, AsScopes, ScopesValue, Values, DetailsApart;
    SplitFields(r);
    ScopesReadBack(r.scopes);
  }

  lemma FormatParses(r: AuditRecord)
    requires Fits(r)
    ensures F.OneLine(Format(r)) && Parse(Format(r)) == F.Some(r)
  {
    hide RecordFields, ReadFields, Serialisable, Accepted, Utf8Length, DecodeStrict, DetailsApart, DetailsOk;
    OkIsApart(r.details);
    TextIsOneLine(Obj(RecordFields(r)));
    RoundTrip(Obj(RecordFields(r)), MAX_LINE, false);
    ReadsBack(r);
  }

  lemma ParsedFits(line: string)
    requires Parse(line).Some?
    ensures Fits(Parse(line).value) && Format(Parse(line).value) == line
  {
    hide RecordFields, ReadFields, Serialisable, Accepted, Utf8Length, DecodeStrict, DetailsOk;
    var r := Parse(line).value;
    RoundTrip(Obj(RecordFields(r)), MAX_LINE, false);
  }

  /** Main result: a line parses exactly when it is the canonical line of a record that fits. */
  lemma LineCodecOk()
    ensures F.CodecOk(LineCodec())
  {
    hide Format, Parse, Fits;
    var c := LineCodec();
    forall r | c.fits(r) ensures F.OneLine(c.format(r)) && c.parse(c.format(r)) == F.Some(r) {
      FormatParses(r);
    }
    forall l | c.parse(l).Some? ensures c.fits(c.parse(l).value) && c.format(c.parse(l).value) == l {
      ParsedFits(l);
    }
  }

  // ----- the record hash -----

  /** What is hashed. */
  ghost function Preimage(r: AuditRecord): string {
    DOMAIN + Format(Normal(Strip(r)))
  }

  /** ComputeAuditRecordHash with the digest function sha. */
  ghost function AuditHasher(sha: string -> string): Hasher {
    r => sha(DOMAIN + Format(r))
  }

  ghost predicate Hashable(r: AuditRecord) {
    DetailsApart(r.details) && Serialisable(Obj(RecordFields(Normal(Strip(r)))))
  }

  /** Different records have different hash inputs. */
  lemma PreimageIsInjective(r: AuditRecord, s: AuditRecord)
    requires Hashable(r) && Hashable(s) && Preimage(r) == Preimage(s)
    ensures Normal(Strip(r)) == Normal(Strip(s))
  {
    hide RecordFields, ReadFields, Serialisable, DetailsApart;
    var x, y := Normal(Strip(r)), Normal(Strip(s));
    assert Format(x) == Preimage(r)[|DOMAIN|..] && Format(y) == Preimage(s)[|DOMAIN|..];
    TextIsInjective(Obj(RecordFields(x)), Obj(RecordFields(y)));
    ReadsBack(x);
    ReadsBack(y);
  }

  /** Two different texts, hash inputs of records of the two logs, with equal digests. */
  ghost predicate DigestCollision(sha: string -> string, a: seq<AuditRecord>, b: seq<AuditRecord>) {
    exists i, j :: 0 <= i < |a| && 0 <= j < |b| && DigestsCollide(sha, Preimage(a[i]), Preimage(b[j]))
  }

  predicate DigestsCollide(sha: string -> string, x: string, y: string) {
    x != y && sha(x) == sha(y)
  }

  /** Main result: two audit logs that verify for the same ledger and end in the
      same record hash hold the same records, or exhibit a collision of the digest
      itself on two of their hash inputs. */
  lemma SameTailSameLogOrDigestCollision(sha: string -> string, a: seq<AuditRecord>, b: seq<AuditRecord>, gw: string, id: string)
    requires ValidChain(AuditHasher(sha), a, gw, id) && ValidChain(AuditHasher(sha), b, gw, id) && a != [] && b != []
    requires TailOf(a).hash == TailOf(b).hash
    requires (forall i | 0 <= i < |a| :: Hashable(a[i])) && forall j | 0 <= j < |b| :: Hashable(b[j])
    ensures SameLog(a, b) || DigestCollision(sha, a, b)
  {
    hide ValidChain, Hashable, Format, Normal;
    var h := AuditHasher(sha);
    SameTailSameLog(h, a, b, gw, id);
    if Collision(h, a, b) {
      var i, j :| 0 <= i < |a| && 0 <= j < |b| && Collide(h, a[i], b[j]);
      if Preimage(a[i]) == Preimage(b[j]) {
        PreimageIsInjective(a[i], b[j]);
      }
      assert DigestsCollide(sha, Preimage(a[i]), Preimage(b[j]));
    }
  }
}
