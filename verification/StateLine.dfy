/** The lines of state.db: canonical JSON with a checksum (internal/authz/statedb.go). */
module StateLine {
  import opened Json
  import opened JsonRoundTrip
  import opened JsonRecord
  import L = LedgerState
  import F = Framing

  const VERSION: string := "mcp-authz-state/v1"

  const NAMES: seq<string> := [
    "ver", "ledger_id", "kind", "gateway_id", "key", "sub_key", "value", "count", "audit_seq", "audit_hash",
    "iat", "exp", "crc32c"]

  function IndexOf(name: string): nat {
    if name == "ver" then 0 else if name == "ledger_id" then 1 else if name == "kind" then 2
    else if name == "gateway_id" then 3 else if name == "key" then 4 else if name == "sub_key" then 5
    else if name == "value" then 6 else if name == "count" then 7 else if name == "audit_seq" then 8
    else if name == "audit_hash" then 9 else if name == "iat" then 10 else if name == "exp" then 11 else 12
  }

  lemma NamesDistinct()
    ensures Distinct(NAMES)
  {
    assert forall i | 0 <= i < |NAMES| :: IndexOf(NAMES[i]) == i;
  }

  function KindName(k: L.Kind): string {
    match k
    case Header => "header"
    case AuditHwm => "audit_hwm"
    case Replay => "replay"
    case Budget => "budget"
    case Challenge => "challenge"
    case Grant => "grant"
    case GrantRevoke => "grant_revoke"
    case Unknown(name) => name
  }

  function KindOf(name: string): L.Kind {
    if name == "header" then L.Header else if name == "audit_hwm" then L.AuditHwm
    else if name == "replay" then L.Replay else if name == "budget" then L.Budget
    else if name == "challenge" then L.Challenge else if name == "grant" then L.Grant
    else if name == "grant_revoke" then L.GrantRevoke else L.Unknown(name)
  }

  lemma KindNameOf(name: string)
    ensures KindName(KindOf(name)) == name
  {
  }

  /** The checksum of a canonical text: eight hexadecimal digits. */
  type Crc = string -> string

  function RecordValues(r: L.StateRecord, crc: string): (vals: seq<Option<Value>>)
    ensures |vals| == |NAMES|
  {
    [Some(Str(VERSION)), Some(Str(r.ledgerId)), Some(Str(KindName(r.kind))), Some(Str(r.gatewayId)), Some(Str(r.key)),
     OptStr(r.subKey), OptStr(r.value), OptNum(r.count), OptNum(r.auditSeq), OptStr(r.auditHash),
     Some(Num(r.issuedAt)), Some(Num(r.expiresAt)), OptStr(crc)]
  }

  function RecordFields(r: L.StateRecord, crc: string): map<string, Value> {
    Fields(NAMES, RecordValues(r, crc))
  }

  /** ComputeStateRecordCRC */
  ghost function CrcOf(crc: Crc, r: L.StateRecord): string {
    crc(Text(Obj(RecordFields(r, ""))))
  }

  ghost function JsonOf(crc: Crc, r: L.StateRecord): Value {
    Obj(RecordFields(r, CrcOf(crc, r)))
  }

  /** FormatStateRecordLine, without the newline. */
  ghost function Format(crc: Crc, r: L.StateRecord): string {
    Text(JsonOf(crc, r))
  }

  /** The record decoder on the values of the members: record, version, checksum. */
  function ReadRecord(vals: seq<Option<Value>>): Option<(L.StateRecord, string, string)>
    requires |vals| == |NAMES|
  {
    var ver, id, kind, gw, key := AsStr(vals[0]), AsStr(vals[1]), AsStr(vals[2]), AsStr(vals[3]), AsStr(vals[4]);
    var sub, value, count, sq, hash := AsStr(vals[5]), AsStr(vals[6]), AsNum(vals[7]), AsNat(vals[8]), AsStr(vals[9]);
    var iat, exp, crc := AsNum(vals[10]), AsNum(vals[11]), AsStr(vals[12]);
    if ver.None? || id.None? || kind.None? || gw.None? || key.None? || sub.None? || value.None? || count.None?
       || sq.None? || hash.None? || iat.None? || exp.None? || crc.None?
    then None
    else
      Some((L.StateRecord(id.value, KindOf(kind.value), gw.value, key.value, sub.value, value.value, count.value,
                          sq.value, hash.value, iat.value, exp.value), ver.value, crc.value))
  }

  /** parseAndVerifyStateRecordLine */
  ghost function Parse(crc: Crc, line: string): F.Option<L.StateRecord> {
    match DecodeStrictObject(line, true)
    case Err(_) => F.None
    case Ok(fields) =>
      if exists n :: n in fields && n !in NAMES then F.None
      else
        match ReadRecord(Values(NAMES, fields))
        case None => F.None
        case Some((r, ver, sum)) =>
          if ver != VERSION || sum != CrcOf(crc, r) then F.None
          else if !Serialisable(JsonOf(crc, r)) || line != Format(crc, r) then F.None
          else F.Some(r)
  }

  /** The records that the line format carries: a known kind under its name, safe
      strings, int53 numbers and at most 64 KiB of text. */
  ghost predicate Fits(crc: Crc, r: L.StateRecord) {
    && KindOf(KindName(r.kind)) == r.kind && Serialisable(JsonOf(crc, r))
    && Accepted(JsonOf(crc, r), 0, Strict(true)) && Utf8Length(Format(crc, r)) <= 65536
  }

  ghost function LineCodec(crc: Crc): F.Codec<L.StateRecord> {
    F.Codec(r => Format(crc, r), l => Parse(crc, l), r => Fits(crc, r))
  }

  lemma ReadsBack(r: L.StateRecord, crc: string)
    requires KindOf(KindName(r.kind)) == r.kind
    ensures ReadRecord(Values(NAMES, RecordFields(r, crc))) == Some((r, VERSION, crc))
  {
    hide Fields, KindOf, KindName;
    NamesDistinct();
    ValuesOfFields(NAMES, RecordValues(r, crc));
  }

  lemma FormatParses(crc: Crc, r: L.StateRecord)
    requires Fits(crc, r)
    ensures F.OneLine(Format(crc, r)) && Parse(crc, Format(crc, r)) == F.Some(r)
  {
    hide ReadRecord, Values, Fields, Serialisable, Accepted, KindOf, KindName, Utf8Length, DecodeStrictObject;
    TextIsOneLine(JsonOf(crc, r));
    ObjectRoundTrip(RecordFields(r, CrcOf(crc, r)), true);
    FieldsKeys(NAMES, RecordValues(r, CrcOf(crc, r)));
    ReadsBack(r, CrcOf(crc, r));
  }

  lemma ParsedFits(crc: Crc, line: string)
    requires Parse(crc, line).Some?
    ensures Fits(crc, Parse(crc, line).value) && Format(crc, Parse(crc, line).value) == line
  {
    hide Fields, Serialisable, Accepted, Utf8Length, DecodeStrictObject, KindOf, KindName, ReadRecord;
    var r := Parse(crc, line).value;
    ObjectRoundTrip(RecordFields(r, CrcOf(crc, r)), true);
    ReadKind(Values(NAMES, DecodeStrictObject(line, true).value));
  }

  lemma ReadKind(vals: seq<Option<Value>>)
    requires |vals| == |NAMES| && ReadRecord(vals).Some?
    ensures KindOf(KindName(ReadRecord(vals).value.0.kind)) == ReadRecord(vals).value.0.kind
  {
    hide KindOf, KindName;
    KindNameOf(AsStr(vals[2]).value);
  }

  /** Main result: for every checksum function, a line parses exactly when it is
      the formatted line of a record that fits, and then to that record. */
  lemma LineCodecOk(crc: Crc)
    ensures F.CodecOk(LineCodec(crc))
  {
    hide Format, Parse, Fits;
    var c := LineCodec(crc);
    forall r | c.fits(r) ensures F.OneLine(c.format(r)) && c.parse(c.format(r)) == F.Some(r) {
      FormatParses(crc, r);
    }
    forall l | c.parse(l).Some? ensures c.fits(c.parse(l).value) && c.format(c.parse(l).value) == l {
      ParsedFits(crc, l);
    }
  }
}
