/** Which records of state.db read back, and what that asks of their contents. */
module StateFits {
  import opened Json
  import opened JsonRoundTrip
  import opened JsonRecord
  import opened JsonSize
  import opened StateLine
  import L = LedgerState
  import F = Framing

  /** A checksum is eight hexadecimal digits. */
  ghost predicate CrcOk(crc: Crc) {
    forall s :: IsHex(crc(s)) && |crc(s)| == 8
  }

  predicate IsHex(s: string) {
    forall k | 0 <= k < |s| :: L.IsHexChar(s[k])
  }

  lemma HexIsSafe(s: string)
    requires IsHex(s)
    ensures SafeString(s)
  {
  }

  predicate StringsSafe(r: L.StateRecord) {
    && SafeString(r.ledgerId) && SafeString(r.gatewayId) && SafeString(r.key) && SafeString(r.subKey)
    && SafeString(r.value) && SafeString(r.auditHash)
  }

  /** MarshalJCS accepts the record's numbers. */
  predicate NumbersFit(r: L.StateRecord) {
    IsInt53(r.count) && IsInt53(r.auditSeq) && IsInt53(r.issuedAt) && IsInt53(r.expiresAt)
  }

  // ----- the object of a record, member by member -----

  predicate SafeScalar(v: Value) {
    match v
    case Str(s) => SafeString(s)
    case Num(n) => IsInt53(n)
    case _ => false
  }

  lemma {:induction false} FieldsAreAmong(names: seq<string>, vals: seq<Option<Value>>)
    requires |names| == |vals|
    ensures |Fields(names, vals)| <= |names|
    ensures forall n :: n in Fields(names, vals) ==>
              exists i :: 0 <= i < |names| && names[i] == n && vals[i] == Some(Fields(names, vals)[n])
  {
    if names != [] {
      var k := |names| - 1;
      FieldsAreAmong(names[..k], vals[..k]);
      var rest := Fields(names[..k], vals[..k]);
      forall n | n in Fields(names, vals)
        ensures exists i :: 0 <= i < |names| && names[i] == n && vals[i] == Some(Fields(names, vals)[n])
      {
        if vals[k].Some? && n == names[k] {
          assert vals[k] == Some(Fields(names, vals)[n]);
        } else {
          var i :| 0 <= i < k && names[..k][i] == n && vals[..k][i] == Some(rest[n]);
          assert names[i] == n && vals[i] == Some(rest[n]);
        }
      }
    }
  }

  lemma RecordIsSerialisable(r: L.StateRecord, crc: string)
    requires NumbersFit(r)
    ensures Serialisable(Obj(RecordFields(r, crc)))
  {
    hide Fields, KindName, IsInt53;
    FieldsAreAmong(NAMES, RecordValues(r, crc));
  }

  lemma NamesAreLower()
    ensures forall i | 0 <= i < |NAMES| :: SafeString(NAMES[i]) && Lower(NAMES[i]) == NAMES[i]
  {
  }

  /** The keys of a record never differ in case only. */
  lemma KeysAreDistinct(r: L.StateRecord, crc: string)
    ensures DistinctLower(RecordFields(r, crc).Keys)
    ensures forall k | k in RecordFields(r, crc) :: SafeString(k)
  {
    hide Fields, RecordValues, SafeString, Lower;
    FieldsKeys(NAMES, RecordValues(r, crc));
    NamesAreLower();
  }

  lemma KindIsSafe(k: L.Kind)
    requires !k.Unknown?
    ensures SafeString(KindName(k)) && |KindName(k)| <= 12 && KindOf(KindName(k)) == k
  {
  }

  /** The record's values are the strings and numbers it holds. */
  lemma ValuesAreSafe(r: L.StateRecord, crc: string)
    requires !r.kind.Unknown? && NumbersFit(r) && SafeString(crc)
    ensures StringsSafe(r) ==> forall i | 0 <= i < |NAMES| && RecordValues(r, crc)[i].Some? :: SafeScalar(RecordValues(r, crc)[i].value)
  {
    hide SafeString, KindName, IsInt53;
    KindIsSafe(r.kind);
    VersionIsSafe();
  }

  lemma VersionIsSafe()
    ensures SafeString(VERSION)
  {
  }

  /** An unsafe string stays in the object and is refused. */
  lemma UnsafeIsPresent(r: L.StateRecord, crc: string)
    requires !StringsSafe(r)
    ensures exists k :: k in RecordFields(r, crc) && RecordFields(r, crc)[k].Str? && !SafeString(RecordFields(r, crc)[k].s)
  {
    hide Fields, SafeString, KindName;
    NamesDistinct();
    EmptyIsSafe();
    var i := if !SafeString(r.ledgerId) then 1 else if !SafeString(r.gatewayId) then 3 else if !SafeString(r.key) then 4
             else if !SafeString(r.subKey) then 5 else if !SafeString(r.value) then 6 else 9;
    var v := RecordValues(r, crc)[i];
    assert v.Some? && v.value.Str? && !SafeString(v.value.s);
    FieldsAt(NAMES, RecordValues(r, crc), i);
    assert NAMES[i] in RecordFields(r, crc) && RecordFields(r, crc)[NAMES[i]] == v.value;
  }

  lemma EmptyIsSafe()
    ensures SafeString("")
  {
  }

  lemma AcceptedIff(r: L.StateRecord, crc: string)
    requires !r.kind.Unknown? && NumbersFit(r) && SafeString(crc)
    ensures Accepted(Obj(RecordFields(r, crc)), 0, Strict(true)) <==> StringsSafe(r)
  {
    hide Fields, RecordValues, SafeString, DistinctLower, RecordFields;
    KeysAreDistinct(r, crc);
    var fields := RecordFields(r, crc);
    if StringsSafe(r) {
      ValuesAreSafe(r, crc);
      FieldsOf(r, crc);
      forall k | k in fields ensures Accepted(fields[k], 1, Strict(true)) {
        var i :| 0 <= i < |NAMES| && NAMES[i] == k && RecordValues(r, crc)[i] == Some(fields[k]);
        assert SafeScalar(fields[k]);
      }
    } else {
      UnsafeIsPresent(r, crc);
    }
  }

  lemma FieldsOf(r: L.StateRecord, crc: string)
    ensures var fields := RecordFields(r, crc);
            |fields| <= |NAMES| && |RecordValues(r, crc)| == |NAMES|
            && forall n :: n in fields ==>
                 exists i :: 0 <= i < |NAMES| && NAMES[i] == n && RecordValues(r, crc)[i] == Some(fields[n])
  {
    hide Fields;
    FieldsAreAmong(NAMES, RecordValues(r, crc));
  }

  /** Main result: what FormatStateRecordLine writes for a record of a known kind
      reads back to the record exactly when its strings are safe and the line
      takes at most 64 KiB; otherwise the parser refuses it. */
  lemma LineParsesIff(crc: Crc, r: L.StateRecord)
    requires CrcOk(crc) && !r.kind.Unknown? && NumbersFit(r)
    ensures Fits(crc, r) <==> StringsSafe(r) && Utf8Length(Format(crc, r)) <= 65536
    ensures StateLine.Parse(crc, Format(crc, r)) == if Fits(crc, r) then F.Some(r) else F.None
  {
    hide RecordFields, Serialisable, Accepted, Utf8Length, DecodeStrictObject, StringsSafe, KindOf, KindName, Text;
    var sum := CrcOf(crc, r);
    HexIsSafe(sum);
    KindIsSafe(r.kind);
    RecordIsSerialisable(r, sum);
    AcceptedIff(r, sum);
    if Fits(crc, r) {
      FormatParses(crc, r);
    } else {
      ObjectRoundTrip(RecordFields(r, sum), true);
    }
  }

  // ----- lines that are too long -----

  /** The line is at least as long as the record's key. */
  lemma KeyIsInLine(crc: Crc, r: L.StateRecord)
    ensures Utf8Length(Format(crc, r)) >= |r.key|
  {
    hide Fields, Text, Utf8Length, StringText;
    var sum := CrcOf(crc, r);
    NamesDistinct();
    FieldsAt(NAMES, RecordValues(r, sum), 4);
    var fields := RecordFields(r, sum);
    assert NAMES[4] in fields && fields[NAMES[4]] == Str(r.key);
    ObjectAtLeast(fields, NAMES[4]);
    KeyText(r.key);
    Utf8AtLeast(Format(crc, r));
  }

  lemma KeyText(key: string)
    ensures |Text(Str(key))| >= |key|
  {
    hide StringText;
    StringAtLeast(key);
  }

  /** A record whose key has more than 65536 characters is written and never read again. */
  lemma OverlongKey(crc: Crc, r: L.StateRecord)
    requires CrcOk(crc) && !r.kind.Unknown? && NumbersFit(r) && |r.key| > 65536
    ensures StateLine.Parse(crc, Format(crc, r)) == F.None
  {
    hide Fits, StateLine.Parse, Format, Utf8Length, StringsSafe;
    LineParsesIff(crc, r);
    KeyIsInLine(crc, r);
  }

  // ----- records of bounded strings fit -----

  const MAX_STRING: nat := 800

  predicate Good(s: string) {
    SafeString(s) && |s| <= MAX_STRING
  }

  /** Safe strings of bounded length and int53 numbers. */
  predicate SoundRecord(r: L.StateRecord) {
    && !r.kind.Unknown? && NumbersFit(r)
    && Good(r.ledgerId) && Good(r.gatewayId) && Good(r.key) && Good(r.subKey) && Good(r.value) && Good(r.auditHash)
  }

  predicate ShortScalar(v: Value) {
    match v
    case Str(s) => |s| <= MAX_STRING
    case Num(n) => IsInt53(n)
    case _ => false
  }

  lemma ScalarBytes(v: Value)
    requires ShortScalar(v)
    ensures Utf8Length(Text(v)) <= 6 * MAX_STRING + 2
  {
    hide Utf8Length, StringText, IntText;
    match v
    case Str(s) => StringBytes(s);
    case Num(n) => IntBytes(n);
  }

  lemma NameBytes()
    ensures forall i | 0 <= i < |NAMES| :: |NAMES[i]| <= 10
  {
  }

  const MEMBER_BYTES: nat := 6 * MAX_STRING + 66

  lemma MemberIsShort(fields: map<string, Value>, k: string)
    requires k in fields && |k| <= 10 && ShortScalar(fields[k])
    ensures MemberBytes(fields, k) <= MEMBER_BYTES
  {
    hide Utf8Length, StringText, Text;
    StringBytes(k);
    ScalarBytes(fields[k]);
  }

  lemma SoundValuesAreShort(r: L.StateRecord, crc: string)
    requires SoundRecord(r) && |crc| == 8
    ensures forall i | 0 <= i < |NAMES| && RecordValues(r, crc)[i].Some? :: ShortScalar(RecordValues(r, crc)[i].value)
  {
    hide SafeString, KindName, IsInt53;
    KindIsSafe(r.kind);
  }

  lemma SoundIsShort(r: L.StateRecord, crc: string)
    requires SoundRecord(r) && |crc| == 8
    ensures Utf8Length(Text(Obj(RecordFields(r, crc)))) <= 65536
  {
    hide RecordFields, RecordValues, SoundRecord, Utf8Length, MemberBytes, ShortScalar, Text;
    SoundValuesAreShort(r, crc);
    NameBytes();
    FieldsOf(r, crc);
    var fields := RecordFields(r, crc);
    forall k | k in fields ensures MemberBytes(fields, k) <= MEMBER_BYTES {
      var i :| 0 <= i < |NAMES| && NAMES[i] == k && RecordValues(r, crc)[i] == Some(fields[k]);
      MemberIsShort(fields, k);
    }
    ObjectBytes(fields, MEMBER_BYTES);
    assert |fields| * MEMBER_BYTES <= 13 * MEMBER_BYTES;
  }

  /** A sound record reads back. */
  lemma SoundFits(crc: Crc, r: L.StateRecord)
    requires CrcOk(crc) && SoundRecord(r)
    ensures Fits(crc, r)
  {
    hide RecordFields, Utf8Length, Fits, StateLine.Parse, SafeString, Text;
    LineParsesIff(crc, r);
    SoundIsShort(r, CrcOf(crc, r));
  }
}
