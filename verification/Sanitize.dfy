/** Sanitising what goes into the audit log (internal/authz/jcs.go, internal/authz/statedb.go). */
module Sanitize {
  // Strings from outside may hold any character.  The audit log must stay readable
  // all the same: a line that the strict decoder refuses would stop every later start.

  import opened Utf16
  import opened Json
  import opened JsonRoundTrip
  import R = JsonRecord
  import Chain = AuditChain
  import AuditLine
  import F = Framing

  /** The escape for a refused character. */
  function EscapeUnsafe(c: char): string {
    var r := c as int;
    if r == 0xFFFD then "\\ufffd"
    else if r < 0x10000 then "\\u" + [HexDigit(r / 4096), HexDigit(r / 256 % 16), HexDigit(r / 16 % 16), HexDigit(r % 16)]
    else [c]
  }

  /** SanitizeSafeJSONString */
  function SanitizeString(s: string): string {
    if s == "" then "" else (if SafeChar(s[0]) then [s[0]] else EscapeUnsafe(s[0])) + SanitizeString(s[1..])
  }

  /** The loop of SanitizeSafeJSONString, without its shortcut for safe strings. */
  method SanitizeSafeJSONString(s: string) returns (out: string)
    ensures out == SanitizeString(s)
  {
    hide SafeChar, EscapeUnsafe;
    out := "";
    var i := 0;
    while i < |s|
      invariant i <= |s| && out + SanitizeString(s[i..]) == SanitizeString(s)
    {
      assert s[i..][1..] == s[i + 1..];
      out := out + if SafeChar(s[i]) then [s[i]] else EscapeUnsafe(s[i]);
      i := i + 1;
    }
    assert s[i..] == "";
  }

  lemma HexDigitIsSafe(v: int)
    requires 0 <= v < 16
    ensures SafeChar(HexDigit(v))
  {
  }

  lemma EscapeIsSafe(c: char)
    requires !SafeChar(c)
    ensures SafeString(EscapeUnsafe(c)) && c as int < 0x10000
  {
    var r := c as int;
    HexDigitIsSafe(r / 4096);
    HexDigitIsSafe(r / 256 % 16);
    HexDigitIsSafe(r / 16 % 16);
    HexDigitIsSafe(r % 16);
  }

  /** Main result: the outcome is always safe, and a safe string is left alone. */
  lemma {:induction false} SanitizedIsSafe(s: string)
    ensures SafeString(SanitizeString(s))
    ensures SafeString(s) <==> SanitizeString(s) == s
  {
    hide SafeChar, EscapeUnsafe;
    if s != "" {
      SanitizedIsSafe(s[1..]);
      SafeCons(s);
      if SafeChar(s[0]) {
        assert SanitizeString(s)[1..] == SanitizeString(s[1..]);
        SafeCons(SanitizeString(s));
        assert s == [s[0]] + s[1..];
      } else {
        EscapeIsSafe(s[0]);
        SafeConcat(EscapeUnsafe(s[0]), SanitizeString(s[1..]));
      }
    }
  }

  lemma SafeCons(s: string)
    requires s != ""
    ensures SafeString(s) <==> SafeChar(s[0]) && SafeString(s[1..])
  {
    hide SafeChar;
    assert forall k | 1 <= k < |s| :: s[k] == s[1..][k - 1];
  }

  lemma SafeConcat(a: string, b: string)
    requires SafeString(a) && SafeString(b)
    ensures SafeString(a + b)
  {
    hide SafeChar;
  }

  // ----- values -----

  /** SanitizeSafeJSONValue.  Keys that become equal collapse; which value stays is
      the last in key order here, and nothing proved depends on it. */
  ghost function SanitizeValue(v: Value): Value
    decreases v, 0
  {
    match v
    case Str(s) => Str(SanitizeString(s))
    case Arr(elems) => Arr(seq(|elems|, i requires 0 <= i < |elems| => SanitizeValue(elems[i])))
    case Obj(fields) => Obj(SanitizeMembers(v, SortedKeys(fields.Keys)))
    case _ => v
  }

  ghost function SanitizeMembers(v: Value, keys: seq<string>): map<string, Value>
    requires v.Obj? && forall i | 0 <= i < |keys| :: keys[i] in v.fields
    decreases v, 0, |keys|
  {
    if keys == [] then map[]
    else
      var k := keys[|keys| - 1];
      SanitizeMembers(v, keys[..|keys| - 1])[SanitizeString(k) := SanitizeValue(v.fields[k])]
  }

  /** v nests at most n levels of arrays and objects. */
  ghost predicate NestsAtMost(v: Value, n: int)
    decreases v
  {
    match v
    case Arr(elems) => n >= 1 && forall i | 0 <= i < |elems| :: NestsAtMost(elems[i], n - 1)
    case Obj(fields) => n >= 1 && forall k | k in fields :: NestsAtMost(fields[k], n - 1)
    case _ => true
  }

  const LIMITS: Limits := Strict(false)

  /** A sanitised value is accepted wherever it does not nest too deep. */
  lemma {:induction false} SanitizedIsAccepted(v: Value, d: nat)
    requires NestsAtMost(v, MAX_DEPTH - d)
    ensures Accepted(SanitizeValue(v), d, LIMITS)
    decreases v, 0
  {
    hide SafeString;
    match v
    case Str(s) => SanitizedIsSafe(s);
    case Arr(elems) =>
      forall i | 0 <= i < |elems| ensures Accepted(SanitizeValue(v).elems[i], d + 1, LIMITS) {
        SanitizedIsAccepted(elems[i], d + 1);
      }
    case Obj(fields) => MembersAreAccepted(v, SortedKeys(fields.Keys), d);
    case _ =>
  }

  lemma {:induction false} MembersAreAccepted(v: Value, keys: seq<string>, d: nat)
    requires v.Obj? && (forall i | 0 <= i < |keys| :: keys[i] in v.fields) && NestsAtMost(v, MAX_DEPTH - d)
    ensures forall k | k in SanitizeMembers(v, keys) ::
              SafeString(k) && Accepted(SanitizeMembers(v, keys)[k], d + 1, LIMITS)
    decreases v, 0, |keys|
  {
    hide SafeString, Accepted;
    if keys != [] {
      var k := keys[|keys| - 1];
      MembersAreAccepted(v, keys[..|keys| - 1], d);
      SanitizedIsSafe(k);
      SanitizedIsAccepted(v.fields[k], d + 1);
    }
  }

  lemma {:induction false} SanitizedIsSerialisable(v: Value)
    requires Serialisable(v)
    ensures Serialisable(SanitizeValue(v))
    decreases v, 0
  {
    match v
    case Arr(elems) =>
      forall i | 0 <= i < |elems| ensures Serialisable(SanitizeValue(v).elems[i]) {
        SanitizedIsSerialisable(elems[i]);
      }
    case Obj(fields) => MembersAreSerialisable(v, SortedKeys(fields.Keys));
    case _ =>
  }

  lemma {:induction false} MembersAreSerialisable(v: Value, keys: seq<string>)
    requires v.Obj? && (forall i | 0 <= i < |keys| :: keys[i] in v.fields) && Serialisable(v)
    ensures forall k | k in SanitizeMembers(v, keys) :: Serialisable(SanitizeMembers(v, keys)[k])
    decreases v, 0, |keys|
  {
    hide SafeString;
    if keys != [] {
      var k := keys[|keys| - 1];
      MembersAreSerialisable(v, keys[..|keys| - 1]);
      SanitizedIsSerialisable(v.fields[k]);
    }
  }

  // ----- audit records -----

  function SanitizeAll(ss: seq<string>): seq<string> {
    seq(|ss|, i requires 0 <= i < |ss| => SanitizeString(ss[i]))
  }

  /** The sanitising part of appendAuditAndHWMLocked; the two hashes are the ledger's own. */
  ghost function SanitizeRecord(r: Chain.AuditRecord): Chain.AuditRecord {
    r.(gatewayId := SanitizeString(r.gatewayId), ledgerId := SanitizeString(r.ledgerId),
       decision := SanitizeString(r.decision), principalId := SanitizeString(r.principalId),
       approvalJti := SanitizeString(r.approvalJti),
       scopes := Chain.Some(if r.scopes.None? then [] else SanitizeAll(r.scopes.value)),
       args := Chain.Some(if r.args.None? then map[] else SanitizeValue(Obj(r.args.value)).fields),
       details := map k | k in r.details :: SanitizeValue(r.details[k]))
  }

  /** What a caller may pass: int53 numbers, arguments at most 15 levels deep, and
      descriptive members under their fixed names and of their types. */
  ghost predicate Appendable(r: Chain.AuditRecord) {
    && IsInt53(r.seqNo) && SafeString(r.prevHash) && SafeString(r.recordHash)
    && (r.args.Some? ==> NestsAtMost(Obj(r.args.value), MAX_DEPTH - 1) && Serialisable(Obj(r.args.value)))
    && AuditLine.DetailsOk(r.details)
    && forall k | k in r.details :: SafeString(k) && NestsAtMost(r.details[k], MAX_DEPTH - 1) && Serialisable(r.details[k])
  }

  /** A present value that the parser accepts one level down. */
  ghost predicate Fine(v: R.Option<Value>) {
    v.Some? ==> Accepted(v.value, 1, LIMITS) && Serialisable(v.value)
  }

  lemma {:induction false} FieldsAreFine(names: seq<string>, vals: seq<R.Option<Value>>)
    requires |names| == |vals| && (forall i | 0 <= i < |names| :: SafeString(names[i]) && Fine(vals[i]))
    ensures forall k | k in R.Fields(names, vals) :: SafeString(k) && Fine(R.Some(R.Fields(names, vals)[k]))
  {
    hide SafeString, Fine;
    if names != [] {
      var n := |names| - 1;
      FieldsAreFine(names[..n], vals[..n]);
    }
  }

  lemma NamesAreSafe()
    ensures forall i | 0 <= i < |AuditLine.NAMES| :: SafeString(AuditLine.NAMES[i])
  {
  }

  lemma StringsAreFine(s: string)
    ensures Fine(R.Some(Str(SanitizeString(s)))) && Fine(R.OptStr(SanitizeString(s)))
    ensures SafeString(s) ==> Fine(R.Some(Str(s))) && Fine(R.OptStr(s))
  {
    hide SafeString;
    SanitizedIsSafe(s);
  }

  lemma ScopesAreFine(ss: seq<string>)
    ensures Fine(R.Some(Arr(AuditLine.Strings(SanitizeAll(ss)))))
  {
    hide SafeString, SanitizeString;
    var v := Arr(AuditLine.Strings(SanitizeAll(ss)));
    forall i | 0 <= i < |v.elems| ensures Accepted(v.elems[i], 2, LIMITS) && Serialisable(v.elems[i]) {
      SanitizedIsSafe(ss[i]);
      assert v.elems[i] == Str(SanitizeString(ss[i]));
    }
  }

  lemma ArgsAreFine(args: map<string, Value>)
    requires NestsAtMost(Obj(args), MAX_DEPTH - 1) && Serialisable(Obj(args))
    ensures Fine(R.Some(SanitizeValue(Obj(args)))) && SanitizeValue(Obj(args)).Obj?
  {
    SanitizedIsAccepted(Obj(args), 1);
    SanitizedIsSerialisable(Obj(args));
  }

  lemma EmptyIsFine()
    ensures Fine(R.Some(Obj(map[])))
  {
  }

  lemma ValuesAreFine(r: Chain.AuditRecord)
    requires Appendable(r)
    ensures forall i | 0 <= i < |AuditLine.NAMES| :: Fine(AuditLine.RecordValues(SanitizeRecord(r))[i])
  {
    hide Fine, SafeString, SanitizeString, SanitizeValue, NestsAtMost, Serialisable, AuditLine.DetailsOk,
         SanitizeAll;
    StringsAreFine(r.gatewayId);
    StringsAreFine(r.ledgerId);
    StringsAreFine(r.decision);
    StringsAreFine(r.principalId);
    StringsAreFine(r.approvalJti);
    StringsAreFine(r.prevHash);
    StringsAreFine(r.recordHash);
    ScopesAreFine(if r.scopes.None? then [] else r.scopes.value);
    NoScopes();
    EmptyIsFine();
    if r.args.Some? {
      ArgsAreFine(r.args.value);
    }
    NumberIsFine(r.seqNo);
  }

  lemma NoScopes()
    ensures SanitizeAll([]) == []
  {
  }

  lemma NumberIsFine(n: int)
    requires IsInt53(n)
    ensures Fine(R.Some(Num(n)))
  {
  }

  /** The lemma about one object: all members fine makes the object accepted. */
  lemma ObjectIsFine(fields: map<string, Value>)
    requires forall k | k in fields :: SafeString(k) && Fine(R.Some(fields[k]))
    ensures Accepted(Obj(fields), 0, LIMITS) && Serialisable(Obj(fields))
  {
    hide SafeString;
  }

  /** A sanitised record within the size cap is one that reads back. */
  lemma SanitizedFits(r: Chain.AuditRecord)
    requires Appendable(r) && Utf8Length(AuditLine.Format(SanitizeRecord(r))) <= AuditLine.MAX_LINE
    ensures AuditLine.Fits(SanitizeRecord(r))
  {
    hide Fine, SafeString, AuditLine.Format, AuditLine.RecordValues, Accepted, Serialisable,
         R.Fields, SanitizeValue, NestsAtMost, AuditLine.DetailsOk;
    var r' := SanitizeRecord(r);
    DetailsStayOk(r.details, r'.details);
    NamesAreSafe();
    ValuesAreFine(r);
    FieldsAreFine(AuditLine.NAMES, AuditLine.RecordValues(r'));
    forall k | k in r'.details ensures SafeString(k) && Fine(R.Some(r'.details[k])) {
      DetailIsFine(r.details[k]);
    }
    ObjectIsFine(AuditLine.RecordFields(r'));
  }

  /** Main result: whatever strings reach the audit log, every appended line within
      the size cap parses again to the record it was written for. */
  lemma AppendedLineReparses(r: Chain.AuditRecord)
    requires Appendable(r) && Utf8Length(AuditLine.Format(SanitizeRecord(r))) <= AuditLine.MAX_LINE
    ensures AuditLine.Parse(AuditLine.Format(SanitizeRecord(r))) == F.Some(SanitizeRecord(r))
  {
    hide AuditLine.Format, AuditLine.Parse, AuditLine.Fits, SanitizeRecord, Appendable;
    SanitizedFits(r);
    AuditLine.FormatParses(SanitizeRecord(r));
  }

  lemma DetailsStayOk(details: map<string, Value>, after: map<string, Value>)
    requires AuditLine.DetailsOk(details)
    requires after.Keys == details.Keys && forall k | k in details :: after[k] == SanitizeValue(details[k])
    ensures AuditLine.DetailsOk(after)
  {
    hide AuditLine.DetailOk;
    forall n | n in after ensures AuditLine.DetailOk(n, after[n]) {
      DetailStaysOk(n, details[n]);
    }
  }

  lemma DetailStaysOk(n: string, v: Value)
    requires AuditLine.DetailOk(n, v)
    ensures AuditLine.DetailOk(n, SanitizeValue(v))
  {
    hide EscapeUnsafe;
    if v.Str? && v.s != "" {
      NotEmptied(v.s);
    }
  }

  lemma NotEmptied(s: string)
    requires s != ""
    ensures SanitizeString(s) != ""
  {
  }

  lemma DetailIsFine(v: Value)
    requires NestsAtMost(v, MAX_DEPTH - 1) && Serialisable(v)
    ensures Fine(R.Some(SanitizeValue(v)))
  {
    SanitizedIsAccepted(v, 1);
    SanitizedIsSerialisable(v);
  }
}
