/** Records as JSON objects, and lines of canonical JSON.

    A record is a list of names with a value each; a value that is left out when
    empty is None.  Canonical text holds no newline, so one record is one line. */
module JsonRecord {
  import opened Json
  import opened JsonRoundTrip
  import opened Utf16
  import F = Framing

  datatype Option<T> = None | Some(value: T)

  /** The object with the present values under their names: a missing value is
      a member left out. */
  function Fields(names: seq<string>, vals: seq<Option<Value>>): map<string, Value>
    requires |names| == |vals|
  {
    if names == [] then map[]
    else
      var k := |names| - 1;
      var rest := Fields(names[..k], vals[..k]);
      if vals[k].Some? then rest[names[k] := vals[k].value] else rest
  }

  function Lookup(fields: map<string, Value>, name: string): Option<Value> {
    if name in fields then Some(fields[name]) else None
  }

  function Values(names: seq<string>, fields: map<string, Value>): seq<Option<Value>> {
    seq(|names|, i requires 0 <= i < |names| => Lookup(fields, names[i]))
  }

  lemma {:induction false} FieldsKeys(names: seq<string>, vals: seq<Option<Value>>)
    requires |names| == |vals|
    ensures forall n :: n in Fields(names, vals) ==> n in names
  {
    if names != [] {
      FieldsKeys(names[..|names| - 1], vals[..|names| - 1]);
    }
  }

  lemma {:induction false} FieldsAt(names: seq<string>, vals: seq<Option<Value>>, i: nat)
    requires |names| == |vals| && Distinct(names) && i < |names|
    ensures Lookup(Fields(names, vals), names[i]) == vals[i]
    decreases |names|
  {
    var k := |names| - 1;
    if i == k {
      FieldsKeys(names[..k], vals[..k]);
    } else {
      FieldsAt(names[..k], vals[..k], i);
    }
  }

  /** The values can be read back. */
  lemma ValuesOfFields(names: seq<string>, vals: seq<Option<Value>>)
    requires |names| == |vals| && Distinct(names)
    ensures Values(names, Fields(names, vals)) == vals
  {
    forall i | 0 <= i < |names| ensures Lookup(Fields(names, vals), names[i]) == vals[i] {
      FieldsAt(names, vals, i);
    }
  }

  // ----- optional members -----

  function OptStr(s: string): Option<Value> {
    if s == "" then None else Some(Str(s))
  }

  function OptNum(n: int): Option<Value> {
    if n == 0 then None else Some(Num(n))
  }

  /** How the record decoder reads a string member; a missing one is empty. */
  function AsStr(v: Option<Value>): Option<string> {
    if v.None? || v.value.Null? then Some("") else if v.value.Str? then Some(v.value.s) else None
  }

  function AsNum(v: Option<Value>): Option<int> {
    if v.None? || v.value.Null? then Some(0) else if v.value.Num? then Some(v.value.n) else None
  }

  function AsNat(v: Option<Value>): Option<nat> {
    var n := AsNum(v);
    if n.None? || n.value < 0 then None else Some(n.value)
  }

  // ----- canonical text is one line -----

  lemma EscapeIsOneLine(c: char)
    ensures F.OneLine(Escape(c))
  {
  }

  lemma OneLineConcat(a: string, b: string)
    requires F.OneLine(a) && F.OneLine(b)
    ensures F.OneLine(a + b)
  {
  }

  lemma {:induction false} EscapeAllIsOneLine(s: string)
    ensures F.OneLine(EscapeAll(s))
  {
    if s != "" {
      EscapeIsOneLine(s[0]);
      EscapeAllIsOneLine(s[1..]);
      OneLineConcat(Escape(s[0]), EscapeAll(s[1..]));
    }
  }

  lemma StringIsOneLine(s: string)
    ensures F.OneLine(StringText(s))
  {
    EscapeAllIsOneLine(s);
  }

  lemma {:induction false} NatIsOneLine(n: nat)
    ensures F.OneLine(NatText(n))
  {
    if n >= 10 {
      NatIsOneLine(n / 10);
    }
  }

  lemma {:induction false} TextIsOneLine(v: Value)
    ensures F.OneLine(Text(v))
    decreases v, 1, 0
  {
    match v
    case Null =>
    case Bool(b) =>
    case Num(n) => NatIsOneLine(if n < 0 then -n else n);
    case Str(s) => StringIsOneLine(s);
    case Arr(elems) =>
      if elems != [] {
        ElementsAreOneLine(v, 0);
      }
    case Obj(fields) =>
      if fields != map[] {
        MembersAreOneLine(v, SortedKeys(fields.Keys));
      }
  }

  lemma {:induction false} ElementsAreOneLine(v: Value, i: nat)
    requires v.Arr? && i < |v.elems|
    ensures F.OneLine(ElementsText(v, i))
    decreases v, 0, |v.elems| - i
  {
    TextIsOneLine(v.elems[i]);
    if i + 1 < |v.elems| {
      ElementsAreOneLine(v, i + 1);
    }
  }

  lemma {:induction false} MembersAreOneLine(v: Value, keys: seq<string>)
    requires v.Obj? && keys != [] && forall i | 0 <= i < |keys| :: keys[i] in v.fields
    ensures F.OneLine(MembersText(v, keys))
    decreases v, 0, |keys|
  {
    hide Text, StringText;
    StringIsOneLine(keys[0]);
    TextIsOneLine(v.fields[keys[0]]);
    if |keys| > 1 {
      MembersAreOneLine(v, keys[1..]);
    }
  }

  lemma ObjectTextHead(fields: map<string, Value>)
    ensures Text(Obj(fields)) != "" && Text(Obj(fields))[0] == '{'
  {
  }

  /** Strict decoding of an object's canonical text. */
  lemma ObjectRoundTrip(fields: map<string, Value>, rejectCaseCollision: bool)
    requires Serialisable(Obj(fields))
    ensures var r := DecodeStrictObject(Text(Obj(fields)), rejectCaseCollision);
            if Utf8Length(Text(Obj(fields))) <= 65536 && Accepted(Obj(fields), 0, Strict(rejectCaseCollision))
            then r == Ok(fields) else r.Err?
  {
    hide Text, DecodeStrict, Accepted, Utf8Length, Serialisable;
    ObjectTextHead(fields);
    RoundTrip(Obj(fields), 65536, rejectCaseCollision);
    assert !IsSpace(Text(Obj(fields))[0]);
  }
}
