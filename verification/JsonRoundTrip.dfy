/** Strict decoding undoes canonical serialisation.

    The parser is followed through the text that the serialiser writes, with any
    text after it: escapes, digits, elements and members in sorted order. */
module JsonRoundTrip {
  import opened Utf16
  import opened Json

  /** The decoder under the limits lim accepts v at nesting depth d. */
  ghost predicate Accepted(v: Value, d: nat, lim: Limits)
    decreases v
  {
    match v
    case Str(s) => lim.safeOnly ==> SafeString(s)
    case Arr(elems) => d + 1 <= lim.maxDepth && forall i | 0 <= i < |elems| :: Accepted(elems[i], d + 1, lim)
    case Obj(fields) =>
      && d + 1 <= lim.maxDepth
      && (forall k | k in fields :: (lim.safeOnly ==> SafeString(k)) && Accepted(fields[k], d + 1, lim))
      && (lim.rejectCaseCollision ==> DistinctLower(fields.Keys))
    case _ => true
  }

  ghost predicate DistinctLower(keys: set<string>) {
    forall a, b | a in keys && b in keys && a != b :: Lower(a) != Lower(b)
  }

  // ----- string literals -----

  lemma HexDigitValue(v: int)
    requires 0 <= v < 16
    ensures HexValue(HexDigit(v)) == v
  {
  }

  lemma ParseControl(c: char, tail: string)
    requires c as int < 0x20
    ensures ParseUnicodeEscape("00" + [HexDigit(c as int / 16), HexDigit(c as int % 16)] + tail) == Ok((c, tail))
  {
    var h, l := HexDigit(c as int / 16), HexDigit(c as int % 16);
    var s := "00" + [h, l] + tail;
    HexDigitValue(c as int / 16);
    HexDigitValue(c as int % 16);
    assert s[0] == '0' && s[1] == '0' && s[2] == h && s[3] == l;
    assert s[4..] == tail;
    assert CodeUnit(s) == c as int;
  }

  lemma ParseShortEscape(e: string, c: char, tail: string)
    requires |e| == 2 && e[0] == '\\' && e == Escape(c)
    ensures ParseChars(e + tail) == PrependChar(c, ParseChars(tail))
  {
    var s := e + tail;
    assert s[0] == e[0] && s[1..][0] == e[1] && s[1..][1..] == tail;
  }

  lemma ParseLongEscape(c: char, tail: string)
    requires |Escape(c)| > 2
    ensures ParseChars(Escape(c) + tail) == PrependChar(c, ParseChars(tail))
  {
    var s := Escape(c) + tail;
    var digits := "00" + [HexDigit(c as int / 16), HexDigit(c as int % 16)];
    assert s[0] == '\\' && s[1..][0] == 'u' && s[1..][1..] == digits + tail;
    ParseControl(c, tail);
  }

  lemma ParseEscaped(c: char, tail: string)
    ensures ParseChars(Escape(c) + tail) == PrependChar(c, ParseChars(tail))
  {
    if |Escape(c)| == 1 {
      assert (Escape(c) + tail)[1..] == tail;
    } else if |Escape(c)| == 2 {
      ParseShortEscape(Escape(c), c, tail);
    } else {
      ParseLongEscape(c, tail);
    }
  }

  lemma {:induction false} ParseEscapeAll(t: string, rest: string)
    ensures ParseChars(EscapeAll(t) + "\"" + rest) == Ok((t, rest))
  {
    if t == "" {
      assert EscapeAll(t) + "\"" + rest == "\"" + rest;
    } else {
      var tail := EscapeAll(t[1..]) + "\"" + rest;
      ParseEscapeAll(t[1..], rest);
      assert EscapeAll(t) + "\"" + rest == Escape(t[0]) + tail;
      ParseEscaped(t[0], tail);
      assert t == [t[0]] + t[1..];
    }
  }

  // ----- integers -----

  lemma {:induction false} NatTextDigits(n: nat)
    ensures forall i | 0 <= i < |NatText(n)| :: IsDigit(NatText(n)[i])
    ensures NatValue(NatText(n)) == n
    ensures |NatText(n)| > 1 ==> NatText(n)[0] != '0'
  {
    if n >= 10 {
      NatTextDigits(n / 10);
      var t := NatText(n);
      assert t[..|t| - 1] == NatText(n / 10);
      if |NatText(n / 10)| == 1 {
        assert n / 10 < 10;
      }
    } else {
      assert NatText(n)[..0] == "";
    }
  }

  /** Text that cannot continue a number. */
  predicate EndsNumber(rest: string) {
    rest == "" || rest[0] == ',' || rest[0] == ']' || rest[0] == '}'
  }

  lemma {:induction false} DigitRunOf(t: string, rest: string)
    requires forall i | 0 <= i < |t| :: IsDigit(t[i])
    requires EndsNumber(rest)
    ensures DigitRun(t + rest) == |t|
  {
    if t == "" {
      assert t + rest == rest;
    } else {
      assert (t + rest)[1..] == t[1..] + rest;
      DigitRunOf(t[1..], rest);
    }
  }

  lemma ParseDigits(t: string, neg: bool, rest: string)
    requires t != "" && (forall i | 0 <= i < |t| :: IsDigit(t[i])) && (|t| > 1 ==> t[0] != '0')
    requires EndsNumber(rest) && IsInt53(Signed(neg, NatValue(t)))
    ensures ParseUnsigned(t + rest, neg) == Ok((Num(Signed(neg, NatValue(t))), rest))
  {
    var u := t + rest;
    DigitRunOf(t, rest);
    assert u[..|t|] == t && u[|t|..] == rest && u[0] == t[0];
  }

  lemma ParseIntText(n: int, rest: string)
    requires IsInt53(n) && EndsNumber(rest)
    ensures ParseNumber(IntText(n) + rest) == Ok((Num(n), rest))
    ensures IntText(n)[0] == '-' || IsDigit(IntText(n)[0])
  {
    hide ParseUnsigned, NatText, NatValue;
    var m := if n < 0 then -n else n;
    NatTextDigits(m);
    ParseDigits(NatText(m), n < 0, rest);
    var s := IntText(n) + rest;
    if n < 0 {
      assert s[0] == '-' && s[1..] == NatText(m) + rest;
    } else {
      assert s[0] == NatText(m)[0];
    }
  }

  // ----- the first character decides the branch -----

  lemma TextHead(v: Value)
    requires Serialisable(v)
    ensures Text(v) != "" && !IsWs(Text(v)[0]) && Text(v)[0] != ']' && Text(v)[0] != '}'
  {
    match v {
      case Num(n) => ParseIntText(n, "");
      case _ =>
    }
  }

  // ----- the main induction -----

  /** Parse reads back exactly v and leaves the rest, if the limits accept v;
      otherwise it fails. */
  ghost predicate ReadsBack(r: Result<(Value, string)>, v: Value, rest: string, accepted: bool) {
    if accepted then r == Ok((v, rest)) else r.Err?
  }

  lemma {:induction false} ParseText(v: Value, d: nat, lim: Limits, rest: string)
    requires Serialisable(v) && EndsNumber(rest)
    ensures ReadsBack(Parse(Text(v) + rest, d, lim), v, rest, Accepted(v, d, lim))
    decreases v, 2, 0
  {
    hide Parse;
    match v {
      case Null => ParseNull(d, lim, rest);
      case Bool(b) => ParseBool(b, d, lim, rest);
      case Num(n) => ParseNum(n, d, lim, rest);
      case Str(str) => ParseStr(str, d, lim, rest);
      case Arr(elems) => ParseArrayText(v, d, lim, rest);
      case Obj(fields) => ParseObjectText(v, d, lim, rest);
    }
  }

  lemma ParseNull(d: nat, lim: Limits, rest: string)
    ensures Parse("null" + rest, d, lim) == Ok((Null, rest))
  {
    var s := "null" + rest;
    assert s[0] == 'n' && s[..4] == "null" && s[4..] == rest;
  }

  lemma ParseNum(n: int, d: nat, lim: Limits, rest: string)
    requires IsInt53(n) && EndsNumber(rest)
    ensures Parse(IntText(n) + rest, d, lim) == Ok((Num(n), rest))
  {
    var s := IntText(n) + rest;
    ParseIntText(n, rest);
    assert s[0] == IntText(n)[0] && SkipWs(s) == s;
  }

  lemma ParseStr(str: string, d: nat, lim: Limits, rest: string)
    ensures ReadsBack(Parse(StringText(str) + rest, d, lim), Str(str), rest, lim.safeOnly ==> SafeString(str))
  {
    var s := StringText(str) + rest;
    assert s[0] == '"' && SkipWs(s) == s && s[1..] == EscapeAll(str) + "\"" + rest;
    ParseEscapeAll(str, rest);
  }

  lemma ParseBool(b: bool, d: nat, lim: Limits, rest: string)
    ensures Parse(Text(Bool(b)) + rest, d, lim) == Ok((Bool(b), rest))
  {
    var s := Text(Bool(b)) + rest;
    assert s[0] == Text(Bool(b))[0];
    if b {
      assert s[..4] == "true" && s[4..] == rest;
    } else {
      assert s[..5] == "false" && s[5..] == rest;
    }
  }

  lemma ParseBracket(body: string, d: nat, lim: Limits)
    requires body != "" && !IsWs(body[0]) && body[0] != ']'
    ensures Parse("[" + body, d, lim)
         == if d + 1 > lim.maxDepth then Err(TooDeep) else ParseElements(body, d + 1, lim, [])
  {
    var s := "[" + body;
    assert s[1..] == body && SkipWs(s) == s && SkipWs(body) == body;
  }

  lemma ParseEmpty(d: nat, lim: Limits, rest: string)
    ensures Parse("[]" + rest, d, lim) == if d + 1 > lim.maxDepth then Err(TooDeep) else Ok((Arr([]), rest))
    ensures Parse("{}" + rest, d, lim) == if d + 1 > lim.maxDepth then Err(TooDeep) else Ok((Obj(map[]), rest))
  {
    var s, t := "[]" + rest, "{}" + rest;
    assert s[1..] == "]" + rest && t[1..] == "}" + rest;
    assert s[1..][1..] == rest && t[1..][1..] == rest;
  }

  lemma {:induction false} ParseArrayText(v: Value, d: nat, lim: Limits, rest: string)
    requires v.Arr? && Serialisable(v) && EndsNumber(rest)
    ensures ReadsBack(Parse(Text(v) + rest, d, lim), v, rest, Accepted(v, d, lim))
    decreases v, 1, 0
  {
    hide Parse;
    if v.elems == [] {
      ParseEmpty(d, lim, rest);
    } else {
      var body := ElementsText(v, 0) + "]" + rest;
      assert Text(v) + rest == "[" + body;
      TextHead(v.elems[0]);
      assert body[0] == Text(v.elems[0])[0];
      ParseBracket(body, d, lim);
      ParseElementsText(v, 0, d + 1, lim, rest);
      assert v.elems[..0] == [];
    }
  }

  ghost predicate ElementsAccepted(v: Value, i: nat, d: nat, lim: Limits)
    requires v.Arr?
  {
    forall j | i <= j < |v.elems| :: Accepted(v.elems[j], d, lim)
  }

  /** What follows element i, up to the end of the array and beyond. */
  ghost function AfterElement(v: Value, i: nat, rest: string): string
    requires v.Arr? && i < |v.elems|
  {
    if i + 1 == |v.elems| then "]" + rest else "," + (ElementsText(v, i + 1) + "]" + rest)
  }

  lemma SplitElementsText(v: Value, i: nat, rest: string)
    requires v.Arr? && i < |v.elems|
    ensures ElementsText(v, i) + "]" + rest == Text(v.elems[i]) + AfterElement(v, i, rest)
    ensures var tail := AfterElement(v, i, rest);
            EndsNumber(tail) && SkipWs(tail) == tail && tail != ""
            && tail[1..] == if i + 1 == |v.elems| then rest else ElementsText(v, i + 1) + "]" + rest
  {
  }

  lemma {:induction false} ParseElementsText(v: Value, i: nat, d: nat, lim: Limits, rest: string)
    requires v.Arr? && i < |v.elems| && Serialisable(v)
    ensures ReadsBack(ParseElements(ElementsText(v, i) + "]" + rest, d, lim, v.elems[..i]), v, rest,
                      ElementsAccepted(v, i, d, lim))
    decreases v, 0, |v.elems| - i
  {
    hide Parse, Accepted, Text, ElementsText;
    var e := v.elems[i];
    var tail := AfterElement(v, i, rest);
    SplitElementsText(v, i, rest);
    ParseText(e, d, lim, tail);
    if Accepted(e, d, lim) {
      assert v.elems[..i] + [e] == v.elems[..i + 1];
      if i + 1 == |v.elems| {
        assert v.elems[..i + 1] == v.elems;
      } else {
        ParseElementsText(v, i + 1, d, lim, rest);
      }
    }
  }

  lemma ParseBrace(body: string, d: nat, lim: Limits)
    requires body != "" && body[0] == '"'
    ensures Parse("{" + body, d, lim)
         == if d + 1 > lim.maxDepth then Err(TooDeep) else ParseMembers(body, d + 1, lim, map[])
  {
    var s := "{" + body;
    assert s[1..] == body && SkipWs(s) == s;
  }

  /** The members of v with the given keys. */
  ghost function Select(v: Value, keys: seq<string>): (m: map<string, Value>)
    requires v.Obj? && forall i | 0 <= i < |keys| :: keys[i] in v.fields
  {
    map k | k in keys :: v.fields[k]
  }

  ghost predicate Distinct(keys: seq<string>) {
    forall i, j | 0 <= i < j < |keys| :: keys[i] != keys[j]
  }

  lemma {:induction false} SortedKeysDistinct(keys: set<string>)
    ensures Distinct(SortedKeys(keys))
  {
    if keys != {} {
      var s := SortedKeys(keys);
      var rest := keys - {s[0]};
      SortedKeysDistinct(rest);
      assert s == [s[0]] + SortedKeys(rest);
    }
  }

  /** The members with the given keys are accepted after those with keys in seen. */
  ghost predicate MembersAccepted(v: Value, keys: seq<string>, d: nat, lim: Limits, seen: set<string>)
    requires v.Obj? && forall i | 0 <= i < |keys| :: keys[i] in v.fields
  {
    keys == [] ||
    (&& (lim.safeOnly ==> SafeString(keys[0]))
     && (lim.rejectCaseCollision ==> forall k | k in seen :: Lower(k) != Lower(keys[0]))
     && Accepted(v.fields[keys[0]], d, lim)
     && MembersAccepted(v, keys[1..], d, lim, seen + {keys[0]}))
  }

  lemma {:induction false} MembersAcceptedMeans(v: Value, keys: seq<string>, d: nat, lim: Limits, seen: set<string>)
    requires v.Obj? && (forall i | 0 <= i < |keys| :: keys[i] in v.fields)
    requires Distinct(keys) && forall i | 0 <= i < |keys| :: keys[i] !in seen
    requires lim.rejectCaseCollision ==> DistinctLower(seen)
    ensures MembersAccepted(v, keys, d, lim, seen) <==>
            ((forall k | k in keys :: (lim.safeOnly ==> SafeString(k)) && Accepted(v.fields[k], d, lim))
             && (lim.rejectCaseCollision ==> DistinctLower(seen + set k | k in keys)))
  {
    if keys == [] {
      assert seen + (set k | k in keys) == seen;
    } else {
      var k0 := keys[0];
      assert keys == [k0] + keys[1..];
      assert seen + (set k | k in keys) == (seen + {k0}) + (set k | k in keys[1..]);
      if lim.rejectCaseCollision && !(forall k | k in seen :: Lower(k) != Lower(k0)) {
        var k :| k in seen && Lower(k) == Lower(k0);
        assert k0 !in seen;
      } else {
        MembersAcceptedMeans(v, keys[1..], d, lim, seen + {k0});
      }
    }
  }

  lemma ObjectAccepted(v: Value, keys: seq<string>, d: nat, lim: Limits)
    requires v.Obj? && Distinct(keys) && (forall i | 0 <= i < |keys| :: keys[i] in v.fields)
    requires v.fields.Keys == set k | k in keys
    ensures Accepted(v, d, lim) <==> d + 1 <= lim.maxDepth && MembersAccepted(v, keys, d + 1, lim, {})
  {
    MembersAcceptedMeans(v, keys, d + 1, lim, {});
    assert {} + (set k | k in keys) == v.fields.Keys;
    assert forall k :: k in keys <==> k in v.fields.Keys;
  }

  lemma SelectAll(v: Value)
    requires v.Obj?
    ensures map[] + Select(v, SortedKeys(v.fields.Keys)) == v.fields
  {
  }

  lemma MembersTextHead(v: Value, keys: seq<string>)
    requires v.Obj? && keys != [] && forall i | 0 <= i < |keys| :: keys[i] in v.fields
    ensures MembersText(v, keys) != "" && MembersText(v, keys)[0] == '"'
  {
  }

  lemma ObjectText(v: Value, rest: string)
    requires v.Obj?
    ensures v.fields == map[] ==> Text(v) == "{}"
    ensures var keys := SortedKeys(v.fields.Keys);
            v.fields != map[] ==>
              var body := MembersText(v, keys) + "}" + rest;
              body != "" && body[0] == '"' && Text(v) + rest == "{" + body
  {
    hide MembersText;
    if v.fields != map[] {
      var m := MembersText(v, SortedKeys(v.fields.Keys));
      MembersTextHead(v, SortedKeys(v.fields.Keys));
      assert ("{" + m + "}") + rest == "{" + (m + "}" + rest);
    }
  }

  lemma {:induction false} ParseObjectText(v: Value, d: nat, lim: Limits, rest: string)
    requires v.Obj? && Serialisable(v) && EndsNumber(rest)
    ensures ReadsBack(Parse(Text(v) + rest, d, lim), v, rest, Accepted(v, d, lim))
    decreases v, 1, 0
  {
    hide Parse, ParseMembers, Accepted, Text, MembersText, Select;
    var keys := SortedKeys(v.fields.Keys);
    SortedKeysDistinct(v.fields.Keys);
    assert v.fields.Keys == set k | k in keys;
    ObjectAccepted(v, keys, d, lim);
    ObjectText(v, rest);
    if v.fields == map[] {
      ParseEmpty(d, lim, rest);
    } else {
      ParseBrace(MembersText(v, keys) + "}" + rest, d, lim);
      ParseMembersText(v, keys, d + 1, lim, map[], rest);
      SelectAll(v);
    }
  }

  /** One member: the literal, the colon, the value and what follows it. */
  lemma ParseMember(k0: string, text: string, d: nat, lim: Limits, acc: map<string, Value>)
    ensures ParseMembers(StringText(k0) + ":" + text, d, lim, acc)
         == if lim.safeOnly && !SafeString(k0) then Err(UnsafeString)
            else if k0 in acc then Err(DuplicateKey)
            else if lim.rejectCaseCollision && exists k | k in acc :: Lower(k) == Lower(k0) then Err(CaseCollision)
            else match Parse(text, d, lim)
                 case Err(e) => Err(e)
                 case Ok((v, r3)) => ParseMembersTail(r3, d, lim, acc[k0 := v])
  {
    var s := StringText(k0) + ":" + text;
    var afterKey := ":" + text;
    assert s[1..] == EscapeAll(k0) + "\"" + afterKey;
    ParseEscapeAll(k0, afterKey);
    assert SkipWs(s) == s && SkipWs(afterKey) == afterKey && afterKey[1..] == text;
  }

  lemma ExtendMembers(v: Value, keys: seq<string>, acc: map<string, Value>)
    requires v.Obj? && keys != [] && forall i | 0 <= i < |keys| :: keys[i] in v.fields
    ensures acc[keys[0] := v.fields[keys[0]]] + Select(v, keys[1..]) == acc + Select(v, keys)
  {
    assert keys == [keys[0]] + keys[1..];
  }

  /** What follows the first of the given members, up to the end of the object and beyond. */
  ghost function AfterMember(v: Value, keys: seq<string>, rest: string): string
    requires v.Obj? && keys != [] && forall i | 0 <= i < |keys| :: keys[i] in v.fields
  {
    if |keys| == 1 then "}" + rest else "," + (MembersText(v, keys[1..]) + "}" + rest)
  }

  lemma Regroup(a: string, b: string, c: string, t: string, rest: string)
    ensures (a + b + c + t) + "}" + rest == a + b + (c + (t + "}" + rest))
  {
  }

  /** What a member's separator or closing brace starts. */
  lemma AfterMemberText(v: Value, keys: seq<string>, rest: string)
    requires v.Obj? && keys != [] && forall i | 0 <= i < |keys| :: keys[i] in v.fields
    ensures var t := if |keys| == 1 then "" else "," + MembersText(v, keys[1..]);
            AfterMember(v, keys, rest) == t + "}" + rest
  {
    hide MembersText;
    if |keys| > 1 {
      var m := MembersText(v, keys[1..]);
      assert "," + (m + "}" + rest) == "," + m + "}" + rest;
    } else {
      assert "" + "}" + rest == "}" + rest;
    }
  }

  lemma AfterMemberHead(v: Value, keys: seq<string>, rest: string)
    requires v.Obj? && keys != [] && forall i | 0 <= i < |keys| :: keys[i] in v.fields
    ensures var tail := AfterMember(v, keys, rest);
            EndsNumber(tail) && SkipWs(tail) == tail && tail != ""
            && tail[1..] == if |keys| == 1 then rest else MembersText(v, keys[1..]) + "}" + rest
  {
    hide MembersText;
  }

  lemma SplitMembersText(v: Value, keys: seq<string>, rest: string)
    requires v.Obj? && keys != [] && forall i | 0 <= i < |keys| :: keys[i] in v.fields
    ensures MembersText(v, keys) + "}" + rest
         == StringText(keys[0]) + ":" + (Text(v.fields[keys[0]]) + AfterMember(v, keys, rest))
    ensures var tail := AfterMember(v, keys, rest);
            EndsNumber(tail) && SkipWs(tail) == tail && tail != ""
            && tail[1..] == if |keys| == 1 then rest else MembersText(v, keys[1..]) + "}" + rest
  {
    hide Text, StringText, EndsNumber, SkipWs, AfterMember;
    AfterMemberHead(v, keys, rest);
    AfterMemberText(v, keys, rest);
    var t := if |keys| == 1 then "" else "," + MembersText(v, keys[1..]);
    Regroup(StringText(keys[0]), ":", Text(v.fields[keys[0]]), t, rest);
  }

  lemma {:induction false} ParseMembersText(v: Value, keys: seq<string>, d: nat, lim: Limits,
                                            acc: map<string, Value>, rest: string)
    requires v.Obj? && keys != [] && Serialisable(v)
    requires (forall i | 0 <= i < |keys| :: keys[i] in v.fields) && Distinct(keys)
    requires forall i | 0 <= i < |keys| :: keys[i] !in acc
    ensures ReadsBack(ParseMembers(MembersText(v, keys) + "}" + rest, d, lim, acc),
                      Obj(acc + Select(v, keys)), rest,
                      MembersAccepted(v, keys, d, lim, acc.Keys))
    decreases v, 0, |keys|
  {
    hide Parse, ParseMembers, Accepted, MembersText, Text;
    var k0 := keys[0];
    var e := v.fields[k0];
    var tail := AfterMember(v, keys, rest);
    SplitMembersText(v, keys, rest);
    ParseMember(k0, Text(e) + tail, d, lim, acc);
    ParseText(e, d, lim, tail);
    if Accepted(e, d, lim) {
      var acc' := acc[k0 := e];
      ExtendMembers(v, keys, acc);
      if |keys| == 1 {
        assert acc' + Select(v, keys[1..]) == acc';
      } else {
        ParseMembersText(v, keys[1..], d, lim, acc', rest);
        assert acc'.Keys == acc.Keys + {k0};
      }
    }
  }

  // ----- main results -----

  /** Strict decoding of the canonical text returns v exactly when the text fits
      the byte cap, v nests at most 16 deep, its strings are safe and, if asked
      for, no two keys of an object differ only in ASCII case; in every other
      case decoding fails. */
  lemma RoundTrip(v: Value, maxBytes: nat, rejectCaseCollision: bool)
    requires Serialisable(v)
    ensures var r := DecodeStrict(Text(v), maxBytes, rejectCaseCollision);
            if Utf8Length(Text(v)) <= maxBytes && Accepted(v, 0, Strict(rejectCaseCollision)) then r == Ok(v) else r.Err?
  {
    ParseText(v, 0, Strict(rejectCaseCollision), "");
    assert Text(v) + "" == Text(v);
  }

  /** Limits loose enough for v. */
  lemma {:induction false} SomeDepthSuffices(v: Value) returns (max: nat)
    ensures forall d: nat, lim: Limits :: !lim.safeOnly && !lim.rejectCaseCollision && lim.maxDepth >= d + max ==>
              Accepted(v, d, lim)
    decreases v
  {
    match v {
      case Arr(elems) =>
        max := 0;
        for i := 0 to |elems|
          invariant forall d: nat, lim: Limits, j | 0 <= j < i && !lim.safeOnly && !lim.rejectCaseCollision
                      && lim.maxDepth >= d + max :: Accepted(elems[j], d, lim)
        {
          var m := SomeDepthSuffices(elems[i]);
          max := if m > max then m else max;
        }
        max := max + 1;
      case Obj(fields) =>
        max := 0;
        var rest := fields.Keys;
        while rest != {}
          invariant rest <= fields.Keys
          invariant forall d: nat, lim: Limits, k | k in fields.Keys - rest && !lim.safeOnly && !lim.rejectCaseCollision
                      && lim.maxDepth >= d + max :: Accepted(fields[k], d, lim)
          decreases |rest|
        {
          var k :| k in rest;
          var m := SomeDepthSuffices(fields[k]);
          max := if m > max then m else max;
          rest := rest - {k};
        }
        max := max + 1;
      case _ => max := 0;
    }
  }

  /** Equal canonical texts mean equal values, with no limit on depth or strings:
      what every hash over canonical JSON rests on. */
  lemma TextIsInjective(v: Value, w: Value)
    requires Serialisable(v) && Serialisable(w)
    ensures Text(v) == Text(w) <==> v == w
  {
    hide Parse, Accepted, Text, Serialisable;
    if Text(v) == Text(w) {
      var a := SomeDepthSuffices(v);
      var b := SomeDepthSuffices(w);
      var lim := Limits(a + b, false, false);
      ParseText(v, 0, lim, "");
      ParseText(w, 0, lim, "");
    }
  }
}
