/** JSON values, the RFC 8785 serialiser and the strict decoder
    (internal/authz/jcs.go).  Strings are sequences of Unicode scalar values. */
module Json {
  import opened Utf16

  datatype Value =
    | Null
    | Bool(b: bool)
    | Num(n: int)
    | Str(s: string)
    | Arr(elems: seq<Value>)
    | Obj(fields: map<string, Value>)

  datatype Error =
    | Malformed
    | UnsafeString
    | DuplicateKey
    | CaseCollision
    | TooDeep
    | BadInteger
    | FractionOrExponent
    | TooLarge
    | TrailingTokens
    | NotAnObject

  datatype Result<T> = Ok(value: T) | Err(error: Error)

  const MAX_DEPTH: nat := 16
  const MAX_SAFE: int := 9007199254740991

  predicate IsInt53(n: int) { -MAX_SAFE <= n <= MAX_SAFE }

  // ----- string hygiene -----

  /** ValidateSafeJSONString accepts this character. */
  predicate SafeChar(c: char) {
    var r := c as int;
    && r != 0xFFFD
    && (r <= 0x1F ==> r == 0x09 || r == 0x0A || r == 0x0D)
    && !(0x7F <= r <= 0x9F)
    && !(0x202A <= r <= 0x202E) && !(0x2066 <= r <= 0x2069)
    && r != 0x200E && r != 0x200F && r != 0x061C
  }

  predicate SafeString(s: string) {
    forall k | 0 <= k < |s| :: SafeChar(s[k])
  }

  function LowerChar(c: char): char {
    if 'A' <= c <= 'Z' then c - 'A' + 'a' else c
  }

  /** asciiLower */
  function Lower(s: string): (l: string)
    ensures |l| == |s|
  {
    seq(|s|, i requires 0 <= i < |s| => LowerChar(s[i]))
  }

  // ----- the serialiser -----

  function HexDigit(v: int): char
    requires 0 <= v < 16
  {
    if v < 10 then '0' + v as char else 'a' + (v - 10) as char
  }

  /** One character of a string literal (section 3.2.2.2 of RFC 8785). */
  function Escape(c: char): (e: string)
    ensures e != ""
  {
    var r := c as int;
    if r == 8 then "\\b"
    else if r == 9 then "\\t"
    else if r == 10 then "\\n"
    else if r == 12 then "\\f"
    else if r == 13 then "\\r"
    else if r < 0x20 then "\\u00" + [HexDigit(r / 16), HexDigit(r % 16)]
    else if c == '"' then "\\\""
    else if c == '\\' then "\\\\"
    else [c]
  }

  function EscapeAll(s: string): string {
    if s == "" then "" else Escape(s[0]) + EscapeAll(s[1..])
  }

  function StringText(s: string): string {
    "\"" + EscapeAll(s) + "\""
  }

  function Digit(v: int): char
    requires 0 <= v < 10
  {
    '0' + v as char
  }

  function NatText(n: nat): (t: string)
    ensures t != ""
  {
    if n < 10 then [Digit(n)] else NatText(n / 10) + [Digit(n % 10)]
  }

  /** strconv.FormatInt(n, 10) */
  function IntText(n: int): string {
    if n < 0 then "-" + NatText(-n) else NatText(n)
  }

  /** writeJCSValue, for values whose integers it accepts. */
  ghost function Text(v: Value): string
    decreases v
  {
    match v
    case Null => "null"
    case Bool(b) => if b then "true" else "false"
    case Num(n) => IntText(n)
    case Str(s) => StringText(s)
    case Arr(elems) => if elems == [] then "[]" else "[" + ElementsText(v, 0) + "]"
    case Obj(fields) => if fields == map[] then "{}" else "{" + MembersText(v, SortedKeys(fields.Keys)) + "}"
  }

  ghost function ElementsText(v: Value, i: nat): string
    requires v.Arr? && i < |v.elems|
    decreases v, |v.elems| - i
  {
    Text(v.elems[i]) + (if i + 1 == |v.elems| then "" else "," + ElementsText(v, i + 1))
  }

  ghost function MembersText(v: Value, keys: seq<string>): string
    requires v.Obj? && keys != [] && forall i | 0 <= i < |keys| :: keys[i] in v.fields
    decreases v, |keys|
  {
    StringText(keys[0]) + ":" + Text(v.fields[keys[0]])
    + (if |keys| == 1 then "" else "," + MembersText(v, keys[1..]))
  }

  /** Every integer in v is int53: the values MarshalJCS accepts. */
  ghost predicate Serialisable(v: Value) {
    match v
    case Num(n) => IsInt53(n)
    case Arr(elems) => forall i | 0 <= i < |elems| :: Serialisable(elems[i])
    case Obj(fields) => forall k | k in fields :: Serialisable(fields[k])
    case _ => true
  }

  // ----- the strict decoder -----

  /** What a decoding run refuses. */
  datatype Limits = Limits(maxDepth: nat, safeOnly: bool, rejectCaseCollision: bool)

  function Strict(rejectCaseCollision: bool): Limits {
    Limits(MAX_DEPTH, true, rejectCaseCollision)
  }

  predicate IsWs(c: char) { c == ' ' || c == '\t' || c == '\n' || c == '\r' }

  function SkipWs(s: string): (r: string)
    ensures |r| <= |s|
    ensures s == "" || !IsWs(s[0]) ==> r == s
  {
    if s != "" && IsWs(s[0]) then SkipWs(s[1..]) else s
  }

  predicate IsDigit(c: char) { '0' <= c <= '9' }

  function HexValue(c: char): int {
    if IsDigit(c) then c as int - '0' as int
    else if 'a' <= c <= 'f' then c as int - 'a' as int + 10
    else if 'A' <= c <= 'F' then c as int - 'A' as int + 10
    else -1
  }

  /** The code unit of a four-digit \u escape whose digits start s, or -1. */
  function CodeUnit(s: string): (u: int)
    ensures -1 <= u < 0x10000
    ensures u >= 0 ==> |s| >= 4
  {
    if |s| < 4 then -1 else
      var a, b, c, d := HexValue(s[0]), HexValue(s[1]), HexValue(s[2]), HexValue(s[3]);
      if a < 0 || b < 0 || c < 0 || d < 0 then -1 else a * 4096 + b * 256 + c * 16 + d
  }

  /** A \u escape, with surrogate pairs joined and lone surrogates replaced by U+FFFD. */
  function ParseUnicodeEscape(s: string): (r: Result<(char, string)>)
    ensures r.Ok? ==> |r.value.1| < |s|
  {
    var u := CodeUnit(s);
    if u < 0 then Err(Malformed)
    else if u < 0xD800 || u >= 0xE000 then Ok((u as char, s[4..]))
    else
      var low := if u < 0xDC00 && |s| >= 6 && s[4..6] == "\\u" then CodeUnit(s[6..]) else -1;
      if 0xDC00 <= low < 0xE000 then
        Ok(((0x10000 + (u - 0xD800) * 0x400 + (low - 0xDC00)) as char, s[10..]))
      else
        Ok((0xFFFD as char, s[4..]))
  }

  /** What follows a backslash. */
  function ParseEscape(s: string): (r: Result<(char, string)>)
    ensures r.Ok? ==> |r.value.1| < |s|
  {
    if s == "" then Err(Malformed)
    else if s[0] == 'u' then ParseUnicodeEscape(s[1..])
    else if s[0] == '"' || s[0] == '\\' || s[0] == '/' then Ok((s[0], s[1..]))
    else if s[0] == 'b' then Ok((8 as char, s[1..]))
    else if s[0] == 'f' then Ok((12 as char, s[1..]))
    else if s[0] == 'n' then Ok((10 as char, s[1..]))
    else if s[0] == 'r' then Ok((13 as char, s[1..]))
    else if s[0] == 't' then Ok((9 as char, s[1..]))
    else Err(Malformed)
  }

  /** The rest of a string literal whose opening quote has been read. */
  function ParseChars(s: string): (r: Result<(string, string)>)
    ensures r.Ok? ==> |r.value.1| < |s|
    decreases |s|
  {
    if s == "" then Err(Malformed)
    else if s[0] == '"' then Ok(("", s[1..]))
    else if s[0] == '\\' then
      match ParseEscape(s[1..])
      case Err(e) => Err(e)
      case Ok((c, rest)) => PrependChar(c, ParseChars(rest))
    else if s[0] < ' ' then Err(Malformed)
    else PrependChar(s[0], ParseChars(s[1..]))
  }

  function PrependChar(c: char, r: Result<(string, string)>): (r': Result<(string, string)>)
    ensures r'.Ok? <==> r.Ok?
    ensures r.Ok? ==> r'.value == ([c] + r.value.0, r.value.1)
  {
    match r
    case Err(e) => Err(e)
    case Ok((s, rest)) => Ok(([c] + s, rest))
  }

  function DigitRun(s: string): (k: nat)
    ensures k <= |s| && (forall i | 0 <= i < k :: IsDigit(s[i])) && (k < |s| ==> !IsDigit(s[k]))
  {
    if s != "" && IsDigit(s[0]) then 1 + DigitRun(s[1..]) else 0
  }

  function NatValue(ds: string): nat
    requires forall i | 0 <= i < |ds| :: IsDigit(ds[i])
  {
    if ds == "" then 0
    else NatValue(ds[..|ds| - 1]) * 10 + DigitValue(ds[|ds| - 1])
  }

  function DigitValue(c: char): (v: nat)
    requires IsDigit(c)
    ensures v < 10
  {
    c as int - '0' as int
  }

  function Signed(neg: bool, n: nat): int {
    var m: int := n;
    if neg then -m else m
  }

  function ParseUnsigned(t: string, neg: bool): (r: Result<(Value, string)>)
    ensures r.Ok? ==> |r.value.1| < |t|
  {
    var k := DigitRun(t);
    var rest := t[k..];
    if k == 0 || (k > 1 && t[0] == '0') then Err(Malformed)
    else if rest != "" && (rest[0] == '.' || rest[0] == 'e' || rest[0] == 'E') then Err(FractionOrExponent)
    else
      var n := Signed(neg, NatValue(t[..k]));
      if IsInt53(n) then Ok((Num(n), rest)) else Err(BadInteger)
  }

  function ParseNumber(s: string): (r: Result<(Value, string)>)
    ensures r.Ok? ==> |r.value.1| < |s|
  {
    if s != "" && s[0] == '-' then ParseUnsigned(s[1..], true) else ParseUnsigned(s, false)
  }

  /** decodeStrictToken on the text s at nesting depth d. */
  function Parse(s: string, d: nat, lim: Limits): (r: Result<(Value, string)>)
    ensures r.Ok? ==> |r.value.1| < |s|
    decreases |s|, 2
  {
    var t := SkipWs(s);
    if t == "" then Err(Malformed)
    else if t[0] == '{' then
      if d + 1 > lim.maxDepth then Err(TooDeep)
      else
        var u := SkipWs(t[1..]);
        if u != "" && u[0] == '}' then Ok((Obj(map[]), u[1..]))
        else ParseMembers(t[1..], d + 1, lim, map[])
    else if t[0] == '[' then
      if d + 1 > lim.maxDepth then Err(TooDeep)
      else
        var u := SkipWs(t[1..]);
        if u != "" && u[0] == ']' then Ok((Arr([]), u[1..]))
        else ParseElements(t[1..], d + 1, lim, [])
    else if t[0] == '"' then
      match ParseChars(t[1..])
      case Err(e) => Err(e)
      case Ok((str, rest)) => if lim.safeOnly && !SafeString(str) then Err(UnsafeString) else Ok((Str(str), rest))
    else if t[0] == '-' || IsDigit(t[0]) then ParseNumber(t)
    else if "null" <= t then Ok((Null, t[4..]))
    else if "true" <= t then Ok((Bool(true), t[4..]))
    else if "false" <= t then Ok((Bool(false), t[5..]))
    else Err(Malformed)
  }

  /** The members of an object from a key on; acc holds the earlier ones. */
  function ParseMembers(s: string, d: nat, lim: Limits, acc: map<string, Value>): (r: Result<(Value, string)>)
    ensures r.Ok? ==> |r.value.1| < |s|
    decreases |s|, 1
  {
    var t := SkipWs(s);
    if t == "" || t[0] != '"' then Err(Malformed)
    else
      match ParseChars(t[1..])
      case Err(e) => Err(e)
      case Ok((key, r1)) =>
        if lim.safeOnly && !SafeString(key) then Err(UnsafeString)
        else if key in acc then Err(DuplicateKey)
        else if lim.rejectCaseCollision && exists k | k in acc :: Lower(k) == Lower(key) then Err(CaseCollision)
        else
          var r2 := SkipWs(r1);
          if r2 == "" || r2[0] != ':' then Err(Malformed)
          else
            match Parse(r2[1..], d, lim)
            case Err(e) => Err(e)
            case Ok((v, r3)) => ParseMembersTail(r3, d, lim, acc[key := v])
  }

  /** What may follow a member. */
  function ParseMembersTail(s: string, d: nat, lim: Limits, acc: map<string, Value>): (r: Result<(Value, string)>)
    ensures r.Ok? ==> |r.value.1| < |s|
    decreases |s|, 2
  {
    var t := SkipWs(s);
    if t == "" then Err(Malformed)
    else if t[0] == '}' then Ok((Obj(acc), t[1..]))
    else if t[0] == ',' then ParseMembers(t[1..], d, lim, acc)
    else Err(Malformed)
  }

  /** The elements of an array from one of them on; acc holds the earlier ones. */
  function ParseElements(s: string, d: nat, lim: Limits, acc: seq<Value>): (r: Result<(Value, string)>)
    ensures r.Ok? ==> |r.value.1| < |s|
    decreases |s|, 3
  {
    match Parse(s, d, lim)
    case Err(e) => Err(e)
    case Ok((v, r3)) =>
      var r4 := SkipWs(r3);
      if r4 == "" then Err(Malformed)
      else if r4[0] == ']' then Ok((Arr(acc + [v]), r4[1..]))
      else if r4[0] == ',' then ParseElements(r4[1..], d, lim, acc + [v])
      else Err(Malformed)
  }

  function Utf8Width(c: char): nat {
    var r := c as int;
    if r < 0x80 then 1 else if r < 0x800 then 2 else if r < 0x10000 then 3 else 4
  }

  /** len([]byte(s)) */
  function Utf8Length(s: string): nat {
    if s == "" then 0 else Utf8Width(s[0]) + Utf8Length(s[1..])
  }

  /** One value and nothing but white space after it. */
  function DecodeLimited(raw: string, lim: Limits): Result<Value> {
    match Parse(raw, 0, lim)
    case Err(e) => Err(e)
    case Ok((v, rest)) => if SkipWs(rest) == "" then Ok(v) else Err(TrailingTokens)
  }

  /** DecodeStrictJSONWithCap */
  function DecodeStrict(raw: string, maxBytes: nat, rejectCaseCollision: bool): Result<Value> {
    if Utf8Length(raw) > maxBytes then Err(TooLarge) else DecodeLimited(raw, Strict(rejectCaseCollision))
  }

  /** The white space that bytes.TrimSpace removes. */
  predicate IsSpace(c: char) {
    var r := c as int;
    || 0x09 <= r <= 0x0D || r == 0x20 || r == 0x85 || r == 0xA0 || r == 0x1680 || 0x2000 <= r <= 0x200A
    || r == 0x2028 || r == 0x2029 || r == 0x202F || r == 0x205F || r == 0x3000
  }

  function TrimLeft(s: string): string {
    if s != "" && IsSpace(s[0]) then TrimLeft(s[1..]) else s
  }

  function TrimRight(s: string): string {
    if s != "" && IsSpace(s[|s| - 1]) then TrimRight(s[..|s| - 1]) else s
  }

  /** DecodeStrictJSONObject */
  function DecodeStrictObject(raw: string, rejectCaseCollision: bool): Result<map<string, Value>> {
    if forall k | 0 <= k < |raw| :: IsSpace(raw[k]) then Ok(map[])
    else
      match DecodeStrict(raw, 65536, rejectCaseCollision)
      case Err(e) => Err(e)
      case Ok(v) => if v.Obj? then Ok(v.fields) else Err(NotAnObject)
  }
}
