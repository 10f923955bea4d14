/** Exactly which texts the strict decoder accepts: the texts of JSON documents within
    its limits (decodeStrictValueFromToken in internal/authz/jcs.go, RFC 8259).

    A document is a value together with the way it is written: its white space, the
    escapes of its strings, the order of its members.  Numbers are the integers. */
module JsonGrammar {
  import opened Json

  // ----- documents -----

  /** One character of a string: itself, a short escape, or one or two code units. */
  datatype Piece = Raw(c: char) | Short(letter: char) | Unit(h: string) | Pair(h: string, l: string)

  datatype Doc =
    | Word(v: Value)
    | Number(neg: bool, digits: string)
    | Quoted(ps: seq<Piece>)
    | EmptyList(ws: string)
    | List(items: Items)
    | EmptyRecord(ws: string)
    | Record(members: Members)

  /** The elements, each between white space. */
  datatype Items = LastItem(before: string, doc: Doc, after: string)
                 | Item(before: string, doc: Doc, after: string, tail: Items)

  /** The members: key, colon and value, each between white space. */
  datatype Members = LastMember(before: string, key: seq<Piece>, colon: string, space: string, doc: Doc, after: string)
                   | Member(before: string, key: seq<Piece>, colon: string, space: string, doc: Doc, after: string, tail: Members)

  // ----- the text of a document, followed by more text -----

  function PieceText(p: Piece): string {
    match p
    case Raw(c) => [c]
    case Short(letter) => ['\\', letter]
    case Unit(h) => "\\u" + h
    case Pair(h, l) => "\\u" + (h + ("\\u" + l))
  }

  function WritePieces(ps: seq<Piece>, rest: string): string {
    if ps == [] then rest else PieceText(ps[0]) + WritePieces(ps[1..], rest)
  }

  function WordText(v: Value): string {
    if v == Null then "null" else if v == Bool(true) then "true" else "false"
  }

  function Write(doc: Doc, rest: string): string
    decreases doc, 1
  {
    match doc
    case Word(v) => WordText(v) + rest
    case Number(neg, digits) => if neg then "-" + (digits + rest) else digits + rest
    case Quoted(ps) => "\"" + WritePieces(ps, "\"" + rest)
    case EmptyList(ws) => "[" + (ws + ("]" + rest))
    case List(items) => "[" + WriteItems(items, "]" + rest)
    case EmptyRecord(ws) => "{" + (ws + ("}" + rest))
    case Record(members) => "{" + WriteMembers(members, "}" + rest)
  }

  function WriteItems(items: Items, rest: string): string
    decreases items, 0
  {
    items.before + Write(items.doc, items.after
                                    + if items.LastItem? then rest else "," + WriteItems(items.tail, rest))
  }

  function WriteMembers(ms: Members, rest: string): string
    decreases ms, 1
  {
    ms.before + ("\"" + WritePieces(ms.key, "\"" + AfterKey(ms, rest)))
  }

  function AfterKey(ms: Members, rest: string): string
    decreases ms, 0
  {
    ms.colon + (":" + (ms.space + Write(ms.doc, ms.after
                                                + if ms.LastMember? then rest else "," + WriteMembers(ms.tail, rest))))
  }

  // ----- what a document means -----

  function PieceChar(p: Piece): char {
    match p
    case Raw(c) => c
    case Short(letter) =>
      if letter == 'b' then 8 as char else if letter == 'f' then 12 as char else if letter == 'n' then 10 as char
      else if letter == 'r' then 13 as char else if letter == 't' then 9 as char else letter
    case Unit(h) => var u := CodeUnit(h); if 0 <= u < 0xD800 || 0xE000 <= u then u as char else 0xFFFD as char
    case Pair(h, l) =>
      var u, v := CodeUnit(h), CodeUnit(l);
      if 0xD800 <= u < 0xDC00 <= v < 0xE000 then (0x10000 + (u - 0xD800) * 0x400 + (v - 0xDC00)) as char else 0xFFFD as char
  }

  function Chars(ps: seq<Piece>): string {
    seq(|ps|, i requires 0 <= i < |ps| => PieceChar(ps[i]))
  }

  predicate Digits(s: string) {
    forall i | 0 <= i < |s| :: IsDigit(s[i])
  }

  function Meaning(doc: Doc): Value {
    match doc
    case Word(v) => v
    case Number(neg, digits) => Num(if Digits(digits) then Signed(neg, NatValue(digits)) else 0)
    case Quoted(ps) => Str(Chars(ps))
    case EmptyList(_) => Arr([])
    case List(items) => Arr(Elements(items))
    case EmptyRecord(_) => Obj(map[])
    case Record(members) => Obj(Entries(members))
  }

  function Elements(items: Items): seq<Value> {
    [Meaning(items.doc)] + if items.LastItem? then [] else Elements(items.tail)
  }

  function Entries(ms: Members): map<string, Value> {
    map[Chars(ms.key) := Meaning(ms.doc)] + if ms.LastMember? then map[] else Entries(ms.tail)
  }

  function Keys(ms: Members): seq<string> {
    [Chars(ms.key)] + if ms.LastMember? then [] else Keys(ms.tail)
  }

  // ----- which documents are taken -----

  predicate White(s: string) {
    forall i | 0 <= i < |s| :: s[i] == ' ' || s[i] == '\t' || s[i] == '\n' || s[i] == '\r'
  }

  predicate PieceOk(p: Piece) {
    match p
    case Raw(c) => c != '"' && c != '\\' && c >= ' '
    case Short(x) => x == '"' || x == '\\' || x == '/' || x == 'b' || x == 'f' || x == 'n' || x == 'r' || x == 't'
    case Unit(h) => |h| == 4 && (0 <= CodeUnit(h) < 0xD800 || 0xE000 <= CodeUnit(h))
    case Pair(h, l) => |h| == 4 && |l| == 4 && 0xD800 <= CodeUnit(h) < 0xDC00 <= CodeUnit(l) < 0xE000
  }

  /** A string literal of safe characters. */
  predicate StringOk(ps: seq<Piece>) {
    (forall i | 0 <= i < |ps| :: PieceOk(ps[i])) && SafeString(Chars(ps))
  }

  predicate DigitsOk(neg: bool, digits: string) {
    && digits != "" && Digits(digits) && (|digits| > 1 ==> digits[0] != '0')
    && IsInt53(Signed(neg, NatValue(digits)))
  }

  /** No key comes twice, nor with another case if that is refused. */
  predicate Separate(keys: seq<string>, caseToo: bool) {
    forall i, j | 0 <= i < j < |keys| :: keys[i] != keys[j] && (caseToo ==> Lower(keys[i]) != Lower(keys[j]))
  }

  /** The document is within the limits at nesting depth d. */
  predicate Good(doc: Doc, d: nat, lim: Limits)
    decreases doc, 1
  {
    match doc
    case Word(v) => v.Null? || v.Bool?
    case Number(neg, digits) => DigitsOk(neg, digits)
    case Quoted(ps) => StringOk(ps)
    case EmptyList(ws) => d < lim.maxDepth && White(ws)
    case List(items) => d < lim.maxDepth && ItemsGood(items, d + 1, lim)
    case EmptyRecord(ws) => d < lim.maxDepth && White(ws)
    case Record(members) =>
      d < lim.maxDepth && MembersGood(members, d + 1, lim) && Separate(Keys(members), lim.rejectCaseCollision)
  }

  predicate ItemsGood(items: Items, d: nat, lim: Limits)
    decreases items, 0
  {
    && White(items.before) && White(items.after) && Good(items.doc, d, lim)
    && (items.Item? ==> ItemsGood(items.tail, d, lim))
  }

  predicate MembersGood(ms: Members, d: nat, lim: Limits)
    decreases ms, 0
  {
    && White(ms.before) && StringOk(ms.key) && White(ms.colon) && White(ms.space) && White(ms.after)
    && Good(ms.doc, d, lim) && (ms.Member? ==> MembersGood(ms.tail, d, lim))
  }

  // ----- white space -----

  lemma {:induction false} SkipWhite(ws: string, s: string)
    requires White(ws) && (s == "" || !IsWs(s[0]))
    ensures SkipWs(ws + s) == s
  {
    if ws == "" {
      assert ws + s == s;
    } else {
      assert (ws + s)[1..] == ws[1..] + s;
      SkipWhite(ws[1..], s);
    }
  }

  /** Skipping white space splits a text. */
  lemma {:induction false} Skipped(s: string) returns (ws: string)
    ensures White(ws) && s == ws + SkipWs(s)
  {
    if s != "" && IsWs(s[0]) {
      ws := Skipped(s[1..]);
      ws := [s[0]] + ws;
    } else {
      ws := "";
    }
  }

  // ----- strings -----

  lemma PieceParses(p: Piece, tail: string)
    requires PieceOk(p)
    ensures ParseChars(PieceText(p) + tail) == PrependChar(PieceChar(p), ParseChars(tail))
  {
    hide PrependChar;
    var s := PieceText(p) + tail;
    match p
    case Raw(c) => assert s[1..] == tail;
    case Short(x) => assert s[0] == '\\' && s[1..][0] == x && s[1..][1..] == tail;
    case Unit(h) => UnitParses(h, tail);
    case Pair(h, l) => PairParses(h, l, tail);
  }

  lemma CodeUnitOf(h: string, tail: string)
    requires |h| == 4
    ensures CodeUnit(h + tail) == CodeUnit(h)
  {
  }

  lemma UnitParses(h: string, tail: string)
    requires PieceOk(Unit(h))
    ensures ParseChars(PieceText(Unit(h)) + tail) == PrependChar(PieceChar(Unit(h)), ParseChars(tail))
  {
    hide PrependChar, CodeUnit;
    var s := PieceText(Unit(h)) + tail;
    assert s[0] == '\\' && s[1..][0] == 'u' && s[1..][1..] == h + tail;
    CodeUnitOf(h, tail);
    assert (h + tail)[4..] == tail;
  }

  lemma PairParses(h: string, l: string, tail: string)
    requires PieceOk(Pair(h, l))
    ensures ParseChars(PieceText(Pair(h, l)) + tail) == PrependChar(PieceChar(Pair(h, l)), ParseChars(tail))
  {
    hide PrependChar, CodeUnit;
    var s := PieceText(Pair(h, l)) + tail;
    var t := h + ("\\u" + (l + tail));
    assert s[0] == '\\' && s[1..][0] == 'u' && s[1..][1..] == t;
    CodeUnitOf(h, "\\u" + (l + tail));
    CodeUnitOf(l, tail);
    assert t[4..6] == "\\u" && t[6..] == l + tail && t[10..] == tail;
  }

  lemma {:induction false} PiecesParse(ps: seq<Piece>, rest: string)
    requires forall i | 0 <= i < |ps| :: PieceOk(ps[i])
    ensures ParseChars(WritePieces(ps, "\"" + rest)) == Ok((Chars(ps), rest))
  {
    hide PieceOk, PieceChar, PieceText;
    if ps == [] {
      assert ("\"" + rest)[1..] == rest;
    } else {
      PieceParses(ps[0], WritePieces(ps[1..], "\"" + rest));
      PiecesParse(ps[1..], rest);
      assert Chars(ps) == [PieceChar(ps[0])] + Chars(ps[1..]);
    }
  }

  /** What follows a backslash and gives a safe character is an escape. */
  lemma EscapeSound(s: string) returns (p: Piece)
    requires ParseEscape(s).Ok? && SafeChar(ParseEscape(s).value.0)
    ensures PieceOk(p) && PieceChar(p) == ParseEscape(s).value.0
    ensures "\\" + s == PieceText(p) + ParseEscape(s).value.1
  {
    hide ParseUnicodeEscape, CodeUnit;
    if s[0] == 'u' {
      p := UnitSound(s[1..]);
      assert "\\" + s == "\\u" + s[1..];
    } else {
      p := Short(s[0]);
    }
  }

  lemma UnitSound(t: string) returns (p: Piece)
    requires ParseUnicodeEscape(t).Ok? && ParseUnicodeEscape(t).value.0 as int != 0xFFFD
    ensures PieceOk(p) && PieceChar(p) == ParseUnicodeEscape(t).value.0
    ensures "\\u" + t == PieceText(p) + ParseUnicodeEscape(t).value.1
  {
    var u := CodeUnit(t);
    assert t == t[..4] + t[4..];
    CodeUnitOf(t[..4], t[4..]);
    if u < 0xD800 || u >= 0xE000 {
      p := Unit(t[..4]);
    } else {
      p := Pair(t[..4], t[6..10]);
      CodeUnitOf(t[6..10], t[10..]);
      assert t[6..] == t[6..10] + t[10..];
      assert t == t[..4] + ("\\u" + (t[6..10] + t[10..]));
    }
  }

  lemma {:induction false} CharsSound(s: string) returns (ps: seq<Piece>)
    requires ParseChars(s).Ok? && SafeString(ParseChars(s).value.0)
    ensures StringOk(ps) && Chars(ps) == ParseChars(s).value.0
    ensures s == WritePieces(ps, "\"" + ParseChars(s).value.1)
    decreases |s|
  {
    hide PieceOk, PieceChar, PieceText, SafeChar, ParseEscape;
    if s[0] == '"' {
      ps := [];
      assert s == "\"" + s[1..];
    } else {
      var p, tail := FirstPiece(s);
      var t := ParseChars(s).value.0;
      assert t[1..] == ParseChars(tail).value.0;
      assert forall i | 0 <= i < |t[1..]| :: t[1..][i] == t[i + 1];
      ps := CharsSound(tail);
      ps := [p] + ps;
      assert ps[1..] == ps[1..] && Chars(ps) == [PieceChar(p)] + Chars(ps[1..]);
    }
  }

  lemma FirstPiece(s: string) returns (p: Piece, tail: string)
    requires ParseChars(s).Ok? && SafeString(ParseChars(s).value.0) && s[0] != '"'
    ensures |tail| < |s| && s == PieceText(p) + tail && PieceOk(p)
    ensures ParseChars(s) == PrependChar(PieceChar(p), ParseChars(tail))
  {
    hide SafeChar, ParseEscape;
    assert s == [s[0]] + s[1..];
    if s[0] == '\\' {
      var c := ParseEscape(s[1..]).value.0;
      tail := ParseEscape(s[1..]).value.1;
      assert ParseChars(s).value.0[0] == c;
      p := EscapeSound(s[1..]);
    } else {
      p, tail := Raw(s[0]), s[1..];
    }
  }

  // ----- a document's text is read -----

  /** What may not follow a number. */
  predicate Stops(rest: string) {
    rest == "" || !(IsDigit(rest[0]) || rest[0] == '.' || rest[0] == 'e' || rest[0] == 'E')
  }

  lemma {:induction false} RunOf(digits: string, rest: string)
    requires Digits(digits) && (rest == "" || !IsDigit(rest[0]))
    ensures DigitRun(digits + rest) == |digits|
  {
    if digits == "" {
      assert digits + rest == rest;
    } else {
      assert (digits + rest)[1..] == digits[1..] + rest;
      RunOf(digits[1..], rest);
    }
  }

  lemma NumberReads(neg: bool, digits: string, d: nat, lim: Limits, rest: string)
    requires DigitsOk(neg, digits) && Stops(rest)
    ensures Parse(Write(Number(neg, digits), rest), d, lim) == Ok((Meaning(Number(neg, digits)), rest))
  {
    var t := digits + rest;
    RunOf(digits, rest);
    assert t[..|digits|] == digits && t[|digits|..] == rest && t[0] == digits[0];
    var s := Write(Number(neg, digits), rest);
    NumberStarts(neg, t);
  }

  lemma NumberStarts(neg: bool, t: string)
    requires t != "" && IsDigit(t[0])
    ensures var s := if neg then "-" + t else t; SkipWs(s) == s && ParseNumber(s) == ParseUnsigned(t, neg)
    ensures ("-" + t)[1..] == t && ("-" + t)[0] == '-'
  {
  }

  lemma WordReads(v: Value, d: nat, lim: Limits, rest: string)
    requires v.Null? || v.Bool?
    ensures Parse(WordText(v) + rest, d, lim) == Ok((v, rest))
  {
    var s := WordText(v) + rest;
    assert s[0] == WordText(v)[0] && s[|WordText(v)|..] == rest && WordText(v) <= s;
    assert SkipWs(s) == s;
  }

  /** The first character of a document. */
  lemma Head(doc: Doc, d: nat, lim: Limits, rest: string)
    requires Good(doc, d, lim)
    ensures var s := Write(doc, rest); s != "" && !IsWs(s[0]) && s[0] != ']' && s[0] != '}'
  {
    match doc
    case Number(neg, digits) => assert digits[0] == (digits + rest)[0] && IsDigit(digits[0]);
    case _ =>
  }

  lemma Spaced(ws: string, t: string, d: nat, lim: Limits)
    requires White(ws) && t != "" && !IsWs(t[0])
    ensures SkipWs(ws + t) == t && Parse(ws + t, d, lim) == Parse(t, d, lim)
  {
    SkipWhite(ws, t);
  }

  lemma StopsAfter(after: string, t: string)
    requires White(after) && t != "" && (t[0] == ',' || t[0] == ']' || t[0] == '}')
    ensures Stops(after + t) && SkipWs(after + t) == t
  {
    SkipWhite(after, t);
  }

  /** Brackets and braces with nothing but white space in between. */
  lemma EmptyReads(ws: string, d: nat, lim: Limits, rest: string)
    requires White(ws) && d < lim.maxDepth
    ensures Parse(Write(EmptyList(ws), rest), d, lim) == Ok((Arr([]), rest))
    ensures Parse(Write(EmptyRecord(ws), rest), d, lim) == Ok((Obj(map[]), rest))
  {
    var s, t := Write(EmptyList(ws), rest), Write(EmptyRecord(ws), rest);
    assert s[1..] == ws + ("]" + rest) && t[1..] == ws + ("}" + rest);
    SkipWhite(ws, "]" + rest);
    SkipWhite(ws, "}" + rest);
    assert ("]" + rest)[1..] == rest && ("}" + rest)[1..] == rest;
  }

  lemma QuotedReads(ps: seq<Piece>, d: nat, lim: Limits, rest: string)
    requires StringOk(ps)
    ensures Parse(Write(Quoted(ps), rest), d, lim) == Ok((Str(Chars(ps)), rest))
  {
    hide StringOk, PieceOk;
    var s := Write(Quoted(ps), rest);
    assert s[1..] == WritePieces(ps, "\"" + rest) && SkipWs(s) == s;
    assert (forall i | 0 <= i < |ps| :: PieceOk(ps[i])) && SafeString(Chars(ps)) by {
      StringMeans(ps);
    }
    PiecesParse(ps, rest);
  }

  lemma StringMeans(ps: seq<Piece>)
    ensures StringOk(ps) <==> (forall i | 0 <= i < |ps| :: PieceOk(ps[i])) && SafeString(Chars(ps))
  {
  }

  /** Every document within the limits is read, whatever follows it. */
  lemma {:induction false} DocReads(doc: Doc, d: nat, lim: Limits, rest: string)
    requires Good(doc, d, lim) && Stops(rest)
    ensures Parse(Write(doc, rest), d, lim) == Ok((Meaning(doc), rest))
    decreases doc, 2
  {
    hide Parse, StringOk, DigitsOk, Stops;
    match doc
    case Word(v) => WordReads(v, d, lim, rest);
    case Number(neg, digits) => NumberReads(neg, digits, d, lim, rest);
    case Quoted(ps) => QuotedReads(ps, d, lim, rest);
    case EmptyList(ws) => EmptyReads(ws, d, lim, rest);
    case EmptyRecord(ws) => EmptyReads(ws, d, lim, rest);
    case List(items) =>
      OpenList(items, d, lim, rest);
      ListMeans(items, d, lim, rest);
      ItemsRead(items, d + 1, lim, rest, []);
      assert [] + Elements(items) == Elements(items);
    case Record(members) =>
      OpenRecord(members, d, lim, rest);
      RecordMeans(members, d, lim, rest);
      MembersRead(members, d + 1, lim, rest, map[]);
      assert map[] + Entries(members) == Entries(members);
  }

  lemma OpenList(items: Items, d: nat, lim: Limits, rest: string)
    requires Good(List(items), d, lim)
    ensures Parse(Write(List(items), rest), d, lim) == ParseElements(WriteItems(items, "]" + rest), d + 1, lim, [])
  {
    hide Good, Write;
    var body := WriteItems(items, "]" + rest);
    var s := "[" + body;
    assert s[1..] == body && SkipWs(s) == s;
    ListMeans(items, d, lim, rest);
    ItemsHead(items, d + 1, lim, "]" + rest);
  }

  lemma ListMeans(items: Items, d: nat, lim: Limits, rest: string)
    ensures Good(List(items), d, lim) <==> d < lim.maxDepth && ItemsGood(items, d + 1, lim)
    ensures Write(List(items), rest) == "[" + WriteItems(items, "]" + rest)
  {
  }

  /** What follows an element, up to the end of the list and beyond. */
  function AfterItem(items: Items, rest: string): string {
    items.after + if items.LastItem? then rest else "," + WriteItems(items.tail, rest)
  }

  lemma ItemsMean(items: Items, d: nat, lim: Limits, rest: string)
    requires ItemsGood(items, d, lim)
    ensures White(items.before) && White(items.after) && Good(items.doc, d, lim)
    ensures items.Item? ==> ItemsGood(items.tail, d, lim)
    ensures WriteItems(items, rest) == items.before + Write(items.doc, AfterItem(items, rest))
  {
  }

  lemma ItemsHead(items: Items, d: nat, lim: Limits, rest: string)
    requires ItemsGood(items, d, lim)
    ensures var s := SkipWs(WriteItems(items, rest)); s == Write(items.doc, AfterItem(items, rest)) && s != "" && s[0] != ']'
  {
    hide Good, Write, White, ItemsGood, WriteItems;
    ItemsMean(items, d, lim, rest);
    Head(items.doc, d, lim, AfterItem(items, rest));
    Spaced(items.before, Write(items.doc, AfterItem(items, rest)), d, lim);
  }

  lemma {:induction false} ItemsRead(items: Items, d: nat, lim: Limits, rest: string, acc: seq<Value>)
    requires ItemsGood(items, d, lim)
    ensures ParseElements(WriteItems(items, "]" + rest), d, lim, acc) == Ok((Arr(acc + Elements(items)), rest))
    decreases items, 1
  {
    hide Parse, Good, Write, White, ItemsGood, WriteItems, Stops;
    var after := AfterItem(items, "]" + rest);
    ItemsMean(items, d, lim, "]" + rest);
    Head(items.doc, d, lim, after);
    Spaced(items.before, Write(items.doc, after), d, lim);
    StopsAfter(items.after, if items.LastItem? then "]" + rest else "," + WriteItems(items.tail, "]" + rest));
    DocReads(items.doc, d, lim, after);
    var v := Meaning(items.doc);
    if items.LastItem? {
      assert ("]" + rest)[1..] == rest;
      assert Elements(items) == [v];
    } else {
      var more := WriteItems(items.tail, "]" + rest);
      assert ("," + more)[1..] == more;
      ItemsRead(items.tail, d, lim, rest, acc + [v]);
      assert acc + [v] + Elements(items.tail) == acc + Elements(items);
    }
  }

  /** What follows a member, up to the end of the object and beyond. */
  function AfterMember(ms: Members, rest: string): string {
    ms.after + if ms.LastMember? then rest else "," + WriteMembers(ms.tail, rest)
  }

  lemma MembersMean(ms: Members, d: nat, lim: Limits, rest: string)
    requires MembersGood(ms, d, lim)
    ensures White(ms.before) && StringOk(ms.key) && White(ms.colon) && White(ms.space) && White(ms.after)
    ensures Good(ms.doc, d, lim) && (ms.Member? ==> MembersGood(ms.tail, d, lim))
    ensures WriteMembers(ms, rest) == ms.before + ("\"" + WritePieces(ms.key, "\"" + AfterKey(ms, rest)))
    ensures AfterKey(ms, rest) == ms.colon + (":" + (ms.space + Write(ms.doc, AfterMember(ms, rest))))
  {
    hide StringOk, White;
  }

  /** The key is none of those in seen, nor one with another case if that is refused. */
  predicate Fresh(seen: set<string>, key: string, caseToo: bool) {
    key !in seen && (caseToo ==> forall k | k in seen :: Lower(k) != Lower(key))
  }

  predicate AllFresh(seen: set<string>, keys: seq<string>, caseToo: bool) {
    forall i | 0 <= i < |keys| :: Fresh(seen, keys[i], caseToo)
  }

  lemma SeparateTail(seen: set<string>, key: string, keys: seq<string>, caseToo: bool)
    requires Separate([key] + keys, caseToo) && AllFresh(seen, [key] + keys, caseToo)
    ensures Fresh(seen, key, caseToo) && Separate(keys, caseToo) && AllFresh(seen + {key}, keys, caseToo)
  {
    var all := [key] + keys;
    assert all[0] == key && forall i | 0 <= i < |keys| :: all[i + 1] == keys[i];
    forall i | 0 <= i < |keys| ensures Fresh(seen + {key}, keys[i], caseToo) {
      assert Fresh(seen, all[i + 1], caseToo) && all[0] != all[i + 1];
    }
    assert Fresh(seen, all[0], caseToo);
  }

  lemma SeparateCons(seen: set<string>, key: string, keys: seq<string>, caseToo: bool)
    requires Fresh(seen, key, caseToo) && Separate(keys, caseToo) && AllFresh(seen + {key}, keys, caseToo)
    ensures Separate([key] + keys, caseToo) && AllFresh(seen, [key] + keys, caseToo)
  {
    var all := [key] + keys;
    assert forall i | 1 <= i < |all| :: all[i] == keys[i - 1] && Fresh(seen + {key}, keys[i - 1], caseToo);
  }

  lemma OpenRecord(ms: Members, d: nat, lim: Limits, rest: string)
    requires Good(Record(ms), d, lim)
    ensures Parse(Write(Record(ms), rest), d, lim) == ParseMembers(WriteMembers(ms, "}" + rest), d + 1, lim, map[])
  {
    hide Good, Write, MembersGood, WriteMembers, ParseMembers;
    var body := WriteMembers(ms, "}" + rest);
    var s := "{" + body;
    assert s[1..] == body && SkipWs(s) == s;
    RecordMeans(ms, d, lim, rest);
    MembersMean(ms, d + 1, lim, "}" + rest);
    SkipWhite(ms.before, "\"" + WritePieces(ms.key, "\"" + AfterKey(ms, "}" + rest)));
  }

  lemma RecordMeans(ms: Members, d: nat, lim: Limits, rest: string)
    ensures Good(Record(ms), d, lim) <==>
            d < lim.maxDepth && MembersGood(ms, d + 1, lim) && Separate(Keys(ms), lim.rejectCaseCollision)
    ensures Write(Record(ms), rest) == "{" + WriteMembers(ms, "}" + rest)
  {
  }

  /** Key, colon and value of a member are read. */
  lemma {:induction false} MemberReads(ms: Members, d: nat, lim: Limits, rest: string, acc: map<string, Value>)
    requires MembersGood(ms, d, lim) && Fresh(acc.Keys, Chars(ms.key), lim.rejectCaseCollision)
    requires rest != "" && (rest[0] == '}' || rest[0] == ',' || rest[0] == ']')
    ensures ParseMembers(WriteMembers(ms, rest), d, lim, acc)
         == ParseMembersTail(AfterMember(ms, rest), d, lim, acc[Chars(ms.key) := Meaning(ms.doc)])
    decreases ms, 1
  {
    hide Parse, Good, Write, White, MembersGood, WriteMembers, AfterKey, Stops, StringOk, ParseMembersTail;
    MembersMean(ms, d, lim, rest);
    var afterKey, after := AfterKey(ms, rest), AfterMember(ms, rest);
    var literal := "\"" + WritePieces(ms.key, "\"" + afterKey);
    SkipWhite(ms.before, literal);
    assert literal[1..] == WritePieces(ms.key, "\"" + afterKey);
    StringMeans(ms.key);
    PiecesParse(ms.key, afterKey);
    var value := Write(ms.doc, after);
    SkipWhite(ms.colon, ":" + (ms.space + value));
    assert (":" + (ms.space + value))[1..] == ms.space + value;
    Head(ms.doc, d, lim, after);
    Spaced(ms.space, value, d, lim);
    StopsAfter(ms.after, if ms.LastMember? then rest else "," + WriteMembers(ms.tail, rest));
    DocReads(ms.doc, d, lim, after);
  }

  lemma {:induction false} MembersRead(ms: Members, d: nat, lim: Limits, rest: string, acc: map<string, Value>)
    requires MembersGood(ms, d, lim) && Separate(Keys(ms), lim.rejectCaseCollision)
    requires AllFresh(acc.Keys, Keys(ms), lim.rejectCaseCollision)
    ensures ParseMembers(WriteMembers(ms, "}" + rest), d, lim, acc) == Ok((Obj(acc + Entries(ms)), rest))
    decreases ms, 2
  {
    hide Parse, ParseMembers, ParseMembersTail, Good, Write, White, MembersGood, WriteMembers, Separate, AllFresh, Fresh, Chars;
    var key, v := Chars(ms.key), Meaning(ms.doc);
    EntriesStep(ms, acc);
    var more := if ms.LastMember? then [] else Keys(ms.tail);
    SeparateTail(acc.Keys, key, more, lim.rejectCaseCollision);
    MembersMean(ms, d, lim, "}" + rest);
    MemberReads(ms, d, lim, "}" + rest, acc);
    TailReads(ms, d, lim, rest, acc[key := v]);
    if ms.Member? {
      assert acc[key := v].Keys == acc.Keys + {key};
      MembersRead(ms.tail, d, lim, rest, acc[key := v]);
    }
  }

  lemma EntriesStep(ms: Members, acc: map<string, Value>)
    ensures acc[Chars(ms.key) := Meaning(ms.doc)] + (if ms.LastMember? then map[] else Entries(ms.tail)) == acc + Entries(ms)
    ensures acc[Chars(ms.key) := Meaning(ms.doc)] + map[] == acc[Chars(ms.key) := Meaning(ms.doc)]
  {
    hide Chars, Meaning;
  }

  /** After a member the object ends or goes on. */
  lemma TailReads(ms: Members, d: nat, lim: Limits, rest: string, acc: map<string, Value>)
    requires White(ms.after)
    ensures ParseMembersTail(AfterMember(ms, "}" + rest), d, lim, acc)
         == if ms.LastMember? then Ok((Obj(acc), rest)) else ParseMembers(WriteMembers(ms.tail, "}" + rest), d, lim, acc)
  {
    hide Parse, ParseMembers, White, WriteMembers, Stops;
    if ms.LastMember? {
      StopsAfter(ms.after, "}" + rest);
      assert ("}" + rest)[1..] == rest;
    } else {
      var text := WriteMembers(ms.tail, "}" + rest);
      StopsAfter(ms.after, "," + text);
      assert ("," + text)[1..] == text;
    }
  }

  // ----- what is read is a document's text -----

  /** What Parse has read: white space, and a document within the limits. */
  ghost predicate HasRead(s: string, d: nat, lim: Limits, ws: string, doc: Doc, r: (Value, string)) {
    White(ws) && Good(doc, d, lim) && Meaning(doc) == r.0 && s == ws + Write(doc, r.1)
  }

  lemma {:induction false} DocSound(s: string, d: nat, lim: Limits) returns (ws: string, doc: Doc)
    requires lim.safeOnly && Parse(s, d, lim).Ok?
    ensures HasRead(s, d, lim, ws, doc, Parse(s, d, lim).value)
    decreases |s|, 2
  {
    hide Parse, Good, Write, White;
    ws := Skipped(s);
    var t := SkipWs(s);
    ParseSkips(s, d, lim);
    if t[0] == '"' {
      doc := QuotedSound(t, d, lim);
    } else if t[0] == '[' {
      doc := ListSound(t, d, lim);
    } else if t[0] == '{' {
      doc := RecordSound(t, d, lim);
    } else {
      doc := SimpleSound(t, d, lim);
    }
    assert "" + Write(doc, Parse(t, d, lim).value.1) == Write(doc, Parse(t, d, lim).value.1);
  }

  lemma ParseSkips(s: string, d: nat, lim: Limits)
    requires Parse(s, d, lim).Ok?
    ensures Parse(SkipWs(s), d, lim) == Parse(s, d, lim) && SkipWs(s) != "" && !IsWs(SkipWs(s)[0])
  {
    hide ParseMembers, ParseElements, ParseChars, ParseNumber;
    NoneLeft(s);
  }

  lemma {:induction false} NoneLeft(s: string)
    ensures SkipWs(s) == "" || !IsWs(SkipWs(s)[0])
  {
    if s != "" && IsWs(s[0]) {
      NoneLeft(s[1..]);
    }
  }

  lemma QuotedSound(t: string, d: nat, lim: Limits) returns (doc: Doc)
    requires lim.safeOnly && Parse(t, d, lim).Ok? && t != "" && t[0] == '"'
    ensures HasRead(t, d, lim, "", doc, Parse(t, d, lim).value)
  {
    hide StringOk, ParseMembers, ParseElements, ParseNumber, White;
    assert SkipWs(t) == t;
    var ps := CharsSound(t[1..]);
    doc := Quoted(ps);
    assert t == "\"" + t[1..];
    NoWhite();
  }

  lemma NoWhite()
    ensures White("")
  {
  }

  /** null, true, false and numbers. */
  lemma SimpleSound(t: string, d: nat, lim: Limits) returns (doc: Doc)
    requires Parse(t, d, lim).Ok? && t != "" && !IsWs(t[0]) && t[0] != '"' && t[0] != '[' && t[0] != '{'
    ensures HasRead(t, d, lim, "", doc, Parse(t, d, lim).value)
  {
    hide ParseMembers, ParseElements, ParseChars, ParseNumber, White;
    assert SkipWs(t) == t;
    NoWhite();
    if t[0] == '-' || IsDigit(t[0]) {
      doc := NumberSound(t, d, lim);
    } else if "null" <= t {
      doc := Word(Null);
    } else if "true" <= t {
      doc := Word(Bool(true));
    } else {
      doc := Word(Bool(false));
    }
    if doc.Word? {
      assert t == WordText(doc.v) + t[|WordText(doc.v)|..];
    }
  }

  lemma UnsignedSound(u: string, neg: bool)
    requires ParseUnsigned(u, neg).Ok?
    ensures var k := DigitRun(u);
            DigitsOk(neg, u[..k]) && ParseUnsigned(u, neg).value == (Meaning(Number(neg, u[..k])), u[k..])
  {
    hide NatValue, DigitRun;
  }

  lemma NumberSound(t: string, d: nat, lim: Limits) returns (doc: Doc)
    requires t != "" && ParseNumber(t).Ok?
    ensures doc.Number? && DigitsOk(doc.neg, doc.digits) && Meaning(doc) == ParseNumber(t).value.0
    ensures t == Write(doc, ParseNumber(t).value.1)
  {
    hide ParseUnsigned, DigitsOk, DigitRun, Meaning, Write;
    var neg := t[0] == '-';
    var u := if neg then t[1..] else t;
    var k := DigitRun(u);
    doc := Number(neg, u[..k]);
    UnsignedSound(u, neg);
    Rejoined(t, neg, k);
  }

  lemma Rejoined(t: string, neg: bool, k: nat)
    requires t != "" && (neg <==> t[0] == '-') && k <= |if neg then t[1..] else t|
    ensures var u := if neg then t[1..] else t; t == Write(Number(neg, u[..k]), u[k..])
  {
    var u := if neg then t[1..] else t;
    assert u == u[..k] + u[k..];
    assert neg ==> t == "-" + t[1..];
  }

  lemma ListIs(t: string, items: Items, d: nat, lim: Limits)
    requires t != "" && t[0] == '[' && d < lim.maxDepth && ItemsGood(items, d + 1, lim)
    requires Parse(t, d, lim).Ok? && Parse(t, d, lim).value.0 == Arr([] + Elements(items))
    requires t[1..] == WriteItems(items, "]" + Parse(t, d, lim).value.1)
    ensures HasRead(t, d, lim, "", List(items), Parse(t, d, lim).value)
  {
    hide Parse, ItemsGood, WriteItems;
    assert t == "[" + t[1..];
    assert [] + Elements(items) == Elements(items);
  }

  lemma OpenBracket(t: string, d: nat, lim: Limits)
    requires Parse(t, d, lim).Ok? && t != "" && t[0] == '['
    ensures d < lim.maxDepth
    ensures var u := SkipWs(t[1..]);
            Parse(t, d, lim) == if u != "" && u[0] == ']' then Ok((Arr([]), u[1..])) else ParseElements(t[1..], d + 1, lim, [])
  {
    hide ParseMembers, ParseElements, ParseChars, ParseNumber;
    assert SkipWs(t) == t;
  }

  lemma {:induction false} ListSound(t: string, d: nat, lim: Limits) returns (doc: Doc)
    requires lim.safeOnly && Parse(t, d, lim).Ok? && t != "" && t[0] == '['
    ensures HasRead(t, d, lim, "", doc, Parse(t, d, lim).value)
    decreases |t|, 1
  {
    hide Parse, ParseElements, White, ItemsGood, WriteItems, SkipWs, HasRead;
    OpenBracket(t, d, lim);
    var u := SkipWs(t[1..]);
    if u != "" && u[0] == ']' {
      var ws := Skipped(t[1..]);
      doc := EmptyList(ws);
      EmptyListIs(t, ws, u, d, lim);
    } else {
      var items := ItemsSound(t[1..], d + 1, lim, []);
      doc := List(items);
      ListIs(t, items, d, lim);
    }
  }

  lemma EmptyListIs(t: string, ws: string, u: string, d: nat, lim: Limits)
    requires t != "" && t[0] == '[' && d < lim.maxDepth && White(ws) && t[1..] == ws + u && u != "" && u[0] == ']'
    requires Parse(t, d, lim) == Ok((Arr([]), u[1..]))
    ensures HasRead(t, d, lim, "", EmptyList(ws), Parse(t, d, lim).value)
  {
    hide Parse;
    assert t == "[" + t[1..] && u == "]" + u[1..];
  }

  lemma {:induction false} ItemsSound(s: string, d: nat, lim: Limits, acc: seq<Value>) returns (items: Items)
    requires lim.safeOnly && ParseElements(s, d, lim, acc).Ok?
    ensures ItemsGood(items, d, lim)
    ensures var r := ParseElements(s, d, lim, acc).value; r.0 == Arr(acc + Elements(items)) && s == WriteItems(items, "]" + r.1)
    decreases |s|, 3
  {
    hide Parse, Good, Write, White, WriteItems;
    var before, doc := DocSound(s, d, lim);
    var (v, r3) := Parse(s, d, lim).value;
    var after := Skipped(r3);
    var r4 := SkipWs(r3);
    assert r4 == [r4[0]] + r4[1..];
    if r4[0] == ']' {
      items := LastItem(before, doc, after);
      ItemsAre(items, d, lim, "]" + r4[1..]);
      assert Elements(items) == [v];
    } else {
      var tail := ItemsSound(r4[1..], d, lim, acc + [v]);
      items := Item(before, doc, after, tail);
      ItemsAre(items, d, lim, "]" + ParseElements(s, d, lim, acc).value.1);
      assert acc + [v] + Elements(tail) == acc + Elements(items);
    }
  }

  lemma ItemsAre(items: Items, d: nat, lim: Limits, rest: string)
    ensures ItemsGood(items, d, lim) <==>
            White(items.before) && White(items.after) && Good(items.doc, d, lim)
            && (items.Item? ==> ItemsGood(items.tail, d, lim))
    ensures WriteItems(items, rest) == items.before + Write(items.doc, AfterItem(items, rest))
  {
  }

  lemma RecordIs(t: string, members: Members, d: nat, lim: Limits)
    requires t != "" && t[0] == '{' && d < lim.maxDepth
    requires MembersGood(members, d + 1, lim) && Separate(Keys(members), lim.rejectCaseCollision)
    requires Parse(t, d, lim).Ok? && Parse(t, d, lim).value.0 == Obj(map[] + Entries(members))
    requires t[1..] == WriteMembers(members, "}" + Parse(t, d, lim).value.1)
    ensures HasRead(t, d, lim, "", Record(members), Parse(t, d, lim).value)
  {
    hide Parse, MembersGood, WriteMembers, Separate, Keys;
    assert t == "{" + t[1..];
    assert map[] + Entries(members) == Entries(members);
  }

  lemma OpenBrace(t: string, d: nat, lim: Limits)
    requires Parse(t, d, lim).Ok? && t != "" && t[0] == '{'
    ensures d < lim.maxDepth
    ensures var u := SkipWs(t[1..]);
            Parse(t, d, lim) == if u != "" && u[0] == '}' then Ok((Obj(map[]), u[1..])) else ParseMembers(t[1..], d + 1, lim, map[])
  {
    hide ParseMembers, ParseElements, ParseChars, ParseNumber;
    assert SkipWs(t) == t;
  }

  lemma {:induction false} RecordSound(t: string, d: nat, lim: Limits) returns (doc: Doc)
    requires lim.safeOnly && Parse(t, d, lim).Ok? && t != "" && t[0] == '{'
    ensures HasRead(t, d, lim, "", doc, Parse(t, d, lim).value)
    decreases |t|, 1
  {
    hide Parse, ParseMembers, White, MembersGood, WriteMembers, Separate, AllFresh, Keys, SkipWs, HasRead;
    OpenBrace(t, d, lim);
    var u := SkipWs(t[1..]);
    if u != "" && u[0] == '}' {
      var ws := Skipped(t[1..]);
      doc := EmptyRecord(ws);
      EmptyRecordIs(t, ws, u, d, lim);
    } else {
      var members := MembersSound(t[1..], d + 1, lim, map[]);
      doc := Record(members);
      RecordIs(t, members, d, lim);
    }
  }

  lemma EmptyRecordIs(t: string, ws: string, u: string, d: nat, lim: Limits)
    requires t != "" && t[0] == '{' && d < lim.maxDepth && White(ws) && t[1..] == ws + u && u != "" && u[0] == '}'
    requires Parse(t, d, lim) == Ok((Obj(map[]), u[1..]))
    ensures HasRead(t, d, lim, "", EmptyRecord(ws), Parse(t, d, lim).value)
  {
    hide Parse;
    assert t == "{" + t[1..] && u == "}" + u[1..];
  }

  /** The key of a member, up to its colon. */
  lemma KeySound(s: string, d: nat, lim: Limits, acc: map<string, Value>)
    returns (before: string, ps: seq<Piece>, colon: string, text: string)
    requires lim.safeOnly && ParseMembers(s, d, lim, acc).Ok?
    ensures White(before) && StringOk(ps) && White(colon) && |text| < |s|
    ensures s == before + ("\"" + WritePieces(ps, "\"" + (colon + (":" + text))))
    ensures Fresh(acc.Keys, Chars(ps), lim.rejectCaseCollision) && Parse(text, d, lim).Ok?
    ensures var (v, rest) := Parse(text, d, lim).value;
            ParseMembers(s, d, lim, acc) == ParseMembersTail(rest, d, lim, acc[Chars(ps) := v])
  {
    hide Parse, ParseMembersTail, White, StringOk, SafeString, ParseChars, Chars, Lower, SkipWs, WritePieces;
    before := Skipped(s);
    var t := SkipWs(s);
    assert t == "\"" + t[1..];
    ps := CharsSound(t[1..]);
    var r1 := ParseChars(t[1..]).value.1;
    colon := Skipped(r1);
    text := SkipWs(r1)[1..];
    assert SkipWs(r1) == ":" + text;
  }

  lemma MembersAre(ms: Members, d: nat, lim: Limits, seen: set<string>, rest: string)
    requires White(ms.before) && StringOk(ms.key) && White(ms.colon) && White(ms.space) && White(ms.after)
    requires Good(ms.doc, d, lim) && Fresh(seen, Chars(ms.key), lim.rejectCaseCollision)
    requires ms.Member? ==>
               MembersGood(ms.tail, d, lim) && Separate(Keys(ms.tail), lim.rejectCaseCollision)
               && AllFresh(seen + {Chars(ms.key)}, Keys(ms.tail), lim.rejectCaseCollision)
    ensures MembersGood(ms, d, lim) && Separate(Keys(ms), lim.rejectCaseCollision)
    ensures AllFresh(seen, Keys(ms), lim.rejectCaseCollision)
    ensures WriteMembers(ms, rest)
         == ms.before + ("\"" + WritePieces(ms.key, "\"" + (ms.colon + (":" + (ms.space + Write(ms.doc, AfterMember(ms, rest)))))))
  {
    hide White, StringOk, Chars, Fresh;
    if ms.Member? {
      SeparateCons(seen, Chars(ms.key), Keys(ms.tail), lim.rejectCaseCollision);
    }
  }

  lemma {:induction false} MembersSound(s: string, d: nat, lim: Limits, acc: map<string, Value>) returns (ms: Members)
    requires lim.safeOnly && ParseMembers(s, d, lim, acc).Ok?
    ensures MembersGood(ms, d, lim) && Separate(Keys(ms), lim.rejectCaseCollision)
    ensures AllFresh(acc.Keys, Keys(ms), lim.rejectCaseCollision)
    ensures var r := ParseMembers(s, d, lim, acc).value; r.0 == Obj(acc + Entries(ms)) && s == WriteMembers(ms, "}" + r.1)
    decreases |s|, 1
  {
    hide Parse, ParseMembers, Good, Write, White, WriteMembers, MembersGood, Separate, AllFresh, Fresh, Chars, StringOk, Keys;
    var before, ps, colon, r2 := KeySound(s, d, lim, acc);
    var space, doc := DocSound(r2, d, lim);
    var (v, r3) := Parse(r2, d, lim).value;
    var after := Skipped(r3);
    var t := SkipWs(r3);
    assert t == [t[0]] + t[1..];
    if t[0] == '}' {
      ms := LastMember(before, ps, colon, space, doc, after);
      MembersAre(ms, d, lim, acc.Keys, "}" + t[1..]);
    } else {
      var tail := MembersSound(t[1..], d, lim, acc[Chars(ps) := v]);
      ms := Member(before, ps, colon, space, doc, after, tail);
      assert acc[Chars(ps) := v].Keys == acc.Keys + {Chars(ps)};
      MembersAre(ms, d, lim, acc.Keys, "}" + ParseMembers(s, d, lim, acc).value.1);
    }
    EntriesStep(ms, acc);
  }

  // ----- main result -----

  /** Main result: strict decoding of a text gives v exactly when the text is within
      the byte cap and is, between white space, the text of a document within the
      limits that means v.  In every other case decoding fails. */
  lemma DecodesIff(raw: string, maxBytes: nat, rejectCaseCollision: bool, v: Value)
    ensures DecodeStrict(raw, maxBytes, rejectCaseCollision) == Ok(v) <==>
            && Utf8Length(raw) <= maxBytes
            && exists before, doc, after :: White(before) && White(after) && Good(doc, 0, Strict(rejectCaseCollision))
                                            && raw == before + Write(doc, after) && Meaning(doc) == v
  {
    hide Parse, Good, Write, White, Stops;
    var lim := Strict(rejectCaseCollision);
    if DecodeStrict(raw, maxBytes, rejectCaseCollision) == Ok(v) {
      var before, doc := DocSound(raw, 0, lim);
      var after := Skipped(Parse(raw, 0, lim).value.1);
      assert after + "" == after;
    }
    if before, doc, after :| White(before) && White(after) && Good(doc, 0, lim) && raw == before + Write(doc, after) && Meaning(doc) == v {
      WhiteStops(after);
      Head(doc, 0, lim, after);
      Spaced(before, Write(doc, after), 0, lim);
      DocReads(doc, 0, lim, after);
    }
  }

  lemma WhiteStops(ws: string)
    requires White(ws)
    ensures Stops(ws) && SkipWs(ws) == ""
  {
    assert ws + "" == ws;
    SkipWhite(ws, "");
  }

  /** Arguments and claims: blank text counts as no members, and everything else must
      be the text of an object of at most 64 KiB. */
  lemma ObjectDecodesIff(raw: string, rejectCaseCollision: bool, m: map<string, Value>)
    ensures DecodeStrictObject(raw, rejectCaseCollision) == Ok(m) <==>
            if (forall k :: 0 <= k < |raw| ==> IsSpace(raw[k])) then m == map[]
            else Utf8Length(raw) <= 65536
                 && exists before, doc, after :: White(before) && White(after) && Good(doc, 0, Strict(rejectCaseCollision))
                                                 && raw == before + Write(doc, after) && Meaning(doc) == Obj(m)
  {
    hide DecodeStrict, Good, Write, White, IsSpace;
    DecodesIff(raw, 65536, rejectCaseCollision, Obj(m));
  }

  /** A text has one meaning. */
  lemma OneMeaning(a: Doc, b: Doc, lim: Limits, after: string)
    requires Good(a, 0, lim) && Good(b, 0, lim) && Stops(after) && Write(a, after) == Write(b, after)
    ensures Meaning(a) == Meaning(b)
  {
    hide Parse, Good, Write, Stops;
    DocReads(a, 0, lim, after);
    DocReads(b, 0, lim, after);
  }
}
