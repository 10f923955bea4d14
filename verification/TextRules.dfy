/** How characters are ordered, escaped and refused, character by character
    (internal/authz/jcs.go; RFC 8785, sections 3.2.2 and 3.2.3). */
module TextRules {
  import opened Utf16
  import opened Json
  import R = JsonRoundTrip
  import S = Sanitize
  import T = Terminal

  // ----- UTF-16 -----

  /** UTF-16: one unit, or a high and a low surrogate with ten bits each. */
  lemma EncodedChar(c: char)
    ensures var u := Encode([c]);
            if (c as int) < 0x10000 then u == [c as int]
            else |u| == 2 && 0xD800 <= u[0] < 0xDC00 <= u[1] < 0xE000
                 && c as int == 0x10000 + (u[0] - 0xD800) * 0x400 + (u[1] - 0xDC00)
  {
    assert Encode([c][1..]) == [];
  }

  lemma {:induction false} EncodeConcat(a: string, b: string)
    ensures Encode(a + b) == Encode(a) + Encode(b)
  {
    hide Units;
    if a == "" {
      assert a + b == b;
    } else {
      assert (a + b)[1..] == a[1..] + b;
      EncodeConcat(a[1..], b);
    }
  }

  lemma {:induction false} UnitsLessIff(a: seq<int>, b: seq<int>)
    ensures CompareUnits(a, b) < 0 <==>
            exists k :: 0 <= k <= |a| && k < |b| && a[..k] == b[..k] && (k < |a| ==> a[k] < b[k])
  {
    if a != [] && b != [] && a[0] == b[0] {
      UnitsLessIff(a[1..], b[1..]);
      if k :| 0 <= k <= |a| && k < |b| && a[..k] == b[..k] && (k < |a| ==> a[k] < b[k]) {
        assert k > 0 ==> a[1..][..k - 1] == a[..k][1..] && b[1..][..k - 1] == b[..k][1..];
      }
      if k :| 0 <= k <= |a[1..]| && k < |b[1..]| && a[1..][..k] == b[1..][..k] && (k < |a[1..]| ==> a[1..][k] < b[1..][k]) {
        assert a[..k + 1] == [a[0]] + a[1..][..k] && b[..k + 1] == [b[0]] + b[1..][..k];
      }
    } else if a == [] && b != [] {
      assert a[..0] == b[..0];
    } else if a != [] && b != [] && a[0] < b[0] {
      assert a[..0] == b[..0];
    }
  }

  /** A key comes before another at the first different code unit, or as its beginning. */
  lemma CompareIff(a: string, b: string)
    ensures Compare(a, b) < 0 <==>
            exists k :: 0 <= k <= |Encode(a)| && k < |Encode(b)| && Encode(a)[..k] == Encode(b)[..k]
                        && (k < |Encode(a)| ==> Encode(a)[k] < Encode(b)[k])
  {
    hide Encode, CompareUnits;
    var x, y := Encode(a), Encode(b);
    UnitsLessIff(x, y);
    CompareUnitsLaws(x, y);
    if a == b {
      assert x == y;
    }
    assert Compare(a, b) < 0 <==> CompareUnits(x, y) < 0;
  }

  // ----- JSON string literals -----

  const HEX: string := "0123456789abcdef"

  lemma HexDigitIs(v: int)
    requires 0 <= v < 16
    ensures HexDigit(v) == HEX[v]
  {
  }

  /** One character of a canonical string literal. */
  lemma EscapedChar(c: char)
    ensures EscapeAll([c]) ==
            if c == '"' then "\\\"" else if c == '\\' then "\\\\"
            else if c as int == 8 then "\\b" else if c as int == 9 then "\\t" else if c as int == 10 then "\\n"
            else if c as int == 12 then "\\f" else if c as int == 13 then "\\r"
            else if (c as int) < 32 then "\\u00" + [HEX[c as int / 16], HEX[c as int % 16]] else [c]
  {
    assert EscapeAll([c]) == Escape(c) + EscapeAll([c][1..]) == Escape(c);
    if (c as int) < 32 {
      HexDigitIs(c as int / 16);
      HexDigitIs(c as int % 16);
    }
  }

  lemma {:induction false} EscapeAllConcat(a: string, b: string)
    ensures EscapeAll(a + b) == EscapeAll(a) + EscapeAll(b)
  {
    hide Escape;
    if a == "" {
      assert a + b == b;
    } else {
      assert (a + b)[1..] == a[1..] + b;
      EscapeAllConcat(a[1..], b);
    }
  }

  // ----- canonical text has no white space, and its keys are in order -----

  lemma WordsAndIntegers(n: int)
    ensures Text(Null) == "null" && Text(Bool(true)) == "true" && Text(Bool(false)) == "false"
    ensures Text(Num(n)) == IntText(n)
    ensures n < 0 ==> IntText(n) == "-" + IntText(-n)
    ensures n >= 0 ==> IntText(n) != "" && NatValueOf(IntText(n)) == Some(n) && (IntText(n)[0] == '0' ==> n == 0 && |IntText(n)| == 1)
  {
    if n >= 0 {
      R.NatTextDigits(n);
    }
  }

  datatype Option<T> = None | Some(value: T)

  /** The number that digits write, if they are digits. */
  function NatValueOf(s: string): Option<nat> {
    if forall i | 0 <= i < |s| :: '0' <= s[i] <= '9' then Some(NatValue(s)) else None
  }

  lemma CanonicalList(v: Value, w: Value)
    ensures Text(Arr([])) == "[]" && Text(Arr([v])) == "[" + Text(v) + "]"
    ensures Text(Arr([v, w])) == "[" + Text(v) + "," + Text(w) + "]"
  {
    var one, two := Arr([v]), Arr([v, w]);
    assert ElementsText(one, 0) == Text(v) + "";
    assert ElementsText(two, 1) == Text(w) + "";
    assert ElementsText(two, 0) == Text(v) + ("," + ElementsText(two, 1));
    assert "[" + (Text(v) + ("," + Text(w))) + "]" == "[" + Text(v) + "," + Text(w) + "]";
  }

  lemma CanonicalObject(k: string, v: Value, l: string, w: Value)
    requires Before(k, l)
    ensures Text(Obj(map[])) == "{}" && Text(Obj(map[k := v])) == "{" + (StringText(k) + ":" + Text(v)) + "}"
    ensures Text(Obj(map[l := w, k := v]))
         == "{" + (StringText(k) + ":" + Text(v) + ("," + (StringText(l) + ":" + Text(w)))) + "}"
  {
    var one, two := Obj(map[k := v]), Obj(map[l := w, k := v]);
    CompareIsAntisymmetric(k, l);
    SortedIsUnique([k], {k});
    SortedIsUnique([k, l], {k, l});
    OneMember(one, k);
    OneMember(two, l);
    assert one.fields.Keys == {k} && two.fields.Keys == {k, l};
    assert [k, l][1..] == [l];
  }

  lemma OneMember(o: Value, k: string)
    requires o.Obj? && k in o.fields
    ensures MembersText(o, [k]) == StringText(k) + ":" + Text(o.fields[k])
  {
    hide Text, StringText;
    assert StringText(k) + ":" + Text(o.fields[k]) + "" == StringText(k) + ":" + Text(o.fields[k]);
  }

  // ----- what a decoder makes of digits -----

  /** The value of a hexadecimal digit of either case. */
  lemma HexValueIs(c: char)
    ensures HexValue(c) == if '0' <= c <= '9' then c as int - 48
                           else if 'a' <= c <= 'f' then c as int - 87
                           else if 'A' <= c <= 'F' then c as int - 55 else -1
  {
  }

  /** Four digits, the most significant first; -1 if one of them is none. */
  lemma CodeUnitIs(h: string)
    requires |h| == 4
    ensures CodeUnit(h) == if HexValue(h[0]) < 0 || HexValue(h[1]) < 0 || HexValue(h[2]) < 0 || HexValue(h[3]) < 0 then -1
                           else ((HexValue(h[0]) * 16 + HexValue(h[1])) * 16 + HexValue(h[2])) * 16 + HexValue(h[3])
  {
  }

  /** A decimal number, digit by digit. */
  lemma NatValueIs(digits: string, c: char)
    requires (forall i | 0 <= i < |digits| :: '0' <= digits[i] <= '9') && '0' <= c <= '9'
    ensures NatValue([]) == 0 && NatValue(digits + [c]) == 10 * NatValue(digits) + (c as int - 48)
  {
    assert (digits + [c])[..|digits|] == digits;
  }

  // ----- strings that are refused, and what is made of them -----

  /** Refused: control characters other than tab, line feed and carriage return, the
      replacement character, and the marks that change the direction of writing. */
  lemma SafeCharIff(c: char)
    ensures SafeChar(c) <==>
            && c as int !in {0x7F, 0xFFFD, 0x061C, 0x200E, 0x200F, 0x202A, 0x202B, 0x202C, 0x202D, 0x202E,
                             0x2066, 0x2067, 0x2068, 0x2069}
            && (0x20 <= c as int || c as int in {9, 10, 13}) && !(0x80 <= c as int < 0xA0)
  {
  }

  lemma SafeIntegers(n: int)
    ensures IsInt53(n) <==> -0x20_0000_0000_0000 < n < 0x20_0000_0000_0000
  {
  }

  /** A refused character is replaced by the text of its escape, any other is kept. */
  lemma SanitizedChar(c: char)
    ensures S.SanitizeString([c]) ==
            if SafeChar(c) then [c]
            else "\\u" + [HEX[c as int / 4096 % 16], HEX[c as int / 256 % 16], HEX[c as int / 16 % 16], HEX[c as int % 16]]
  {
    assert S.SanitizeString([c][1..]) == "";
    var r := c as int;
    if !SafeChar(c) {
      S.EscapeIsSafe(c);
      SanitizedEscape(c);
    }
  }

  lemma SanitizedEscape(c: char)
    requires (c as int) < 0x10000
    ensures S.EscapeUnsafe(c)
         == "\\u" + [HEX[c as int / 4096 % 16], HEX[c as int / 256 % 16], HEX[c as int / 16 % 16], HEX[c as int % 16]]
  {
    hide HexDigit;
    var r := c as int;
    if r == 0xFFFD {
      assert HEX[15] == 'f' && HEX[13] == 'd';
    } else {
      FourDigits(r);
    }
  }

  lemma FourDigits(r: nat)
    requires r < 0x10000
    ensures [HexDigit(r / 4096), HexDigit(r / 256 % 16), HexDigit(r / 16 % 16), HexDigit(r % 16)]
         == [HEX[r / 4096 % 16], HEX[r / 256 % 16], HEX[r / 16 % 16], HEX[r % 16]]
  {
    hide HexDigit;
    HexDigitIs(r / 4096);
    HexDigitIs(r / 256 % 16);
    HexDigitIs(r / 16 % 16);
    HexDigitIs(r % 16);
  }

  lemma {:induction false} SanitizeConcat(a: string, b: string)
    ensures S.SanitizeString(a + b) == S.SanitizeString(a) + S.SanitizeString(b)
  {
    hide S.EscapeUnsafe, SafeChar;
    if a == "" {
      assert a + b == b;
    } else {
      assert (a + b)[1..] == a[1..] + b;
      SanitizeConcat(a[1..], b);
    }
  }

  // ----- what an approver is shown -----

  /** Printable ASCII stands for itself, quote and backslash aside; anything else is
      shown by its code point, with four or eight hexadecimal digits. */
  lemma ShownChar(c: char)
    ensures var r := c as int;
            T.FormatFrom([c]) ==
            if c == '\\' then "\\\\" else if c == '"' then "\\\""
            else if 0x20 <= r < 0x7F then [c]
            else if r < 0x10000 then "\\u" + [HEX[r / 4096 % 16], HEX[r / 256 % 16], HEX[r / 16 % 16], HEX[r % 16]]
            else "\\U00" + [HEX[r / 0x100000 % 16], HEX[r / 0x10000 % 16], HEX[r / 4096 % 16], HEX[r / 256 % 16],
                            HEX[r / 16 % 16], HEX[r % 16]]
  {
    hide T.Hex;
    assert T.FormatFrom([c][1..]) == "";
    var r := c as int;
    HexFour(r);
    if r >= 0x10000 {
      HexEight(r);
    }
  }

  /** The last four digits. */
  lemma LastFour(r: nat, n: nat)
    ensures T.Hex(r, n + 4)
         == T.Hex(r / 0x10000, n) + [HEX[r / 4096 % 16], HEX[r / 256 % 16], HEX[r / 16 % 16], HEX[r % 16]]
  {
    hide HEX;
    HexStep(r, n + 3);
    HexStep(r / 16, n + 2);
    HexStep(r / 256, n + 1);
    HexStep(r / 4096, n);
    assert r / 16 / 16 == r / 256 && r / 256 / 16 == r / 4096 && r / 4096 / 16 == r / 0x10000;
  }

  lemma HexFour(r: nat)
    ensures T.Hex(r, 4) == [HEX[r / 4096 % 16], HEX[r / 256 % 16], HEX[r / 16 % 16], HEX[r % 16]]
  {
    hide HEX;
    LastFour(r, 0);
  }

  lemma HexStep(v: nat, n: nat)
    ensures T.Hex(v, n + 1) == T.Hex(v / 16, n) + [HEX[v % 16]]
  {
    HexDigitIs(v % 16);
  }

  lemma HighDigits(r: nat)
    requires r < 0x110000
    ensures r / 0x10000 / 16 == r / 0x100000
    ensures r / 0x10000 / 256 == 0 && r / 0x10000 / 4096 == 0
  {
  }

  lemma HexEight(r: nat)
    requires r < 0x110000
    ensures T.Hex(r, 8) == "00" + [HEX[r / 0x100000 % 16], HEX[r / 0x10000 % 16], HEX[r / 4096 % 16], HEX[r / 256 % 16],
                                   HEX[r / 16 % 16], HEX[r % 16]]
  {
    hide T.Hex;
    LastFour(r, 4);
    HexFour(r / 0x10000);
    HighDigits(r);
    assert HEX[0] == '0';
    assert T.Hex(r / 0x10000, 4) == ['0', '0', HEX[r / 0x100000 % 16], HEX[r / 0x10000 % 16]];
  }

  lemma {:induction false} FormatConcat(a: string, b: string)
    ensures T.FormatFrom(a + b) == T.FormatFrom(a) + T.FormatFrom(b)
  {
    hide T.EscapeRune;
    if a == "" {
      assert a + b == b;
    } else {
      assert (a + b)[1..] == a[1..] + b;
      FormatConcat(a[1..], b);
    }
  }
}
