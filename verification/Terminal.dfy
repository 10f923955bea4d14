/** Escaping of text shown on a terminal (FormatSafeTerminalASCII in
    internal/authz/jcs.go). */
module Terminal {
  import Json

  /** The lowest n hexadecimal digits of v. */
  function Hex(v: nat, n: nat): (h: string)
    ensures |h| == n
  {
    if n == 0 then "" else Hex(v / 16, n - 1) + [Json.HexDigit(v % 16)]
  }

  function EscapeRune(c: char): string {
    var r := c as int;
    if c == '\\' then "\\\\"
    else if c == '"' then "\\\""
    else if r < 0x20 || r >= 0x7F then
      if r <= 0xFFFF then "\\u" + Hex(r, 4) else "\\U" + Hex(r, 8)
    else [c]
  }

  function FormatFrom(s: string): string {
    if s == "" then "" else EscapeRune(s[0]) + FormatFrom(s[1..])
  }

  method FormatSafeTerminalASCII(s: string) returns (out: string)
    ensures out == FormatFrom(s)
  {
    out := "";
    var i := 0;
    while i < |s|
      invariant i <= |s| && out + FormatFrom(s[i..]) == FormatFrom(s)
    {
      assert s[i..][1..] == s[i + 1..];
      out := out + EscapeRune(s[i]);
      i := i + 1;
    }
    assert s[i..] == "";
  }

  predicate Printable(c: char) { 0x20 <= c as int < 0x7F }

  // ----- reading the escapes back -----

  /** The value of the hexadecimal digits h. */
  function HexValue(h: string): int {
    if h == "" then 0 else HexValue(h[..|h| - 1]) * 16 + Json.HexValue(h[|h| - 1])
  }

  predicate IsScalar(v: int) { 0 <= v < 0xD800 || 0xE000 <= v < 0x110000 }

  datatype Decoded = NotEscaped | Rune(c: char, rest: string)

  /** The first rune of an escaped text, and what follows it. */
  function UnescapeOne(t: string): (d: Decoded)
    ensures d.Rune? ==> |d.rest| < |t|
  {
    if t == "" then NotEscaped
    else if t[0] != '\\' then Rune(t[0], t[1..])
    else if |t| >= 2 && (t[1] == '\\' || t[1] == '"') then Rune(t[1], t[2..])
    else
      var n := if |t| >= 6 && t[1] == 'u' then 4 else if |t| >= 10 && t[1] == 'U' then 8 else 0;
      if n > 0 && IsScalar(HexValue(t[2..2 + n])) then Rune(HexValue(t[2..2 + n]) as char, t[2 + n..])
      else NotEscaped
  }

  function Unescape(t: string): string
    decreases |t|
  {
    match UnescapeOne(t)
    case NotEscaped => ""
    case Rune(c, rest) => [c] + Unescape(rest)
  }

  lemma {:induction false} HexRoundTrip(v: nat, n: nat, bound: nat)
    requires v < bound && bound == Pow16(n)
    ensures HexValue(Hex(v, n)) == v
  {
    if n > 0 {
      HexRoundTrip(v / 16, n - 1, Pow16(n - 1));
      var h := Hex(v, n);
      assert h[..n - 1] == Hex(v / 16, n - 1);
    }
  }

  function Pow16(n: nat): (p: nat)
    ensures p > 0
  {
    if n == 0 then 1 else 16 * Pow16(n - 1)
  }

  lemma UnescapeHex(c: char, n: nat, mark: char, tail: string)
    requires (n == 4 && mark == 'u' && c as int <= 0xFFFF) || (n == 8 && mark == 'U')
    ensures UnescapeOne("\\" + [mark] + Hex(c as int, n) + tail) == Rune(c, tail)
  {
    var t := "\\" + [mark] + Hex(c as int, n) + tail;
    assert Pow16(4) == 0x10000;
    assert Pow16(8) == 0x100000000;
    HexRoundTrip(c as int, n, Pow16(n));
    assert t[0] == '\\' && t[1] == mark && t[2..2 + n] == Hex(c as int, n) && t[2 + n..] == tail;
  }

  lemma UnescapeRune(c: char, tail: string)
    ensures UnescapeOne(EscapeRune(c) + tail) == Rune(c, tail)
  {
    var r := c as int;
    var t := EscapeRune(c) + tail;
    if c == '\\' || c == '"' {
      assert t[0] == '\\' && t[1] == c && t[2..] == tail;
    } else if r < 0x20 || r >= 0x7F {
      if r <= 0xFFFF {
        UnescapeHex(c, 4, 'u', tail);
        assert t == "\\" + ['u'] + Hex(r, 4) + tail;
      } else {
        UnescapeHex(c, 8, 'U', tail);
        assert t == "\\" + ['U'] + Hex(r, 8) + tail;
      }
    } else {
      assert t[0] == c && t[1..] == tail;
    }
  }

  /** The escapes form a uniquely decodable code. */
  lemma {:induction false} UnescapeFormat(s: string)
    ensures Unescape(FormatFrom(s)) == s
  {
    if s != "" {
      UnescapeRune(s[0], FormatFrom(s[1..]));
      UnescapeFormat(s[1..]);
    }
  }

  /** Distinct texts look distinct to the approver. */
  lemma FormatIsInjective(a: string, b: string)
    ensures FormatFrom(a) == FormatFrom(b) <==> a == b
  {
    UnescapeFormat(a);
    UnescapeFormat(b);
  }

  lemma {:induction false} HexIsPrintable(v: nat, n: nat)
    ensures forall k | 0 <= k < n :: Printable(Hex(v, n)[k])
  {
    if n > 0 {
      HexIsPrintable(v / 16, n - 1);
    }
  }

  lemma {:induction false} FormatIsPrintable(s: string)
    ensures forall k | 0 <= k < |FormatFrom(s)| :: Printable(FormatFrom(s)[k])
  {
    if s != "" {
      FormatIsPrintable(s[1..]);
      HexIsPrintable(s[0] as int, 4);
      HexIsPrintable(s[0] as int, 8);
    }
  }
}
