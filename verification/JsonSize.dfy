/** How many bytes a canonical text takes.

    The decoder caps the bytes of a line.  A character takes at most six bytes in
    canonical text, escaped or not, an int53 number fewer than a hundred, and an
    object the sum of its members. */
module JsonSize {
  import opened Utf16
  import opened Json

  lemma {:induction false} Utf8Concat(a: string, b: string)
    ensures Utf8Length(a + b) == Utf8Length(a) + Utf8Length(b)
  {
    if a == "" {
      assert a + b == b;
    } else {
      assert (a + b)[1..] == a[1..] + b;
      Utf8Concat(a[1..], b);
    }
  }

  lemma {:induction false} Utf8AtMost(s: string)
    ensures Utf8Length(s) <= 4 * |s|
  {
    if s != "" {
      Utf8AtMost(s[1..]);
    }
  }

  lemma EscapeBytes(c: char)
    ensures Utf8Length(Escape(c)) <= 6
  {
    var e := Escape(c);
    var r := c as int;
    if r < 0x20 {
      AsciiBytes(e);
    } else if c == '"' || c == '\\' {
      AsciiBytes(e);
    } else {
      assert e[1..] == "";
    }
  }

  lemma {:induction false} AsciiBytes(s: string)
    requires forall k | 0 <= k < |s| :: s[k] as int < 0x80
    ensures Utf8Length(s) == |s|
  {
    if s != "" {
      AsciiBytes(s[1..]);
    }
  }

  /** A character takes at most six bytes, escaped or not. */
  lemma {:induction false} StringBytes(s: string)
    ensures Utf8Length(EscapeAll(s)) <= 6 * |s|
    ensures Utf8Length(StringText(s)) <= 6 * |s| + 2
  {
    hide Escape;
    if s != "" {
      EscapeBytes(s[0]);
      StringBytes(s[1..]);
      Utf8Concat(Escape(s[0]), EscapeAll(s[1..]));
    }
    Quoted(EscapeAll(s));
  }

  lemma Quoted(t: string)
    ensures Utf8Length("\"" + t + "\"") == Utf8Length(t) + 2
  {
    Utf8Concat("\"", t);
    Utf8Concat("\"" + t, "\"");
    AsciiBytes("\"");
  }

  function Pow10(k: nat): nat {
    if k == 0 then 1 else 10 * Pow10(k - 1)
  }

  lemma {:induction false} NatDigits(n: nat, k: nat)
    requires 0 < k && n < Pow10(k)
    ensures |NatText(n)| <= k
  {
    if n >= 10 {
      NatDigits(n / 10, k - 1);
    }
  }

  lemma IntBytes(n: int)
    requires IsInt53(n)
    ensures Utf8Length(IntText(n)) <= 68
  {
    assert Pow10(4) == 10000 && Pow10(8) == 100000000 && Pow10(12) == 1000000000000 && Pow10(16) == 10000000000000000 by {
      assert Pow10(2) == 100 && Pow10(6) == 1000000 && Pow10(10) == 10000000000 && Pow10(14) == 100000000000000;
    }
    NatDigits(if n < 0 then -n else n, 16);
    Utf8AtMost(IntText(n));
  }

  /** One member and its separator. */
  ghost function MemberBytes(fields: map<string, Value>, k: string): nat
    requires k in fields
  {
    Utf8Length(StringText(k)) + Utf8Length(Text(fields[k])) + 2
  }

  lemma {:induction false} MembersBytes(v: Value, keys: seq<string>, m: nat)
    requires v.Obj? && keys != [] && forall i | 0 <= i < |keys| :: keys[i] in v.fields
    requires forall k | k in v.fields :: MemberBytes(v.fields, k) <= m
    ensures Utf8Length(MembersText(v, keys)) <= |keys| * m
    decreases |keys|
  {
    hide Text, StringText, Utf8Length, MemberBytes;
    var k := keys[0];
    var head := StringText(k) + ":" + Text(v.fields[k]);
    HeadBytes(v.fields, k);
    if |keys| == 1 {
      assert head + "" == head;
    } else {
      MembersBytes(v, keys[1..], m);
      CommaBytes(head, MembersText(v, keys[1..]));
      AddOne(|keys|, m);
    }
  }

  lemma AddOne(n: nat, m: nat)
    requires n > 0
    ensures n * m == (n - 1) * m + m
  {
  }

  lemma HeadBytes(fields: map<string, Value>, k: string)
    requires k in fields
    ensures Utf8Length(StringText(k) + ":" + Text(fields[k])) + 1 == MemberBytes(fields, k)
  {
    hide Text, StringText, Utf8Length;
    Utf8Concat(StringText(k), ":");
    Utf8Concat(StringText(k) + ":", Text(fields[k]));
    AsciiBytes(":");
  }

  lemma CommaBytes(a: string, b: string)
    ensures Utf8Length(a + ("," + b)) == Utf8Length(a) + Utf8Length(b) + 1
  {
    Utf8Concat(a, "," + b);
    Utf8Concat(",", b);
    AsciiBytes(",");
  }

  lemma Braces(t: string)
    ensures Utf8Length("{" + t + "}") == Utf8Length(t) + 2
  {
    Utf8Concat("{", t);
    Utf8Concat("{" + t, "}");
    AsciiBytes("{");
    AsciiBytes("}");
  }

  lemma ObjectBytes(fields: map<string, Value>, m: nat)
    requires forall k | k in fields :: MemberBytes(fields, k) <= m
    ensures Utf8Length(Text(Obj(fields))) <= |fields| * m + 2
  {
    hide MemberBytes, MembersText, SortedKeys, StringText;
    if fields == map[] {
      AsciiBytes("{}");
    } else {
      var keys := SortedKeys(fields.Keys);
      assert |fields.Keys| == |fields| && |fields| != 0;
      MembersBytes(Obj(fields), keys, m);
      Braces(MembersText(Obj(fields), keys));
    }
  }

  // ----- and how many it takes at least -----

  lemma {:induction false} Utf8AtLeast(s: string)
    ensures Utf8Length(s) >= |s|
  {
    if s != "" {
      Utf8AtLeast(s[1..]);
    }
  }

  lemma {:induction false} StringAtLeast(s: string)
    ensures |EscapeAll(s)| >= |s|
    ensures |StringText(s)| >= |s|
  {
    hide Escape;
    if s != "" {
      StringAtLeast(s[1..]);
    }
  }

  lemma {:induction false} MembersAtLeast(v: Value, keys: seq<string>, k: string)
    requires v.Obj? && k in keys && forall i | 0 <= i < |keys| :: keys[i] in v.fields
    ensures |MembersText(v, keys)| >= |Text(v.fields[k])|
    decreases |keys|
  {
    hide Text, StringText;
    if k != keys[0] {
      MembersAtLeast(v, keys[1..], k);
    }
  }

  /** An object's text is at least as long as the text of each member. */
  lemma ObjectAtLeast(fields: map<string, Value>, k: string)
    requires k in fields
    ensures |Text(Obj(fields))| >= |Text(fields[k])|
  {
    hide MembersText, StringText, SortedKeys;
    MembersAtLeast(Obj(fields), SortedKeys(fields.Keys), k);
  }
}
