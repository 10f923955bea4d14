/** The buffer-writing serialiser of internal/authz/jcs.go, proved against Json.Text. */
module JsonWriter {
  import opened Utf16
  import opened Json

  /** The switch on one character in writeJCSString. */
  method WriteChar(buf: string, c: char) returns (out: string)
    ensures out == buf + Escape(c)
  {
    var r := c as int;
    if r < 0x20 {
      if r == 8 { out := buf + "\\b"; }
      else if r == 9 { out := buf + "\\t"; }
      else if r == 10 { out := buf + "\\n"; }
      else if r == 12 { out := buf + "\\f"; }
      else if r == 13 { out := buf + "\\r"; }
      else { out := buf + ("\\u00" + [HexDigit(r / 16), HexDigit(r % 16)]); }
    } else if c == '"' {
      out := buf + "\\\"";
    } else if c == '\\' {
      out := buf + "\\\\";
    } else {
      out := buf + [c];
    }
  }

  /** writeJCSString */
  method WriteString(buf: string, s: string) returns (out: string)
    ensures out == buf + StringText(s)
  {
    hide Escape;
    out := buf + "\"";
    var i := 0;
    while i < |s|
      invariant i <= |s|
      invariant out + EscapeAll(s[i..]) == buf + "\"" + EscapeAll(s)
    {
      assert s[i..][1..] == s[i + 1..];
      out := WriteChar(out, s[i]);
      i := i + 1;
    }
    assert EscapeAll(s[i..]) == "" && out + "" == out;
    out := out + "\"";
    assert out == buf + ("\"" + EscapeAll(s) + "\"");
  }

  /** The part of an array's text from element i on, with its separator. */
  ghost function ElementsFrom(v: Value, i: nat): string
    requires v.Arr? && i <= |v.elems|
  {
    if i == |v.elems| then "" else (if i == 0 then "" else ",") + ElementsText(v, i)
  }

  ghost function MembersFrom(v: Value, keys: seq<string>, i: nat): string
    requires v.Obj? && i <= |keys| && forall j | 0 <= j < |keys| :: keys[j] in v.fields
  {
    if i == |keys| then "" else (if i == 0 then "" else ",") + MembersText(v, keys[i..])
  }

  lemma NextElement(v: Value, i: nat)
    requires v.Arr? && i < |v.elems|
    ensures ElementsFrom(v, i) == (if i == 0 then "" else ",") + Text(v.elems[i]) + ElementsFrom(v, i + 1)
  {
  }

  lemma NextMember(v: Value, keys: seq<string>, i: nat)
    requires v.Obj? && i < |keys| && forall j | 0 <= j < |keys| :: keys[j] in v.fields
    ensures MembersFrom(v, keys, i)
         == (if i == 0 then "" else ",") + StringText(keys[i]) + ":" + Text(v.fields[keys[i]]) + MembersFrom(v, keys, i + 1)
  {
    assert keys[i..][1..] == keys[i + 1..];
  }

  lemma ArrayText(v: Value)
    requires v.Arr?
    ensures Text(v) == if v.elems == [] then "[]" else "[" + ElementsText(v, 0) + "]"
  {
    hide StringText, IntText;
  }

  lemma ObjectText(v: Value)
    requires v.Obj?
    ensures Text(v) == if v.fields == map[] then "{}" else "{" + MembersText(v, SortedKeys(v.fields.Keys)) + "}"
  {
    hide StringText, IntText, SortedKeys;
  }

  lemma Enclosed(buf: string, open: string, inner: string, close: string)
    ensures buf + open + inner + close == buf + (open + inner + close)
  {
  }

  lemma CloseArray(buf: string, v: Value, out: string)
    requires v.Arr? && out + ElementsFrom(v, |v.elems|) == buf + "[" + ElementsFrom(v, 0)
    ensures out + "]" == buf + Text(v)
  {
    hide Text, ElementsText;
    ArrayText(v);
    assert out + "" == out && "[" + "" + "]" == "[]";
    Enclosed(buf, "[", ElementsFrom(v, 0), "]");
  }

  lemma NoMembersLeft(v: Value, keys: seq<string>)
    requires v.Obj? && forall j | 0 <= j < |keys| :: keys[j] in v.fields
    ensures MembersFrom(v, keys, |keys|) == ""
  {
  }

  lemma ObjectInner(v: Value, keys: seq<string>)
    requires v.Obj? && keys == SortedKeys(v.fields.Keys)
    ensures Text(v) == "{" + MembersFrom(v, keys, 0) + "}"
  {
    hide Text, SortedKeys, MembersText;
    ObjectText(v);
    if v.fields == map[] {
      assert |v.fields.Keys| == 0;
    } else {
      assert keys[0..] == keys;
    }
  }

  lemma CloseObject(buf: string, v: Value, keys: seq<string>, out: string)
    requires v.Obj? && keys == SortedKeys(v.fields.Keys)
    requires out + MembersFrom(v, keys, |keys|) == buf + "{" + MembersFrom(v, keys, 0)
    ensures out + "}" == buf + Text(v)
  {
    hide Text, SortedKeys, MembersText, MembersFrom;
    ObjectInner(v, keys);
    NoMembersLeft(v, keys);
    assert out + "" == out;
    Enclosed(buf, "{", MembersFrom(v, keys, 0), "}");
  }

  method EnumerateKeys(m: map<string, Value>) returns (keys: seq<string>)
    ensures forall i, j | 0 <= i < j < |keys| :: keys[i] != keys[j]
    ensures forall k :: k in keys <==> k in m.Keys
  {
    keys := [];
    var rest := m.Keys;
    while rest != {}
      invariant rest <= m.Keys
      invariant forall i, j | 0 <= i < j < |keys| :: keys[i] != keys[j]
      invariant forall k :: k in keys <==> k in m.Keys - rest
      decreases |rest|
    {
      var k :| k in rest;
      assert k !in keys;
      keys, rest := keys + [k], rest - {k};
    }
  }

  /** The keys of a map, sorted: the enumeration order leaves no trace. */
  method KeysInOrder(m: map<string, Value>) returns (keys: seq<string>)
    ensures keys == SortedKeys(m.Keys)
    ensures forall i | 0 <= i < |keys| :: keys[i] in m
  {
    hide Sorted;
    var enumerated := EnumerateKeys(m);
    keys := SortKeys(enumerated);
    assert keys == SortedKeys(m.Keys);
  }

  /** writeJCSValue: appends the canonical text, or reports an integer outside int53. */
  method WriteValue(buf: string, v: Value) returns (r: Result<string>)
    ensures if Serialisable(v) then r == Ok(buf + Text(v)) else r == Err(BadInteger)
    decreases v, 2
  {
    match v {
      case Null => r := Ok(buf + "null");
      case Bool(b) => r := Ok(buf + if b then "true" else "false");
      case Num(n) => r := if IsInt53(n) then Ok(buf + IntText(n)) else Err(BadInteger);
      case Str(s) =>
        var out := WriteString(buf, s);
        r := Ok(out);
      case Arr(_) => r := WriteArray(buf, v);
      case Obj(_) => r := WriteObject(buf, v);
    }
  }

  method WriteArray(buf: string, v: Value) returns (r: Result<string>)
    requires v.Arr?
    ensures if Serialisable(v) then r == Ok(buf + Text(v)) else r == Err(BadInteger)
    decreases v, 0
  {
    hide Text, ElementsText, ElementsFrom;
    var out := buf + "[";
    var i := 0;
    while i < |v.elems|
      invariant i <= |v.elems|
      invariant forall j | 0 <= j < i :: Serialisable(v.elems[j])
      invariant out + ElementsFrom(v, i) == buf + "[" + ElementsFrom(v, 0)
    {
      NextElement(v, i);
      if i > 0 {
        out := out + ",";
      }
      var w := WriteValue(out, v.elems[i]);
      if w.Err? {
        return w;
      }
      out := w.value;
      i := i + 1;
    }
    CloseArray(buf, v, out);
    r := Ok(out + "]");
  }

  method WriteMember(buf: string, v: Value, k: string, first: bool) returns (r: Result<string>)
    requires v.Obj? && k in v.fields
    ensures if Serialisable(v.fields[k])
            then r == Ok(buf + ((if first then "" else ",") + StringText(k) + ":" + Text(v.fields[k])))
            else r == Err(BadInteger)
    decreases v, 0
  {
    hide Text, Serialisable, StringText;
    var out := buf;
    if !first {
      out := out + ",";
    }
    out := WriteString(out, k);
    out := out + ":";
    assert out == buf + ((if first then "" else ",") + StringText(k) + ":");
    r := WriteValue(out, v.fields[k]);
    assert Serialisable(v.fields[k]) ==>
             out + Text(v.fields[k]) == buf + ((if first then "" else ",") + StringText(k) + ":" + Text(v.fields[k]));
  }

  method WriteObject(buf: string, v: Value) returns (r: Result<string>)
    requires v.Obj?
    ensures if Serialisable(v) then r == Ok(buf + Text(v)) else r == Err(BadInteger)
    decreases v, 1
  {
    hide Text, MembersText, MembersFrom, StringText, SortedKeys;
    var keys := KeysInOrder(v.fields);
    var out := buf + "{";
    var i := 0;
    while i < |keys|
      invariant i <= |keys|
      invariant forall j | 0 <= j < i :: Serialisable(v.fields[keys[j]])
      invariant out + MembersFrom(v, keys, i) == buf + "{" + MembersFrom(v, keys, 0)
    {
      NextMember(v, keys, i);
      var w := WriteMember(out, v, keys[i], i == 0);
      if w.Err? {
        return w;
      }
      out := w.value;
      i := i + 1;
    }
    CloseObject(buf, v, keys, out);
    r := Ok(out + "}");
  }

  /** MarshalJCS */
  method MarshalJCS(v: Value) returns (r: Result<string>)
    ensures if Serialisable(v) then r == Ok(Text(v)) else r == Err(BadInteger)
  {
    r := WriteValue("", v);
    assert Serialisable(v) ==> "" + Text(v) == Text(v);
  }
}
