/** Path expressions, against a schema and in the arguments of a call (internal/authz/policy.go). */
module Paths {
  // A path is resolved against the input schema when a policy is loaded, and
  // followed in the arguments of every call.  It is modelled as its list of
  // segments; null is a missing value.
  import opened Json

  datatype Option<T> = None | Some(value: T)

  datatype Failure = TypeInvalid | Missing | ArrayCap

  datatype Outcome = Found(strings: seq<string>) | Failed(why: Failure)

  datatype Segment = Segment(name: string, wildcard: bool)

  /** ValidatePathExpr, on segments. */
  predicate ValidPath(segs: seq<Segment>) {
    && 1 <= |segs| <= 4
    && forall i, j | 0 <= i < j < |segs| :: !(segs[i].wildcard && segs[j].wildcard)
  }

  // ----- schemas -----

  type Schema = map<string, Value>

  function Member(node: Schema, key: string): Value {
    if key in node then node[key] else Null
  }

  datatype Kind = TObject | TArray | TString | TInteger | TNumber | TBoolean

  function KindOf(name: string): Option<Kind> {
    if name == "object" then Some(TObject) else if name == "array" then Some(TArray)
    else if name == "string" then Some(TString) else if name == "integer" then Some(TInteger)
    else if name == "number" then Some(TNumber) else if name == "boolean" then Some(TBoolean) else None
  }

  /** parseAllowedSchemaType for input schemas: a basic type, or an array that may be null. */
  function ParseType(t: Value): Option<Kind> {
    match t
    case Str(name) => KindOf(name)
    case Arr(elems) =>
      if |elems| == 2 && elems[0].Str? && elems[1].Str?
         && ((elems[0].s == "null" && elems[1].s == "array") || (elems[1].s == "null" && elems[0].s == "array"))
      then Some(TArray) else None
    case _ => None
  }

  function TypeOf(node: Schema): Option<Kind> {
    ParseType(Member(node, "type"))
  }

  /** The schema of the property a segment names, or of its items. */
  function Child(node: Schema, seg: Segment): Option<Schema> {
    var props := Member(node, "properties");
    if !props.Obj? then None
    else
      var prop := Member(props.fields, seg.name);
      if !prop.Obj? then None
      else if TypeOf(prop.fields).None? then None
      else if !seg.wildcard then Some(prop.fields)
      else if TypeOf(prop.fields) != Some(TArray) then None
      else
        var items := Member(prop.fields, "items");
        if !items.Obj? then None else Some(items.fields)
  }

  /** resolvePathInSchema */
  function Resolve(node: Schema, segs: seq<Segment>): Option<Kind>
    decreases |segs|
  {
    if segs == [] then TypeOf(node)
    else
      match Child(node, segs[0])
      case None => None
      case Some(next) => Resolve(next, segs[1..])
  }

  /** walkSchemaSubset on an input schema, as far as types go: every node that can
      hold a value has an allowed type. */
  ghost predicate Walked(schema: Value)
    requires schema.Obj?
    decreases schema
  {
    var node := schema.fields;
    && TypeOf(node).Some?
    && (TypeOf(node) == Some(TObject) && "properties" in node && node["properties"].Obj? ==>
          forall k | k in node["properties"].fields ::
            node["properties"].fields[k].Obj? && Walked(node["properties"].fields[k]))
    && (TypeOf(node) == Some(TArray) ==> "items" in node && node["items"].Obj? && Walked(node["items"]))
  }

  // ----- arguments -----

  /** v has the type that t declares. */
  predicate HasType(v: Value, t: Value) {
    match ParseType(t)
    case None => true
    case Some(kind) =>
      match kind
      case TObject => v.Obj?
      case TArray => v.Arr? || (v.Null? && t.Arr?)
      case TString => v.Str?
      case TInteger => v.Num?
      case TNumber => v.Num?
      case TBoolean => v.Bool?
  }

  /** v conforms to the type, properties and items of the schema. */
  ghost predicate Conforms(v: Value, node: Schema)
    decreases v, 1
  {
    && HasType(v, Member(node, "type"))
    && (v.Obj? && Member(node, "properties").Obj? ==>
          forall k | k in v.fields :: MemberConforms(v, k, Member(node, "properties").fields))
    && (v.Arr? && Member(node, "items").Obj? ==>
          forall i | 0 <= i < |v.elems| :: ElementConforms(v, i, Member(node, "items").fields))
  }

  ghost predicate MemberConforms(v: Value, k: string, props: map<string, Value>)
    requires v.Obj? && k in v.fields
    decreases v, 0
  {
    k in props && props[k].Obj? ==> Conforms(v.fields[k], props[k].fields)
  }

  ghost predicate ElementConforms(v: Value, i: int, items: Schema)
    requires v.Arr? && 0 <= i < |v.elems|
    decreases v, 0
  {
    Conforms(v.elems[i], items)
  }

  predicate Blank(s: string) {
    forall k | 0 <= k < |s| :: IsSpace(s[k])
  }

  const HARD_CAP: nat := 1000

  // ----- extraction -----

  /** extractFromSegments */
  function Extract(curr: Value, segs: seq<Segment>, optional: bool): Outcome
    decreases |segs|, 0
  {
    if segs == [] then
      if !curr.Str? then Failed(TypeInvalid)
      else if Blank(curr.s) then Failed(Missing)
      else Found([curr.s])
    else if !curr.Obj? then Failed(TypeInvalid)
    else
      var val := Member(curr.fields, segs[0].name);
      if val.Null? then (if optional then Found([]) else Failed(Missing))
      else if !segs[0].wildcard then Extract(val, segs[1..], optional)
      else if !val.Arr? then Failed(TypeInvalid)
      else if val.elems == [] then Failed(Missing)
      else if |val.elems| > HARD_CAP then Failed(ArrayCap)
      else ExtractEach(val.elems, segs[1..])
  }

  function ExtractEach(elems: seq<Value>, rest: seq<Segment>): Outcome
    decreases |rest|, 1, |elems|
  {
    if elems == [] then Found([])
    else
      match ExtractEach(elems[..|elems| - 1], rest)
      case Failed(e) => Failed(e)
      case Found(out) =>
        var last := elems[|elems| - 1];
        if last.Null? then Failed(Missing)
        else
          match Extract(last, rest, false)
          case Failed(e) => Failed(e)
          case Found(more) => Found(out + more)
  }

  /** The recursive method with the loop over the elements. */
  method ExtractFromSegments(curr: Value, segs: seq<Segment>, optional: bool) returns (r: Outcome)
    ensures r == Extract(curr, segs, optional)
    decreases |segs|
  {
    if |segs| == 0 {
      if !curr.Str? {
        return Failed(TypeInvalid);
      }
      if Blank(curr.s) {
        return Failed(Missing);
      }
      return Found([curr.s]);
    }
    if !curr.Obj? {
      return Failed(TypeInvalid);
    }
    var val := Member(curr.fields, segs[0].name);
    if val.Null? {
      return if optional then Found([]) else Failed(Missing);
    }
    if !segs[0].wildcard {
      r := ExtractFromSegments(val, segs[1..], optional);
      return;
    }
    if !val.Arr? {
      return Failed(TypeInvalid);
    }
    if |val.elems| == 0 {
      return Failed(Missing);
    }
    if |val.elems| > HARD_CAP {
      return Failed(ArrayCap);
    }
    var out: seq<string> := [];
    for i := 0 to |val.elems|
      invariant ExtractEach(val.elems[..i], segs[1..]) == Found(out)
    {
      assert val.elems[..i + 1][..i] == val.elems[..i];
      if val.elems[i].Null? {
        FailsEach(val.elems, i + 1, segs[1..]);
        return Failed(Missing);
      }
      var sub := ExtractFromSegments(val.elems[i], segs[1..], false);
      if sub.Failed? {
        FailsEach(val.elems, i + 1, segs[1..]);
        return sub;
      }
      out := out + sub.strings;
    }
    assert val.elems[..|val.elems|] == val.elems;
    return Found(out);
  }

  /** The first failing element decides. */
  lemma {:induction false} FailsEach(elems: seq<Value>, n: nat, rest: seq<Segment>)
    requires n <= |elems| && ExtractEach(elems[..n], rest).Failed?
    ensures ExtractEach(elems, rest) == ExtractEach(elems[..n], rest)
    decreases |elems|
  {
    if n == |elems| {
      assert elems[..n] == elems;
    } else {
      assert elems[..|elems| - 1][..n] == elems[..n];
      FailsEach(elems[..|elems| - 1], n, rest);
    }
  }

  // ----- soundness -----

  /** Every node below the root from which the path goes on is an object. */
  predicate ObjectsOnPath(node: Schema, segs: seq<Segment>)
    decreases |segs|
  {
    if |segs| <= 1 then true
    else
      match Child(node, segs[0])
      case None => true
      case Some(next) => TypeOf(next) == Some(TObject) && ObjectsOnPath(next, segs[1..])
  }

  /** A conforming, present child value conforms to the child's schema. */
  lemma ChildConforms(v: Value, node: Schema, seg: Segment)
    requires v.Obj? && Conforms(v, node) && Child(node, seg).Some? && !Member(v.fields, seg.name).Null?
    ensures var val := Member(v.fields, seg.name);
            if !seg.wildcard then Conforms(val, Child(node, seg).value)
            else val.Arr? && forall i | 0 <= i < |val.elems| :: Conforms(val.elems[i], Child(node, seg).value)
  {
    var props := Member(node, "properties").fields;
    var val := v.fields[seg.name];
    assert MemberConforms(v, seg.name, props);
    assert Conforms(val, props[seg.name].fields);
    if seg.wildcard {
      forall i | 0 <= i < |val.elems| ensures Conforms(val.elems[i], Child(node, seg).value) {
        assert ElementConforms(val, i, Member(props[seg.name].fields, "items").fields);
      }
    }
  }

  lemma {:induction false} ExtractIsSound(v: Value, node: Schema, segs: seq<Segment>, optional: bool)
    requires Conforms(v, node) && Resolve(node, segs) == Some(TString) && ObjectsOnPath(node, segs)
    requires segs != [] ==> v.Obj?
    ensures Extract(v, segs, optional) != Failed(TypeInvalid)
    decreases |segs|, 0
  {
    if segs != [] {
      hide Conforms, Child;
      var next := Child(node, segs[0]).value;
      var val := Member(v.fields, segs[0].name);
      if !val.Null? {
        ChildConforms(v, node, segs[0]);
        if !segs[0].wildcard {
          ObjectIsObject(val, next, segs);
          ExtractIsSound(val, next, segs[1..], optional);
        } else {
          EachIsSound(val.elems, next, segs[1..], segs);
        }
      }
    }
  }

  lemma ObjectIsObject(v: Value, next: Schema, segs: seq<Segment>)
    requires Conforms(v, next) && segs != [] && (|segs| > 1 ==> TypeOf(next) == Some(TObject))
    ensures segs[1..] != [] ==> v.Obj?
  {
  }

  lemma {:induction false} EachIsSound(elems: seq<Value>, next: Schema, rest: seq<Segment>, segs: seq<Segment>)
    requires segs != [] && rest == segs[1..] && (|segs| > 1 ==> TypeOf(next) == Some(TObject))
    requires forall i | 0 <= i < |elems| :: Conforms(elems[i], next)
    requires Resolve(next, rest) == Some(TString) && ObjectsOnPath(next, rest)
    ensures ExtractEach(elems, rest) != Failed(TypeInvalid)
    decreases |rest|, 1, |elems|
  {
    hide Conforms;
    if elems != [] {
      var k := |elems| - 1;
      EachIsSound(elems[..k], next, rest, segs);
      ObjectIsObject(elems[k], next, segs);
      ExtractIsSound(elems[k], next, rest, false);
    }
  }

  // ----- ... exactly when the path goes through objects -----

  /** A value of a type other than object, and not null. */
  function Plain(kind: Option<Kind>): Value {
    if kind == Some(TArray) then Arr([])
    else if kind == Some(TString) then Str("x")
    else if kind == Some(TBoolean) then Bool(false)
    else Num(0)
  }

  /** Arguments that follow the path down to the first node that is no object. */
  function Offending(node: Schema, segs: seq<Segment>): Value
    decreases |segs|
  {
    if segs == [] || Child(node, segs[0]).None? then Null
    else
      var next := Child(node, segs[0]).value;
      var inner := if TypeOf(next) == Some(TObject) then Offending(next, segs[1..]) else Plain(TypeOf(next));
      Obj(map[segs[0].name := if segs[0].wildcard then Arr([inner]) else inner])
  }

  lemma WalkedChild(schema: Value, seg: Segment)
    requires schema.Obj? && Walked(schema) && TypeOf(schema.fields) == Some(TObject) && Child(schema.fields, seg).Some?
    ensures Walked(Obj(Child(schema.fields, seg).value)) && TypeOf(Child(schema.fields, seg).value).Some?
  {
    var props := schema.fields["properties"];
    assert seg.name in props.fields && Walked(props.fields[seg.name]);
    assert Obj(props.fields[seg.name].fields) == props.fields[seg.name];
    if seg.wildcard {
      var items := props.fields[seg.name].fields["items"];
      assert Obj(items.fields) == items;
    }
  }

  lemma PlainConforms(node: Schema)
    requires TypeOf(node).Some? && TypeOf(node) != Some(TObject)
    ensures Conforms(Plain(TypeOf(node)), node) && !Plain(TypeOf(node)).Obj? && !Plain(TypeOf(node)).Null?
  {
  }

  /** Wrapping a conforming child value gives conforming arguments. */
  lemma WrapConforms(node: Schema, seg: Segment, inner: Value)
    requires TypeOf(node) == Some(TObject) && Child(node, seg).Some? && Conforms(inner, Child(node, seg).value)
    ensures Conforms(Obj(map[seg.name := if seg.wildcard then Arr([inner]) else inner]), node)
  {
    var val := if seg.wildcard then Arr([inner]) else inner;
    var props := node["properties"].fields;
    assert Conforms(val, props[seg.name].fields) by {
      if seg.wildcard {
        assert ElementConforms(val, 0, props[seg.name].fields["items"].fields);
      }
    }
    assert MemberConforms(Obj(map[seg.name := val]), seg.name, props);
  }

  lemma WrapExtract(node: Schema, segs: seq<Segment>, inner: Value, optional: bool)
    requires segs != [] && !inner.Null? && forall o :: Extract(inner, segs[1..], o) == Failed(TypeInvalid)
    ensures Extract(Obj(map[segs[0].name := if segs[0].wildcard then Arr([inner]) else inner]), segs, optional) == Failed(TypeInvalid)
  {
    assert [inner][..0] == [];
    assert ExtractEach([inner], segs[1..]) == Failed(TypeInvalid);
  }

  lemma {:induction false} OffendingOffends(schema: Value, segs: seq<Segment>, optional: bool)
    requires schema.Obj? && Walked(schema) && TypeOf(schema.fields) == Some(TObject)
    requires Resolve(schema.fields, segs).Some? && !ObjectsOnPath(schema.fields, segs)
    ensures var v := Offending(schema.fields, segs);
            v.Obj? && Conforms(v, schema.fields) && forall o :: Extract(v, segs, o) == Failed(TypeInvalid)
    decreases |segs|
  {
    hide Conforms, Child, Walked, Extract;
    var node := schema.fields;
    var next := Child(node, segs[0]).value;
    WalkedChild(schema, segs[0]);
    var inner := if TypeOf(next) == Some(TObject) then Offending(next, segs[1..]) else Plain(TypeOf(next));
    if TypeOf(next) == Some(TObject) {
      OffendingOffends(Obj(next), segs[1..], optional);
    } else {
      PlainConforms(next);
      NoObjectNoPath(inner, segs[1..]);
    }
    WrapConforms(node, segs[0], inner);
    forall o ensures Extract(Offending(node, segs), segs, o) == Failed(TypeInvalid) {
      WrapExtract(node, segs, inner, o);
    }
  }

  lemma NoObjectNoPath(v: Value, segs: seq<Segment>)
    requires !v.Obj? && segs != []
    ensures forall o :: Extract(v, segs, o) == Failed(TypeInvalid)
  {
  }

  /** Main result: a path that resolves to string never meets a type error on
      conforming arguments exactly when every node it goes on from is an object;
      properties may be declared on a node of another type, and then some conforming
      arguments fail. */
  lemma PathIsSoundIff(schema: Value, segs: seq<Segment>, optional: bool)
    requires schema.Obj? && Walked(schema) && TypeOf(schema.fields) == Some(TObject)
    requires Resolve(schema.fields, segs) == Some(TString)
    ensures ObjectsOnPath(schema.fields, segs) <==>
            forall v: Value :: v.Obj? && Conforms(v, schema.fields) ==> Extract(v, segs, optional) != Failed(TypeInvalid)
  {
    hide Conforms, Child, Walked, Extract, Resolve, ObjectsOnPath;
    if ObjectsOnPath(schema.fields, segs) {
      forall v: Value | v.Obj? && Conforms(v, schema.fields) ensures Extract(v, segs, optional) != Failed(TypeInvalid) {
        ExtractIsSound(v, schema.fields, segs, optional);
      }
    } else {
      OffendingOffends(schema, segs, optional);
    }
  }

  // ----- what is extracted -----

  /** Follow the segments' names, through no wildcard. */
  function Follow(v: Value, names: seq<Segment>): Option<Value> {
    if names == [] then Some(v)
    else if !v.Obj? || Member(v.fields, names[0].name).Null? then None
    else Follow(Member(v.fields, names[0].name), names[1..])
  }

  predicate Plainly(segs: seq<Segment>) {
    forall i | 0 <= i < |segs| :: !segs[i].wildcard
  }

  /** The leaf at the end of a path without wildcard. */
  predicate LeafIs(v: Value, segs: seq<Segment>, s: string) {
    Follow(v, segs) == Some(Str(s)) && !Blank(s)
  }

  lemma {:induction false} PlainExtract(v: Value, segs: seq<Segment>, optional: bool, out: seq<string>)
    requires Plainly(segs)
    ensures Extract(v, segs, optional) == Found(out) && out != [] <==> |out| == 1 && LeafIs(v, segs, out[0])
    ensures Extract(v, segs, optional) == Found([]) ==> optional
    decreases |segs|
  {
    if segs != [] && v.Obj? && !Member(v.fields, segs[0].name).Null? {
      PlainExtract(Member(v.fields, segs[0].name), segs[1..], optional, out);
    }
  }

  /** Element by element, in order. */
  predicate LeavesAre(elems: seq<Value>, rest: seq<Segment>, out: seq<string>) {
    |out| == |elems| && forall i | 0 <= i < |elems| :: LeafIs(elems[i], rest, out[i])
  }

  lemma NullHasNoLeaf(v: Value, rest: seq<Segment>, s: string)
    requires v.Null?
    ensures !LeafIs(v, rest, s)
  {
  }

  lemma {:induction false} EachExtract(elems: seq<Value>, rest: seq<Segment>, out: seq<string>)
    requires Plainly(rest)
    ensures ExtractEach(elems, rest) == Found(out) <==> LeavesAre(elems, rest, out)
    decreases |elems|
  {
    hide Extract, LeafIs;
    if elems != [] {
      var k := |elems| - 1;
      if |out| == |elems| {
        EachExtract(elems[..k], rest, out[..k]);
        PlainExtract(elems[k], rest, false, [out[k]]);
        NullOrNot(elems[k], rest, out[k]);
        assert out == out[..k] + [out[k]];
        LeavesSnoc(elems, rest, out);
      }
      if ExtractEach(elems, rest) == Found(out) {
        var init := ExtractEach(elems[..k], rest).strings;
        EachExtract(elems[..k], rest, init);
        var more := Extract(elems[k], rest, false).strings;
        PlainExtract(elems[k], rest, false, more);
        assert out == init + more;
      }
    }
  }

  lemma NullOrNot(v: Value, rest: seq<Segment>, s: string)
    ensures v.Null? ==> !LeafIs(v, rest, s)
  {
    if v.Null? {
      NullHasNoLeaf(v, rest, s);
    }
  }

  lemma LeavesSnoc(elems: seq<Value>, rest: seq<Segment>, out: seq<string>)
    requires elems != [] && |out| == |elems|
    ensures var k := |elems| - 1;
            LeavesAre(elems, rest, out) <==> LeavesAre(elems[..k], rest, out[..k]) && LeafIs(elems[k], rest, out[k])
  {
    hide LeafIs;
  }

  /** Main result: a path with a wildcard extracts strings exactly when it leads to
      an array of 1 to 1000 elements, each with a non-blank string at the rest of
      the path; and then it extracts those, one per element and in order. */
  lemma {:induction false} WildcardExtractsEach(v: Value, pre: seq<Segment>, star: Segment, rest: seq<Segment>, optional: bool,
                                                out: seq<string>)
    requires Plainly(pre) && star.wildcard && Plainly(rest)
    ensures Extract(v, pre + [star] + rest, optional) == Found(out) && out != [] <==>
            exists elems :: ArrayAt(v, pre + [star], elems) && 1 <= |elems| <= 1000 && LeavesAre(elems, rest, out)
    decreases |pre|
  {
    hide LeavesAre;
    var segs := pre + [star] + rest;
    if pre == [] {
      assert segs[0] == star && segs[1..] == rest;
      StarExtracts(v, star, rest, segs, optional, out);
      assert pre + [star] == [star];
    } else {
      assert segs[0] == pre[0] && segs[1..] == pre[1..] + [star] + rest;
      assert (pre + [star])[1..] == pre[1..] + [star];
      if v.Obj? && !Member(v.fields, pre[0].name).Null? {
        var val := Member(v.fields, pre[0].name);
        WildcardExtractsEach(val, pre[1..], star, rest, optional, out);
        assert forall elems :: ArrayAt(v, pre + [star], elems) <==> ArrayAt(val, pre[1..] + [star], elems);
      } else {
        assert forall elems :: !ArrayAt(v, pre + [star], elems);
      }
    }
  }

  predicate ArrayAt(v: Value, names: seq<Segment>, elems: seq<Value>) {
    Follow(v, names) == Some(Arr(elems))
  }

  lemma FollowOne(v: Value, seg: Segment)
    ensures Follow(v, [seg])
         == if !v.Obj? || Member(v.fields, seg.name).Null? then None else Some(Member(v.fields, seg.name))
  {
    assert [seg][1..] == [];
    if v.Obj? && !Member(v.fields, seg.name).Null? {
      assert Follow(Member(v.fields, seg.name), [seg][1..]) == Some(Member(v.fields, seg.name));
    }
  }

  lemma StarExtracts(v: Value, star: Segment, rest: seq<Segment>, segs: seq<Segment>, optional: bool, out: seq<string>)
    requires star.wildcard && Plainly(rest) && segs != [] && segs[0] == star && segs[1..] == rest
    ensures Extract(v, segs, optional) == Found(out) && out != [] <==>
            exists elems :: ArrayAt(v, [star], elems) && 1 <= |elems| <= 1000 && LeavesAre(elems, rest, out)
  {
    hide LeafIs, ExtractEach;
    forall elems ensures ArrayAt(v, [star], elems) <==> v.Obj? && Member(v.fields, star.name) == Arr(elems) {
      FollowOne(v, star);
    }
    if v.Obj? && Member(v.fields, star.name).Arr? {
      var elems := Member(v.fields, star.name).elems;
      EachExtract(elems, rest, out);
      assert ArrayAt(v, [star], elems);
    }
  }

  // ----- whole path expressions -----

  /** ExtractStrings */
  method ExtractStrings(obj: map<string, Value>, segs: seq<Segment>, optional: bool) returns (r: Outcome)
    ensures r == Extracted(obj, segs, optional)
  {
    if !ValidPath(segs) {
      return Failed(TypeInvalid);
    }
    r := ExtractFromSegments(Obj(obj), segs, optional);
  }

  function Extracted(obj: map<string, Value>, segs: seq<Segment>, optional: bool): Outcome {
    if ValidPath(segs) then Extract(Obj(obj), segs, optional) else Failed(TypeInvalid)
  }

  function FirstWildcard(segs: seq<Segment>): (i: nat)
    requires !Plainly(segs)
    ensures i < |segs| && segs[i].wildcard && Plainly(segs[..i])
  {
    if segs[0].wildcard then 0 else 1 + FirstWildcard(segs[1..])
  }

  /** What a path means: one leaf, or the leaf of every element of an array. */
  ghost predicate Denotes(v: Value, segs: seq<Segment>, out: seq<string>) {
    if Plainly(segs) then |out| == 1 && LeafIs(v, segs, out[0])
    else
      var i := FirstWildcard(segs);
      exists elems :: ArrayAt(v, segs[..i + 1], elems) && 1 <= |elems| <= 1000 && LeavesAre(elems, segs[i + 1..], out)
  }

  /** Main result: ExtractStrings yields strings exactly when the path is valid and
      denotes them, and never more than 1000. */
  lemma ExtractStringsIff(obj: map<string, Value>, segs: seq<Segment>, optional: bool, out: seq<string>)
    ensures Extracted(obj, segs, optional) == Found(out) && out != [] <==>
            ValidPath(segs) && Denotes(Obj(obj), segs, out)
    ensures Extracted(obj, segs, optional) == Found(out) ==> |out| <= 1000
  {
    hide Extract, LeavesAre, LeafIs;
    if ValidPath(segs) {
      if Plainly(segs) {
        PlainExtract(Obj(obj), segs, optional, out);
      } else {
        var i := FirstWildcard(segs);
        assert segs == segs[..i] + [segs[i]] + segs[i + 1..];
        assert segs[..i + 1] == segs[..i] + [segs[i]];
        assert Plainly(segs[i + 1..]);
        WildcardExtractsEach(Obj(obj), segs[..i], segs[i], segs[i + 1..], optional, out);
        forall elems | LeavesAre(elems, segs[i + 1..], out) ensures |out| == |elems| {
          OnePerElement(elems, segs[i + 1..], out);
        }
      }
    }
  }

  lemma OnePerElement(elems: seq<Value>, rest: seq<Segment>, out: seq<string>)
    requires LeavesAre(elems, rest, out)
    ensures |out| == |elems|
  {
  }

  /** The path breaks off at member i: what leads there is an object without it. */
  ghost predicate BreaksOff(v: Value, segs: seq<Segment>, i: int)
    requires 0 <= i < |segs|
  {
    && Plainly(segs[..i])
    && exists fields: Schema :: Follow(v, segs[..i]) == Some(Obj(fields)) && (segs[i].name in fields ==> fields[segs[i].name].Null?)
  }

  lemma BreakShifts(v: Value, segs: seq<Segment>, i: nat)
    requires i + 1 < |segs| && v.Obj? && !Member(v.fields, segs[0].name).Null?
    ensures BreaksOff(v, segs, i + 1) <==> !segs[0].wildcard && BreaksOff(Member(v.fields, segs[0].name), segs[1..], i)
  {
    assert segs[..i + 1] == [segs[0]] + segs[1..][..i];
    assert segs[..i + 1][1..] == segs[1..][..i];
    assert Plainly(segs[..i + 1]) <==> !segs[0].wildcard && Plainly(segs[1..][..i]) by {
      assert forall j | 0 <= j < i :: segs[..i + 1][j + 1] == segs[1..][..i][j];
      assert segs[..i + 1][0] == segs[0];
    }
  }

  lemma BreaksAtOnce(v: Value, segs: seq<Segment>)
    requires segs != []
    ensures BreaksOff(v, segs, 0) <==> v.Obj? && Member(v.fields, segs[0].name).Null?
  {
    assert segs[..0] == [];
  }

  lemma NeedsObject(v: Value, segs: seq<Segment>, i: nat)
    requires i < |segs| && BreaksOff(v, segs, i)
    ensures v.Obj? && (i > 0 ==> !Member(v.fields, segs[0].name).Null?)
  {
    if i > 0 {
      assert segs[..i][0] == segs[0];
    }
  }

  ghost predicate Breaks(v: Value, segs: seq<Segment>) {
    exists i :: 0 <= i < |segs| && BreaksOff(v, segs, i)
  }

  lemma BreaksIff(v: Value, segs: seq<Segment>)
    requires segs != []
    ensures Breaks(v, segs) <==>
            v.Obj? && (Member(v.fields, segs[0].name).Null?
                       || (!segs[0].wildcard && Breaks(Member(v.fields, segs[0].name), segs[1..])))
  {
    hide BreaksOff;
    BreaksAtOnce(v, segs);
    if i :| 0 <= i < |segs| && BreaksOff(v, segs, i) {
      NeedsObject(v, segs, i);
      if i > 0 {
        BreakShifts(v, segs, i - 1);
      }
    }
    if v.Obj? && !Member(v.fields, segs[0].name).Null? && !segs[0].wildcard && Breaks(Member(v.fields, segs[0].name), segs[1..]) {
      var i: nat :| i < |segs[1..]| && BreaksOff(Member(v.fields, segs[0].name), segs[1..], i);
      BreakShifts(v, segs, i);
    }
  }

  lemma {:induction false} NothingIff(v: Value, segs: seq<Segment>, optional: bool)
    ensures Extract(v, segs, optional) == Found([]) <==> optional && Breaks(v, segs)
    decreases |segs|, 0
  {
    hide Breaks;
    if segs == [] {
      NoBreak(v, segs);
    } else {
      BreaksIff(v, segs);
      if v.Obj? && !Member(v.fields, segs[0].name).Null? {
        var val := Member(v.fields, segs[0].name);
        NothingIff(val, segs[1..], optional);
        if val.Arr? {
          EachYields(val.elems, segs[1..]);
        }
      }
    }
  }

  lemma NoBreak(v: Value, segs: seq<Segment>)
    requires segs == []
    ensures !Breaks(v, segs)
  {
  }

  /** A list gives something for each of its elements, or an error. */
  lemma {:induction false} EachYields(elems: seq<Value>, rest: seq<Segment>)
    ensures ExtractEach(elems, rest) == Found([]) ==> elems == []
    decreases |rest|, 1
  {
    if elems != [] {
      NothingIff(elems[|elems| - 1], rest, false);
    }
  }

  /** Nothing is extracted, without an error, exactly when the path is optional and a
      member that it goes through, before any wildcard, is missing or null. */
  lemma ExtractsNothingIff(obj: map<string, Value>, segs: seq<Segment>, optional: bool)
    ensures Extracted(obj, segs, optional) == Found([]) <==>
            ValidPath(segs) && optional && exists i :: 0 <= i < |segs| && BreaksOff(Obj(obj), segs, i)
  {
    hide Extract, BreaksOff;
    NothingIff(Obj(obj), segs, optional);
  }
}
