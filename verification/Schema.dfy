/**
 What a schema node means on its own, without a registry: the type it stands for, and the named schemas
 its resolution asks for. The registry is proved against this in SchemaRegistry.
 */
module Schema {
  import opened Wrappers
  import Strings

  /** A decoded YAML value. */
  datatype Node =
    | Text(text: string)
    | Truth(value: bool)
    | List(items: seq<Node>)
    | Obj(fields: map<string, Node>)
    | Number
    | Null

  /** A resolved schema; only a named schema has a doc, see `Named`. */
  datatype TypeSpec =
    | StringType(enums: seq<string>)
    | IntegerType
    | NumberType
    | BooleanType
    | ArrayType(elem: TypeSpec)
    | ObjectType(fields: seq<Field>)
    | RefType(name: string)
    | MapType(elem: TypeSpec)
    | UnionType(variants: seq<TypeSpec>)
    | AnyType

  datatype Field = Field(name: string, ty: TypeSpec, required: bool, doc: string)

  /** The body of a named schema. */
  datatype Named = Named(body: TypeSpec, doc: string)

  /** What the registry holds for a name while it resolves it, and for a dangling one. */
  const PLACEHOLDER := Named(AnyType, "")

  type Schemas = map<string, Node>

  // --------------------------------------------------------------- accessors

  /** `m[key].(map[string]interface{})`, with a nil map where that fails. */
  function ObjectAt(m: map<string, Node>, key: string): map<string, Node> {
    if key in m && m[key].Obj? then m[key].fields else map[]
  }

  /** stringField */
  function TextAt(m: map<string, Node>, key: string): string {
    if key in m && m[key].Text? then m[key].text else ""
  }

  function ListAt(m: map<string, Node>, key: string): Option<seq<Node>> {
    if key in m && m[key].List? then Some(m[key].items) else None
  }

  /** stringSlice */
  function Texts(list: Option<seq<Node>>): seq<string> {
    if list.None? then [] else TextsOf(list.value)
  }

  function TextsOf(items: seq<Node>): seq<string> {
    if items == [] then []
    else
      var init, last := items[..|items| - 1], items[|items| - 1];
      TextsOf(init) + if last.Text? then [last.text] else []
  }

  method StringSlice(list: Option<seq<Node>>) returns (out: seq<string>)
    ensures out == Texts(list)
  {
    if list.None? {
      return [];
    }
    out := [];
    for i := 0 to |list.value|
      invariant out == TextsOf(list.value[..i])
    {
      assert list.value[..i + 1][..i] == list.value[..i];
      if list.value[i].Text? {
        out := out + [list.value[i].text];
      }
    }
    assert list.value[..|list.value|] == list.value;
  }

  /** firstLine, as a meaning: the longest prefix without a line break. */
  ghost predicate IsFirstLine(s: string, line: string) {
    line <= s && '\n' !in line && (|line| < |s| ==> s[|line|] == '\n')
  }

  function FirstLine(s: string): (line: string)
    ensures IsFirstLine(s, line)
  {
    if s == "" || s[0] == '\n' then "" else [s[0]] + FirstLine(s[1..])
  }

  method ScanFirstLine(s: string) returns (line: string)
    ensures line == FirstLine(s)
  {
    for i := 0 to |s|
      invariant '\n' !in s[..i]
    {
      if s[i] == '\n' {
        FirstLineIsUnique(s, s[..i], FirstLine(s));
        return s[..i];
      }
    }
    FirstLineIsUnique(s, s, FirstLine(s));
    return s;
  }

  lemma FirstLineIsUnique(s: string, a: string, b: string)
    requires IsFirstLine(s, a) && IsFirstLine(s, b)
    ensures a == b
  {
    assert forall i | 0 <= i < |a| :: s[i] == a[i] && s[i] != '\n';
    assert forall i | 0 <= i < |b| :: s[i] == b[i] && s[i] != '\n';
  }

  /** lastPathSegment, as a meaning: the longest suffix without a slash. */
  ghost predicate IsLastSegment(ref: string, name: string) {
    && |name| <= |ref| && name == ref[|ref| - |name|..] && '/' !in name
    && (|name| < |ref| ==> ref[|ref| - |name| - 1] == '/')
  }

  function LastSegment(ref: string): (name: string)
    ensures IsLastSegment(ref, name)
  {
    if ref == "" || ref[|ref| - 1] == '/' then "" else LastSegment(ref[..|ref| - 1]) + [ref[|ref| - 1]]
  }

  method LastPathSegment(ref: string) returns (name: string)
    ensures name == LastSegment(ref)
  {
    var i := |ref|;
    while i > 0 && ref[i - 1] != '/'
      invariant 0 <= i <= |ref| && '/' !in ref[i..]
    {
      i := i - 1;
    }
    name := ref[i..];
    LastSegmentIsUnique(ref, name, LastSegment(ref));
  }

  lemma LastSegmentIsUnique(ref: string, a: string, b: string)
    requires IsLastSegment(ref, a) && IsLastSegment(ref, b)
    ensures a == b
  {
    assert forall i | |ref| - |a| <= i < |ref| :: ref[i] == a[i - |ref| + |a|] && ref[i] != '/';
    assert forall i | |ref| - |b| <= i < |ref| :: ref[i] == b[i - |ref| + |b|] && ref[i] != '/';
  }

  // ----------------------------------------------------------------- meaning

  /** The variants of a union: oneOf before anyOf, if not empty. */
  function Variants(m: map<string, Node>): seq<Node> {
    var oneOf := ListAt(m, "oneOf");
    var variants := if oneOf.Some? then oneOf else ListAt(m, "anyOf");
    if variants.Some? then variants.value else []
  }

  /** The one entry of a single-entry allOf. */
  function SoleAllOf(m: map<string, Node>): Option<Node> {
    var allOf := ListAt(m, "allOf");
    if allOf.Some? && |allOf.value| == 1 then Some(allOf.value[0]) else None
  }

  /** The shapes a node can have, in the order the resolver tries them. */
  datatype Shape =
    | RefShape(name: string)
    | SameShape(node: Node)
    | UnionShape(nodes: seq<Node>)
    | ArrayShape(items: Option<Node>)
    | StringShape
    | IntegerShape
    | NumberShape
    | BooleanShape
    | FieldsShape(props: map<string, Node>)
    | MapShape(values: Node)
    | EmptyShape
    | UnknownShape

  ghost predicate Under(child: Node, parent: Node) {
    parent decreases to child
  }

  function ShapeOf(m: map<string, Node>): (shape: Shape)
    ensures shape.SameShape? ==> Under(shape.node, Obj(m))
    ensures shape.UnionShape? ==> forall i | 0 <= i < |shape.nodes| :: Under(shape.nodes[i], Obj(m))
    ensures shape.ArrayShape? && shape.items.Some? ==> Under(shape.items.value, Obj(m))
    ensures shape.FieldsShape? ==> forall k | k in shape.props :: Under(shape.props[k], Obj(m))
    ensures shape.MapShape? ==> Under(shape.values, Obj(m))
  {
    if "$ref" in m && m["$ref"].Text? then RefShape(LastSegment(m["$ref"].text))
    else if SoleAllOf(m).Some? then SameShape(SoleAllOf(m).value)
    else if Variants(m) != [] then UnionShape(Variants(m))
    else PrimitiveShape(m)
  }

  function PrimitiveShape(m: map<string, Node>): (shape: Shape)
    ensures shape.ArrayShape? && shape.items.Some? ==> Under(shape.items.value, Obj(m))
    ensures shape.FieldsShape? ==> forall k | k in shape.props :: Under(shape.props[k], Obj(m))
    ensures shape.MapShape? ==> Under(shape.values, Obj(m))
    ensures !shape.RefShape? && !shape.SameShape? && !shape.UnionShape?
  {
    var ty := TextAt(m, "type");
    if ty == "array" then ArrayShape(if "items" in m then Some(m["items"]) else None)
    else if ty == "string" then StringShape
    else if ty == "integer" then IntegerShape
    else if ty == "number" then NumberShape
    else if ty == "boolean" then BooleanShape
    else if ty == "object" || ty == "" then
      if ObjectAt(m, "properties") != map[] then FieldsShape(m["properties"].fields)
      else if "additionalProperties" in m && m["additionalProperties"].Obj? then MapShape(m["additionalProperties"])
      else EmptyShape
    else UnknownShape
  }

  ghost function Meaning(node: Node): TypeSpec
    decreases node, 1
  {
    if !node.Obj? then AnyType
    else
      match ShapeOf(node.fields)
      case RefShape(name) => RefType(name)
      case SameShape(inner) => Meaning(inner)
      case UnionShape(nodes) => UnionType(Meanings(node, nodes))
      case ArrayShape(items) => ArrayType(if items.Some? then ObjectMeaning(items.value) else ObjectType([]))
      case StringShape => StringType(Texts(ListAt(node.fields, "enum")))
      case IntegerShape => IntegerType
      case NumberShape => NumberType
      case BooleanShape => BooleanType
      case FieldsShape(props) => ObjectType(FieldMeanings(node, props, Strings.Ordered(props.Keys)))
      case MapShape(values) => MapType(ObjectMeaning(values))
      case EmptyShape => ObjectType([])
      case UnknownShape => AnyType
  }

  ghost function Meanings(parent: Node, nodes: seq<Node>): seq<TypeSpec>
    requires forall i | 0 <= i < |nodes| :: parent decreases to nodes[i]
    decreases parent, 0, |nodes|
  {
    if nodes == [] then []
    else Meanings(parent, nodes[..|nodes| - 1]) + [Meaning(nodes[|nodes| - 1])]
  }

  ghost function FieldMeanings(parent: Node, props: map<string, Node>, names: seq<string>): seq<Field>
    requires parent.Obj? && forall k | k in props :: parent decreases to props[k]
    requires forall i | 0 <= i < |names| :: names[i] in props
    decreases parent, 0, |names|
  {
    if names == [] then []
    else
      FieldMeanings(parent, props, names[..|names| - 1]) + [FieldMeaning(parent.fields, props, names[|names| - 1])]
  }

  /** Where the resolver expects a map it reads anything else as the empty one, which is an empty object. */
  ghost function ObjectMeaning(node: Node): TypeSpec
    decreases node, 2
  {
    if node.Obj? then Meaning(node) else ObjectType([])
  }

  ghost function FieldMeaning(m: map<string, Node>, props: map<string, Node>, name: string): Field
    requires name in props
    decreases props[name], 3
  {
    Field(name, ObjectMeaning(props[name]), name in Texts(ListAt(m, "required")),
          FirstLine(TextAt(ObjectAt(props, name), "description")))
  }

  /** The named schemas the resolution of a node asks for. */
  ghost function Refs(node: Node): set<string>
    decreases node, 1
  {
    if !node.Obj? then {}
    else
      match ShapeOf(node.fields)
      case RefShape(name) => {name}
      case SameShape(inner) => Refs(inner)
      case UnionShape(nodes) => RefsOfList(node, nodes)
      case ArrayShape(items) => if items.Some? then Refs(items.value) else {}
      case FieldsShape(props) => RefsOfProps(node, props, Strings.Ordered(props.Keys))
      case MapShape(values) => Refs(values)
      case _ => {}
  }

  ghost function RefsOfList(parent: Node, nodes: seq<Node>): set<string>
    requires forall i | 0 <= i < |nodes| :: parent decreases to nodes[i]
    decreases parent, 0, |nodes|
  {
    if nodes == [] then {}
    else RefsOfList(parent, nodes[..|nodes| - 1]) + Refs(nodes[|nodes| - 1])
  }

  ghost function RefsOfProps(parent: Node, props: map<string, Node>, names: seq<string>): set<string>
    requires forall k | k in props :: parent decreases to props[k]
    requires forall i | 0 <= i < |names| :: names[i] in props
    decreases parent, 0, |names|
  {
    if names == [] then {}
    else RefsOfProps(parent, props, names[..|names| - 1]) + Refs(props[names[|names| - 1]])
  }

  /** One more variant: one more type, and what its node refers to. */
  lemma OneMoreVariant(parent: Node, nodes: seq<Node>, i: nat)
    requires forall i | 0 <= i < |nodes| :: parent decreases to nodes[i]
    requires i < |nodes|
    ensures RefsOfList(parent, nodes[..i + 1]) == RefsOfList(parent, nodes[..i]) + Refs(nodes[i])
    ensures Meanings(parent, nodes[..i + 1]) == Meanings(parent, nodes[..i]) + [Meaning(nodes[i])]
  {
    assert nodes[..i + 1][..i] == nodes[..i];
  }

  /** One more name: one more field, and what its schema refers to. */
  lemma OneMoreField(m: map<string, Node>, props: map<string, Node>, names: seq<string>, i: nat)
    requires forall k | k in props :: Obj(m) decreases to props[k]
    requires i < |names| && forall i | 0 <= i < |names| :: names[i] in props
    ensures RefsOfProps(Obj(m), props, names[..i + 1]) ==
            RefsOfProps(Obj(m), props, names[..i]) + Refs(props[names[i]])
    ensures FieldMeanings(Obj(m), props, names[..i + 1]) ==
            FieldMeanings(Obj(m), props, names[..i]) + [FieldMeaning(m, props, names[i])]
  {
    assert names[..i + 1][..i] == names[..i];
  }

  lemma FieldsMeaning(m: map<string, Node>, props: map<string, Node>)
    requires ShapeOf(m) == FieldsShape(props)
    ensures Meaning(Obj(m)) == ObjectType(FieldMeanings(Obj(m), props, Strings.Ordered(props.Keys)))
    ensures Refs(Obj(m)) == RefsOfProps(Obj(m), props, Strings.Ordered(props.Keys))
  {
  }

  lemma MapMeaning(m: map<string, Node>, values: Node)
    requires ShapeOf(m) == MapShape(values) && values.Obj?
    ensures Meaning(Obj(m)) == MapType(Meaning(values)) && Refs(Obj(m)) == Refs(values)
  {
  }

  /** The body a name stands for; a dangling name stands for anything. */
  ghost function Body(schemas: Schemas, name: string): Named {
    if name !in schemas then PLACEHOLDER
    else
      Named(Meaning(schemas[name]),
            if schemas[name].Obj? then FirstLine(TextAt(schemas[name].fields, "description")) else "")
  }

  ghost function Successors(schemas: Schemas, name: string): set<string> {
    if name in schemas then Refs(schemas[name]) else {}
  }

  // ------------------------------------------------------------- reachability

  /** A chain of references from one of `from`. */
  ghost predicate Chain(schemas: Schemas, from: set<string>, chain: seq<string>) {
    && chain != [] && chain[0] in from
    && forall i | 0 < i < |chain| :: Follows(schemas, chain[i - 1], chain[i])
  }

  ghost predicate Follows(schemas: Schemas, a: string, b: string) {
    b in Successors(schemas, a)
  }

  ghost predicate Reachable(schemas: Schemas, from: set<string>, name: string) {
    exists chain :: Chain(schemas, from, chain) && chain[|chain| - 1] == name
  }

  lemma ReachSelf(schemas: Schemas, from: set<string>, name: string)
    requires name in from
    ensures Reachable(schemas, from, name)
  {
    assert Chain(schemas, from, [name]);
  }

  lemma ReachMore(schemas: Schemas, from: set<string>, more: set<string>, name: string)
    requires from <= more && Reachable(schemas, from, name)
    ensures Reachable(schemas, more, name)
  {
    var chain :| Chain(schemas, from, chain) && chain[|chain| - 1] == name;
    assert Chain(schemas, more, chain);
  }

  lemma ReachThrough(schemas: Schemas, via: string, name: string)
    requires Reachable(schemas, Successors(schemas, via), name)
    ensures Reachable(schemas, {via}, name)
  {
    var chain :| Chain(schemas, Successors(schemas, via), chain) && chain[|chain| - 1] == name;
    var longer := [via] + chain;
    forall i | 0 < i < |longer| ensures Follows(schemas, longer[i - 1], longer[i]) {
      if i > 1 {
        assert longer[i - 1] == chain[i - 2] && Follows(schemas, chain[i - 1 - 1], chain[i - 1]);
      }
    }
    assert Chain(schemas, {via}, longer);
  }

  /** Names closed under reference that contain the start contain all that is reachable. */
  lemma {:induction false} ClosedContainsReachable(
    schemas: Schemas, from: set<string>, names: set<string>, chain: seq<string>)
    requires from <= names && forall n | n in names :: Successors(schemas, n) <= names
    requires Chain(schemas, from, chain)
    ensures chain[|chain| - 1] in names
    decreases |chain|
  {
    if |chain| > 1 {
      var init := chain[..|chain| - 1];
      ClosedContainsReachable(schemas, from, names, init);
      assert Follows(schemas, chain[|chain| - 1 - 1], chain[|chain| - 1]);
    }
  }

  lemma ReachNext(schemas: Schemas, from: set<string>, name: string, next: string)
    requires Reachable(schemas, from, name) && next in Successors(schemas, name)
    ensures Reachable(schemas, from, next)
  {
    var chain :| Chain(schemas, from, chain) && chain[|chain| - 1] == name;
    var longer := chain + [next];
    forall i | 0 < i < |longer| ensures Follows(schemas, longer[i - 1], longer[i]) {
      if i < |chain| {
        assert Follows(schemas, chain[i - 1], chain[i]);
      }
    }
    assert Chain(schemas, from, longer);
  }
}
