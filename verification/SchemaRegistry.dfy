/**
 The memoising resolver (schema.go, schema_primitive.go): a depth-first walk that writes into a shared map
 while it recurses, over documents whose references may be cyclic or dangling.
 */
module SchemaRegistry {
  import opened Wrappers
  import opened Schema
  import Strings

  /** A name has its body, and the names that body refers to are in the map. */
  ghost predicate Resolved(schemas: Schemas, named: map<string, Named>, name: string)
    requires name in named
  {
    named[name] == Body(schemas, name) && Successors(schemas, name) <= named.Keys
  }

  /** Names in `open` are being resolved and hold the placeholder; every other name is resolved. */
  ghost predicate SettledBut(schemas: Schemas, named: map<string, Named>, open: set<string>) {
    && open <= named.Keys
    && (forall n | n in open :: named[n] == PLACEHOLDER)
    && (forall n {:trigger Resolved(schemas, named, n)} | n in named.Keys - open :: Resolved(schemas, named, n))
  }

  /** The placeholder goes in before the recursion. */
  lemma OpenName(schemas: Schemas, named: map<string, Named>, open: set<string>, name: string)
    requires SettledBut(schemas, named, open) && name !in named
    ensures SettledBut(schemas, named[name := PLACEHOLDER], open + {name})
    ensures name !in schemas ==> SettledBut(schemas, named[name := PLACEHOLDER], open)
  {
    var after := named[name := PLACEHOLDER];
    forall n | n in after.Keys - (open + {name}) ensures Resolved(schemas, after, n) {
      assert Resolved(schemas, named, n);
    }
    if name !in schemas {
      assert Resolved(schemas, after, name);
    }
  }

  /** The body takes its place after the recursion. */
  lemma CloseName(schemas: Schemas, named: map<string, Named>, open: set<string>, name: string, body: Named)
    requires SettledBut(schemas, named, open + {name}) && name !in open
    requires body == Body(schemas, name) && Successors(schemas, name) <= named.Keys
    ensures SettledBut(schemas, named[name := body], open)
  {
    var after := named[name := body];
    forall n | n in after.Keys - open ensures Resolved(schemas, after, n) {
      assert n != name ==> Resolved(schemas, named, n);
    }
  }

  /** `after` is `before` and new names, all reachable from `from`. */
  ghost predicate Grows(schemas: Schemas, before: map<string, Named>, after: map<string, Named>, from: set<string>) {
    && (forall n | n in before :: n in after && after[n] == before[n])
    && (forall n | n in after && n !in before :: Reachable(schemas, from, n))
  }

  lemma GrowsOn(schemas: Schemas, a: map<string, Named>, b: map<string, Named>, c: map<string, Named>,
                first: set<string>, second: set<string>)
    requires Grows(schemas, a, b, first) && Grows(schemas, b, c, second)
    ensures Grows(schemas, a, c, first + second)
  {
    forall n | n in c && n !in a ensures Reachable(schemas, first + second, n) {
      if n in b {
        ReachMore(schemas, first, first + second, n);
      } else {
        ReachMore(schemas, second, first + second, n);
      }
    }
  }

  /** Resolving a name's schema between its placeholder and its body adds what is reachable from the name. */
  lemma GrowsThrough(
    schemas: Schemas, a: map<string, Named>, b: map<string, Named>, name: string, body: Named)
    requires name !in a && Grows(schemas, a[name := PLACEHOLDER], b, Successors(schemas, name))
    ensures Grows(schemas, a, b[name := body], {name})
  {
    forall n | n in b[name := body] && n !in a ensures Reachable(schemas, {name}, n) {
      if n == name {
        ReachSelf(schemas, {name}, name);
      } else {
        ReachThrough(schemas, name, n);
      }
    }
  }

  /** Exactly the names reachable from `roots`, each with the body it stands for. */
  ghost predicate IsMeaning(schemas: Schemas, named: map<string, Named>, roots: set<string>) {
    && (forall n :: n in named <==> Reachable(schemas, roots, n))
    && (forall n | n in named :: named[n] == Body(schemas, n))
  }

  /** The content of the registry is determined by the set of its roots. */
  lemma MeaningIsUnique(schemas: Schemas, a: map<string, Named>, b: map<string, Named>, roots: set<string>)
    requires IsMeaning(schemas, a, roots) && IsMeaning(schemas, b, roots)
    ensures a == b
  {
    forall n ensures n in a <==> n in b {
      assert n in a <==> Reachable(schemas, roots, n);
    }
  }

  lemma MeaningIsClosed(schemas: Schemas, named: map<string, Named>, roots: set<string>, name: string)
    requires IsMeaning(schemas, named, roots) && name in named
    ensures Successors(schemas, name) <= named.Keys
  {
    forall next | next in Successors(schemas, name) ensures next in named {
      ReachNext(schemas, roots, name, next);
    }
  }

  lemma ClosedIsMeaning(schemas: Schemas, named: map<string, Named>, roots: set<string>)
    requires roots <= named.Keys && forall n | n in named :: Reachable(schemas, roots, n)
    requires SettledBut(schemas, named, {})
    ensures IsMeaning(schemas, named, roots)
  {
    forall n | n in named ensures named[n] == Body(schemas, n) && Successors(schemas, n) <= named.Keys {
      assert Resolved(schemas, named, n);
    }
    forall n | Reachable(schemas, roots, n) ensures n in named {
      var chain :| Chain(schemas, roots, chain) && chain[|chain| - 1] == n;
      ClosedContainsReachable(schemas, roots, named.Keys, chain);
    }
  }

  lemma RootsAdded(
    schemas: Schemas, before: map<string, Named>, after: map<string, Named>, roots: set<string>, more: set<string>)
    requires IsMeaning(schemas, before, roots) && Grows(schemas, before, after, more) && more <= after.Keys
    requires SettledBut(schemas, after, {})
    ensures IsMeaning(schemas, after, roots + more)
  {
    forall n | n in after ensures Reachable(schemas, roots + more, n) {
      if n in before {
        ReachMore(schemas, roots, roots + more, n);
      } else {
        ReachMore(schemas, more, roots + more, n);
      }
    }
    forall n | n in roots ensures n in after {
      ReachSelf(schemas, roots, n);
    }
    ClosedIsMeaning(schemas, after, roots + more);
  }

  class Registry {
    const schemas: Schemas
    var named: map<string, Named>

    constructor (schemas: Schemas)
      ensures this.schemas == schemas && named == map[] && IsMeaning(schemas, named, {})
    {
      this.schemas := schemas;
      named := map[];
    }

    ghost predicate Settled(open: set<string>)
      reads this
    {
      SettledBut(schemas, named, open)
    }

    ghost predicate Grew(before: map<string, Named>, from: set<string>)
      reads this
    {
      Grows(schemas, before, named, from)
    }

    /** The names in `refs` are in the map, and it has grown by no more than what they reach. */
    ghost predicate Ready(before: map<string, Named>, refs: set<string>, open: set<string>)
      reads this
    {
      Settled(open) && Grew(before, refs) && refs <= named.Keys
    }

    ghost function Unresolved(): set<string>
      reads this
    {
      schemas.Keys - named.Keys
    }

    method Resolve(node: Node, ghost open: set<string>) returns (ty: TypeSpec)
      requires Settled(open)
      modifies this`named
      ensures Settled(open) && Grew(old(named), Refs(node)) && Refs(node) <= named.Keys
      ensures ty == Meaning(node)
      decreases Unresolved(), 1, node, 5
    {
      if !node.Obj? {
        return AnyType;
      }
      var m := node.fields;
      assert node == Obj(m);
      match ShapeOf(m) {
        case RefShape(_) =>
          ty := ResolveRef(m, open);
        case SameShape(inner) =>
          ty := Resolve(inner, open);
        case UnionShape(nodes) =>
          var variants := ResolveVariants(node, nodes, open);
          ty := UnionType(variants);
        case _ =>
          ty := ResolvePrimitive(m, open);
      }
    }

    /** Resolve as it is called from outside a resolution: no name is left in progress. */
    method ResolveRoot(node: Node, ghost roots: set<string>) returns (ty: TypeSpec)
      requires IsMeaning(schemas, named, roots)
      modifies this`named
      ensures IsMeaning(schemas, named, roots + Refs(node)) && ty == Meaning(node)
    {
      ghost var before := named;
      forall n | n in named ensures Resolved(schemas, named, n) {
        MeaningIsClosed(schemas, named, roots, n);
      }
      ty := Resolve(node, {});
      RootsAdded(schemas, before, named, roots, Refs(node));
    }

    method ResolveRef(m: map<string, Node>, ghost open: set<string>) returns (ty: TypeSpec)
      requires Settled(open) && ShapeOf(m).RefShape?
      modifies this`named
      ensures Settled(open) && Grew(old(named), Refs(Obj(m))) && Refs(Obj(m)) <= named.Keys
      ensures ty == Meaning(Obj(m))
      decreases Unresolved(), 1, Obj(m), 3
    {
      var name := LastPathSegment(m["$ref"].text);
      EnsureNamed(name, open);
      return RefType(name);
    }

    method EnsureNamed(name: string, ghost open: set<string>)
      requires Settled(open)
      modifies this`named
      ensures Settled(open) && Grew(old(named), {name}) && name in named
      decreases Unresolved(), 0, Null, 0
    {
      if name in named {
        return;
      }
      OpenName(schemas, named, open, name);
      named := named[name := PLACEHOLDER];
      if name !in schemas {
        ReachSelf(schemas, {name}, name);
        return;
      }
      assert name in old(Unresolved()) && name !in Unresolved();
      var node := schemas[name];
      var body := Resolve(node, open + {name});
      var doc := "";
      if node.Obj? {
        doc := ScanFirstLine(TextAt(node.fields, "description"));
      }
      GrowsThrough(schemas, old(named), named, name, Named(body, doc));
      CloseName(schemas, named, open, name, Named(body, doc));
      named := named[name := Named(body, doc)];
    }

    method ResolveVariants(parent: Node, nodes: seq<Node>, ghost open: set<string>) returns (out: seq<TypeSpec>)
      requires Settled(open) && forall i | 0 <= i < |nodes| :: parent decreases to nodes[i]
      modifies this`named
      ensures Settled(open)
      ensures Grew(old(named), RefsOfList(parent, nodes)) && RefsOfList(parent, nodes) <= named.Keys
      ensures out == Meanings(parent, nodes)
      decreases Unresolved(), 1, parent, 1
    {
      out := [];
      for i := 0 to |nodes|
        invariant Ready(old(named), RefsOfList(parent, nodes[..i]), open) && out == Meanings(parent, nodes[..i])
      {
        out := AddVariant(parent, nodes, i, out, old(named), open);
      }
      assert nodes[..|nodes|] == nodes;
    }

    method AddVariant(parent: Node, nodes: seq<Node>, i: nat, out: seq<TypeSpec>, ghost before: map<string, Named>,
                      ghost open: set<string>) returns (more: seq<TypeSpec>)
      requires i < |nodes| && forall i | 0 <= i < |nodes| :: parent decreases to nodes[i]
      requires Ready(before, RefsOfList(parent, nodes[..i]), open) && out == Meanings(parent, nodes[..i])
      modifies this`named
      ensures Ready(before, RefsOfList(parent, nodes[..i + 1]), open) && more == Meanings(parent, nodes[..i + 1])
      decreases Unresolved(), 1, parent, 0
    {
      ghost var now := named;
      var variant := Resolve(nodes[i], open);
      OneMoreVariant(parent, nodes, i);
      GrowsOn(schemas, before, now, named, RefsOfList(parent, nodes[..i]), Refs(nodes[i]));
      return out + [variant];
    }

    method ResolvePrimitive(m: map<string, Node>, ghost open: set<string>) returns (ty: TypeSpec)
      requires Settled(open) && ShapeOf(m) == PrimitiveShape(m)
      modifies this`named
      ensures Settled(open) && Grew(old(named), Refs(Obj(m))) && Refs(Obj(m)) <= named.Keys
      ensures ty == Meaning(Obj(m))
      decreases Unresolved(), 1, Obj(m), 4
    {
      var typ := TextAt(m, "type");
      if typ == "array" {
        var elem := ObjectType([]);
        if "items" in m && m["items"].Obj? {
          elem := Resolve(m["items"], open);
        }
        return ArrayType(elem);
      }
      if typ == "string" {
        var enums := StringSlice(ListAt(m, "enum"));
        return StringType(enums);
      }
      if typ == "integer" {
        return IntegerType;
      }
      if typ == "number" {
        return NumberType;
      }
      if typ == "boolean" {
        return BooleanType;
      }
      if typ == "object" || typ == "" {
        ty := ResolveObjectLike(m, open);
        return;
      }
      return AnyType;
    }

    method ResolveObjectLike(m: map<string, Node>, ghost open: set<string>) returns (ty: TypeSpec)
      requires Settled(open) && ShapeOf(m) == PrimitiveShape(m) && TextAt(m, "type") in ["object", ""]
      modifies this`named
      ensures Settled(open) && Grew(old(named), Refs(Obj(m))) && Refs(Obj(m)) <= named.Keys
      ensures ty == Meaning(Obj(m))
      decreases Unresolved(), 1, Obj(m), 3
    {
      var props := ObjectAt(m, "properties");
      if |props| > 0 {
        FieldsMeaning(m, props);
        var fields := ResolveFields(m, props, open);
        return ObjectType(fields);
      }
      if "additionalProperties" in m && m["additionalProperties"].Obj? {
        MapMeaning(m, m["additionalProperties"]);
        var elem := Resolve(m["additionalProperties"], open);
        return MapType(elem);
      }
      return ObjectType([]);
    }

    method ResolveFields(m: map<string, Node>, props: map<string, Node>, ghost open: set<string>)
      returns (fields: seq<Field>)
      requires Settled(open) && forall k | k in props :: Obj(m) decreases to props[k]
      modifies this`named
      ensures
        var refs := RefsOfProps(Obj(m), props, Strings.Ordered(props.Keys));
        Settled(open) && Grew(old(named), refs) && refs <= named.Keys
      ensures fields == FieldMeanings(Obj(m), props, Strings.Ordered(props.Keys))
      decreases Unresolved(), 1, Obj(m), 2
    {
      var required := StringSlice(ListAt(m, "required"));
      var names := Strings.SortedNames(props.Keys);
      fields := ResolveInOrder(m, props, names, required, open);
    }

    method ResolveInOrder(m: map<string, Node>, props: map<string, Node>, names: seq<string>, required: seq<string>,
                          ghost open: set<string>) returns (fields: seq<Field>)
      requires Settled(open) && forall k | k in props :: Obj(m) decreases to props[k]
      requires forall i | 0 <= i < |names| :: names[i] in props
      requires required == Texts(ListAt(m, "required"))
      modifies this`named
      ensures
        var refs := RefsOfProps(Obj(m), props, names);
        Settled(open) && Grew(old(named), refs) && refs <= named.Keys
      ensures fields == FieldMeanings(Obj(m), props, names)
      decreases Unresolved(), 1, Obj(m), 1
    {
      fields := [];
      for i := 0 to |names|
        invariant Ready(old(named), RefsOfProps(Obj(m), props, names[..i]), open)
        invariant fields == FieldMeanings(Obj(m), props, names[..i])
      {
        fields := AddField(m, props, names, i, required, fields, old(named), open);
      }
      assert names[..|names|] == names;
    }

    method AddField(m: map<string, Node>, props: map<string, Node>, names: seq<string>, i: nat, required: seq<string>,
                    fields: seq<Field>, ghost before: map<string, Named>, ghost open: set<string>)
      returns (more: seq<Field>)
      requires forall k | k in props :: Obj(m) decreases to props[k]
      requires i < |names| && (forall i | 0 <= i < |names| :: names[i] in props)
      requires required == Texts(ListAt(m, "required"))
      requires Ready(before, RefsOfProps(Obj(m), props, names[..i]), open)
      requires fields == FieldMeanings(Obj(m), props, names[..i])
      modifies this`named
      ensures Ready(before, RefsOfProps(Obj(m), props, names[..i + 1]), open)
      ensures more == FieldMeanings(Obj(m), props, names[..i + 1])
      decreases Unresolved(), 1, Obj(m), 0
    {
      ghost var now := named;
      var field := ResolveField(m, props, names[i], required, open);
      OneMoreField(m, props, names, i);
      GrowsOn(schemas, before, now, named, RefsOfProps(Obj(m), props, names[..i]), Refs(props[names[i]]));
      return fields + [field];
    }

    method ResolveField(m: map<string, Node>, props: map<string, Node>, name: string, required: seq<string>,
                        ghost open: set<string>) returns (field: Field)
      requires Settled(open) && name in props && (Obj(m) decreases to props[name])
      requires required == Texts(ListAt(m, "required"))
      modifies this`named
      ensures Settled(open) && Grew(old(named), Refs(props[name])) && Refs(props[name]) <= named.Keys
      ensures field == FieldMeaning(m, props, name)
      decreases Unresolved(), 1, props[name], 6
    {
      var ty := ObjectType([]);
      if props[name].Obj? {
        ty := Resolve(props[name], open);
      }
      var doc := ScanFirstLine(TextAt(ObjectAt(props, name), "description"));
      return Field(name, ty, name in required, doc);
    }
  }
}
