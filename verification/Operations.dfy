/**
 Extraction of the curated operations (operations.go): a walk over maps in arbitrary order that resolves
 schemas against the shared registry on the way. Neither the result nor the registry depends on the order.
 */
module Operations {
  import opened Wrappers
  import opened Sorting
  import opened Schema
  import opened SchemaRegistry
  import Strings

  const VERBS := ["get", "post", "put", "patch", "delete"]
  const FORM := "application/x-www-form-urlencoded"
  const JSON := "application/json"

  datatype Param = Param(name: string, location: string, required: bool, ty: TypeSpec, doc: string)

  datatype Operation = Operation(
    id: string,
    verb: string,
    path: string,
    summary: string,
    tag: string,
    pathParams: seq<Param>,
    queryParams: seq<Param>,
    hasBody: bool,
    bodyRequired: bool,
    bodyType: Option<TypeSpec>,
    resultType: Option<TypeSpec>,
    requiresAuth: bool,
    contentType: string,
    formBlockedFields: seq<string>)

  /** `m[key].(map[string]interface{})` as a node; a nil map resolves like an empty one. */
  function MapNode(m: map<string, Node>, key: string): Node {
    Obj(ObjectAt(m, key))
  }

  function ItemsAt(m: map<string, Node>, key: string): seq<Node> {
    if key in m && m[key].List? then m[key].items else []
  }

  function TruthAt(m: map<string, Node>, key: string): bool {
    key in m && m[key].Truth? && m[key].value
  }

  function FirstTag(op: map<string, Node>): string {
    var tags := ItemsAt(op, "tags");
    if tags == [] || !tags[0].Text? || tags[0].text == "" then "other" else tags[0].text
  }

  // --------------------------------------------------------------- parameters

  function ParamWith(m: map<string, Node>, ty: TypeSpec): Param {
    var location := TextAt(m, "in");
    Param(TextAt(m, "name"), location, TruthAt(m, "required") || location == "path", ty,
          FirstLine(TextAt(m, "description")))
  }

  /** The parameters of one location, in order. */
  ghost function Params(raw: seq<Node>, location: string): seq<Param> {
    if raw == [] then []
    else
      var init, last := raw[..|raw| - 1], raw[|raw| - 1];
      Params(init, location) +
      if last.Obj? && TextAt(last.fields, "in") == location
      then [ParamWith(last.fields, Meaning(MapNode(last.fields, "schema")))] else []
  }

  ghost function ParamRefs(raw: seq<Node>): set<string> {
    if raw == [] then {}
    else
      var init, last := raw[..|raw| - 1], raw[|raw| - 1];
      ParamRefs(init) + if last.Obj? then Refs(MapNode(last.fields, "schema")) else {}
  }

  method SplitParams(raw: seq<Node>, reg: Registry, ghost roots: set<string>)
    returns (pathParams: seq<Param>, queryParams: seq<Param>)
    requires IsMeaning(reg.schemas, reg.named, roots)
    modifies reg`named
    ensures IsMeaning(reg.schemas, reg.named, roots + ParamRefs(raw))
    ensures pathParams == Params(raw, "path") && queryParams == Params(raw, "query")
  {
    pathParams, queryParams := [], [];
    assert roots + {} == roots;
    for i := 0 to |raw|
      invariant IsMeaning(reg.schemas, reg.named, roots + ParamRefs(raw[..i]))
      invariant pathParams == Params(raw[..i], "path") && queryParams == Params(raw[..i], "query")
    {
      assert raw[..i + 1][..i] == raw[..i];
      if !raw[i].Obj? {
        assert roots + (ParamRefs(raw[..i]) + {}) == roots + ParamRefs(raw[..i]);
        continue;
      }
      var m := raw[i].fields;
      var ty := reg.ResolveRoot(MapNode(m, "schema"), roots + ParamRefs(raw[..i]));
      assert roots + ParamRefs(raw[..i]) + Refs(MapNode(m, "schema")) == roots + ParamRefs(raw[..i + 1]);
      var param := ParamWith(m, ty);
      match param.location {
        case "path" => pathParams := pathParams + [param];
        case "query" => queryParams := queryParams + [param];
        case _ =>
      }
    }
    assert raw[..|raw|] == raw;
  }

  // ------------------------------------------------------------------- bodies

  predicate HasSchema(content: map<string, Node>, contentType: string) {
    var entry := ObjectAt(content, contentType);
    "schema" in entry && entry["schema"].Obj?
  }

  /** contentTypeOf: the form variant before the JSON one. */
  function ContentTypeOf(content: map<string, Node>): string {
    if HasSchema(content, FORM) then FORM else if HasSchema(content, JSON) then JSON else ""
  }

  /** contentSchema */
  function ContentSchema(content: map<string, Node>): Option<Node> {
    var contentType := ContentTypeOf(content);
    if contentType == "" then None else Some(ObjectAt(content, contentType)["schema"])
  }

  function BodyContent(op: map<string, Node>): map<string, Node> {
    ObjectAt(ObjectAt(op, "requestBody"), "content")
  }

  function BodySchema(op: map<string, Node>): Option<Node> {
    ContentSchema(BodyContent(op))
  }

  /** The schema of the lowest 2xx response that has one. */
  function FirstSchema(responses: map<string, Node>, codes: seq<string>): Option<Node> {
    if codes == [] then None
    else
      var schema := ContentSchema(ObjectAt(ObjectAt(responses, codes[0]), "content"));
      if schema.Some? then schema else FirstSchema(responses, codes[1..])
  }

  function SuccessCodes(responses: map<string, Node>): set<string> {
    set code | code in responses && code != "" && code[0] == '2'
  }

  ghost function ResultSchema(op: map<string, Node>): Option<Node> {
    var responses := ObjectAt(op, "responses");
    FirstSchema(responses, Strings.Ordered(SuccessCodes(responses)))
  }

  method FindResultSchema(op: map<string, Node>) returns (schema: Option<Node>)
    ensures schema == ResultSchema(op)
  {
    var responses := ObjectAt(op, "responses");
    var codes := Strings.SortedNames(SuccessCodes(responses));
    for i := 0 to |codes|
      invariant FirstSchema(responses, codes) == FirstSchema(responses, codes[i..])
    {
      assert codes[i..][1..] == codes[i + 1..];
      schema := ContentSchema(ObjectAt(ObjectAt(responses, codes[i]), "content"));
      if schema.Some? {
        return;
      }
    }
    return None;
  }

  ghost function OptionMeaning(schema: Option<Node>): Option<TypeSpec> {
    if schema.Some? then Some(Meaning(schema.value)) else None
  }

  ghost function OptionRefs(schema: Option<Node>): set<string> {
    if schema.Some? then Refs(schema.value) else {}
  }

  method ResolveOption(schema: Option<Node>, reg: Registry, ghost roots: set<string>) returns (ty: Option<TypeSpec>)
    requires IsMeaning(reg.schemas, reg.named, roots)
    modifies reg`named
    ensures IsMeaning(reg.schemas, reg.named, roots + OptionRefs(schema)) && ty == OptionMeaning(schema)
  {
    if schema.None? {
      assert roots + {} == roots;
      return None;
    }
    var resolved := reg.ResolveRoot(schema.value, roots);
    return Some(resolved);
  }

  // ------------------------------------------------------ fields no form holds

  /** derefNamed, by meaning: what a reference stands for. */
  ghost function Deref(schemas: Schemas, ty: TypeSpec): TypeSpec {
    if ty.RefType? then Body(schemas, ty.name).body else ty
  }

  ghost function MapFields(schemas: Schemas, fields: seq<Field>): seq<string> {
    if fields == [] then []
    else
      var init, last := fields[..|fields| - 1], fields[|fields| - 1];
      MapFields(schemas, init) + if Deref(schemas, last.ty).MapType? then [last.name] else []
  }

  lemma OneMapField(schemas: Schemas, fields: seq<Field>, i: nat)
    requires i < |fields|
    ensures MapFields(schemas, fields[..i + 1])
         == MapFields(schemas, fields[..i]) + if Deref(schemas, fields[i].ty).MapType? then [fields[i].name] else []
  {
    assert fields[..i + 1][..i] == fields[..i];
  }

  ghost function FormBlocked(schemas: Schemas, ty: TypeSpec): seq<string> {
    var target := Deref(schemas, ty);
    if target.ObjectType? then MapFields(schemas, target.fields) else []
  }

  /** The names a type mentions at its top are in `names`. */
  ghost predicate TopNamesIn(ty: TypeSpec, names: set<string>) {
    && (ty.RefType? ==> ty.name in names)
    && (ty.ObjectType? ==> FieldNamesIn(ty.fields, names))
  }

  ghost predicate FieldNamesIn(fields: seq<Field>, names: set<string>) {
    forall i | 0 <= i < |fields| :: fields[i].ty.RefType? ==> fields[i].ty.name in names
  }

  method DerefNamed(ty: TypeSpec, reg: Registry) returns (r: TypeSpec)
    requires forall n | n in reg.named :: reg.named[n] == Body(reg.schemas, n)
    ensures (ty.RefType? ==> ty.name in reg.named) ==> r == Deref(reg.schemas, ty)
  {
    if !ty.RefType? {
      return ty;
    }
    if ty.name in reg.named {
      return reg.named[ty.name].body;
    }
    return ty;
  }

  lemma FieldsAreKnown(schemas: Schemas, named: map<string, Named>, roots: set<string>, ty: TypeSpec)
    requires IsMeaning(schemas, named, roots) && TopNamesIn(ty, named.Keys)
    ensures Deref(schemas, ty).ObjectType? ==> FieldNamesIn(Deref(schemas, ty).fields, named.Keys)
  {
    if ty.RefType? {
      MeaningIsClosed(schemas, named, roots, ty.name);
      BodyNames(schemas, ty.name);
    }
  }

  /** The fields of a body that are maps, read from the registry in whatever state it then is. */
  method FormBlockedFields(ty: TypeSpec, reg: Registry, ghost roots: set<string>) returns (out: seq<string>)
    requires IsMeaning(reg.schemas, reg.named, roots) && TopNamesIn(ty, reg.named.Keys)
    ensures out == FormBlocked(reg.schemas, ty)
  {
    var target := DerefNamed(ty, reg);
    if !target.ObjectType? {
      return [];
    }
    FieldsAreKnown(reg.schemas, reg.named, roots, ty);
    out := [];
    for i := 0 to |target.fields|
      invariant out == MapFields(reg.schemas, target.fields[..i])
    {
      OneMapField(reg.schemas, target.fields, i);
      var fieldType := DerefNamed(target.fields[i].ty, reg);
      if fieldType.MapType? {
        out := out + [target.fields[i].name];
      }
    }
    assert target.fields[..|target.fields|] == target.fields;
  }

  lemma {:induction false} FieldNames(parent: Node, props: map<string, Node>, names: seq<string>)
    requires parent.Obj? && forall k | k in props :: parent decreases to props[k]
    requires forall i | 0 <= i < |names| :: names[i] in props
    ensures FieldNamesIn(FieldMeanings(parent, props, names), RefsOfProps(parent, props, names))
    decreases parent, 0, |names|
  {
    if names != [] {
      var init, last := names[..|names| - 1], names[|names| - 1];
      FieldNames(parent, props, init);
      OneFieldName(parent, props, last);
      OneMoreName(FieldMeanings(parent, props, init), RefsOfProps(parent, props, init),
                  FieldMeaning(parent.fields, props, last), Refs(props[last]));
    }
  }

  lemma {:induction false} OneFieldName(parent: Node, props: map<string, Node>, name: string)
    requires parent.Obj? && name in props && (parent decreases to props[name])
    ensures var field := FieldMeaning(parent.fields, props, name);
            field.ty.RefType? ==> field.ty.name in Refs(props[name])
    decreases parent, 0, 0
  {
    TypeNames(props[name]);
  }

  lemma OneMoreName(fields: seq<Field>, names: set<string>, field: Field, more: set<string>)
    requires FieldNamesIn(fields, names) && (field.ty.RefType? ==> field.ty.name in more)
    ensures FieldNamesIn(fields + [field], names + more)
  {
  }

  /** A type mentions at its top only names its node refers to. */
  lemma {:induction false} TypeNames(node: Node)
    ensures TopNamesIn(Meaning(node), Refs(node))
    decreases node, 1
  {
    if node.Obj? {
      match ShapeOf(node.fields) {
        case SameShape(inner) => TypeNames(inner);
        case FieldsShape(props) => FieldNames(node, props, Strings.Ordered(props.Keys));
        case _ =>
      }
    }
  }

  lemma BodyNames(schemas: Schemas, name: string)
    ensures TopNamesIn(Body(schemas, name).body, Successors(schemas, name))
  {
    if name in schemas {
      TypeNames(schemas[name]);
    }
  }

  // --------------------------------------------------------------- extraction

  function RawOperation(item: map<string, Node>, verb: string, allowed: set<string>): Option<map<string, Node>> {
    if verb in item && item[verb].Obj? && TextAt(item[verb].fields, "operationId") in allowed
    then Some(item[verb].fields) else None
  }

  function AllParams(item: map<string, Node>, op: map<string, Node>): seq<Node> {
    ItemsAt(item, "parameters") + ItemsAt(op, "parameters")
  }

  /** What an operation of the document means, without a registry. */
  ghost function OperationOf(
    schemas: Schemas, path: string, verb: string, item: map<string, Node>, op: map<string, Node>): Operation
  {
    var raw, contentType := AllParams(item, op), ContentTypeOf(BodyContent(op));
    Operation(
      TextAt(op, "operationId"), verb, path, TextAt(op, "summary"), FirstTag(op),
      Params(raw, "path"), Params(raw, "query"),
      "requestBody" in op && op["requestBody"].Obj?, TruthAt(ObjectAt(op, "requestBody"), "required"),
      OptionMeaning(BodySchema(op)), OptionMeaning(ResultSchema(op)),
      "security" in op && !op["security"].Null?,
      if contentType == JSON then "" else contentType,
      BlockedFields(schemas, op))
  }

  ghost function BlockedFields(schemas: Schemas, op: map<string, Node>): seq<string> {
    if ContentTypeOf(BodyContent(op)) == FORM then FormBlocked(schemas, Meaning(BodySchema(op).value)) else []
  }

  /** The named schemas it asks for. */
  ghost function OperationRefs(item: map<string, Node>, op: map<string, Node>): set<string> {
    ParamRefs(AllParams(item, op)) + OptionRefs(BodySchema(op)) + OptionRefs(ResultSchema(op))
  }

  lemma RootsAreNamed(schemas: Schemas, named: map<string, Named>, roots: set<string>)
    requires IsMeaning(schemas, named, roots)
    ensures roots <= named.Keys
  {
    forall n | n in roots ensures n in named {
      ReachSelf(schemas, roots, n);
    }
  }

  method ExtractOne(path: string, verb: string, item: map<string, Node>, op: map<string, Node>, reg: Registry,
                    ghost roots: set<string>) returns (operation: Operation)
    requires IsMeaning(reg.schemas, reg.named, roots)
    modifies reg`named
    ensures IsMeaning(reg.schemas, reg.named, roots + OperationRefs(item, op))
    ensures operation == OperationOf(reg.schemas, path, verb, item, op)
  {
    var pathParams, queryParams := SplitParams(AllParams(item, op), reg, roots);
    ghost var afterParams := roots + ParamRefs(AllParams(item, op));
    var bodyType, blocked := ExtractRequestBody(op, reg, afterParams);
    ghost var afterBody := afterParams + OptionRefs(BodySchema(op));
    var schema := FindResultSchema(op);
    var resultType := ResolveOption(schema, reg, afterBody);
    assert afterBody + OptionRefs(schema) == roots + OperationRefs(item, op);
    var contentType := ContentTypeOf(BodyContent(op));
    return Operation(
      TextAt(op, "operationId"), verb, path, TextAt(op, "summary"), FirstTag(op), pathParams, queryParams,
      "requestBody" in op && op["requestBody"].Obj?, TruthAt(ObjectAt(op, "requestBody"), "required"),
      bodyType, resultType, "security" in op && !op["security"].Null?,
      if contentType == JSON then "" else contentType, blocked);
  }

  /** The body type, and once it is resolved the fields a form cannot hold. */
  method ExtractRequestBody(op: map<string, Node>, reg: Registry, ghost roots: set<string>)
    returns (bodyType: Option<TypeSpec>, blocked: seq<string>)
    requires IsMeaning(reg.schemas, reg.named, roots)
    modifies reg`named
    ensures IsMeaning(reg.schemas, reg.named, roots + OptionRefs(BodySchema(op)))
    ensures bodyType == OptionMeaning(BodySchema(op)) && blocked == BlockedFields(reg.schemas, op)
  {
    bodyType := ResolveOption(BodySchema(op), reg, roots);
    blocked := [];
    if ContentTypeOf(BodyContent(op)) == FORM {
      RootsAreNamed(reg.schemas, reg.named, roots + OptionRefs(BodySchema(op)));
      TypeNames(BodySchema(op).value);
      blocked := FormBlockedFields(bodyType.value, reg, roots + OptionRefs(BodySchema(op)));
    }
  }

  /** One place of the document an operation can be at. */
  datatype Place = Place(path: string, verb: string)

  ghost function OperationsAt(schemas: Schemas, paths: map<string, Node>, allowed: set<string>, places: set<Place>)
    : set<Operation>
  {
    set p | p in places && RawOperation(ObjectAt(paths, p.path), p.verb, allowed).Some? ::
      OperationOf(schemas, p.path, p.verb, ObjectAt(paths, p.path),
                  RawOperation(ObjectAt(paths, p.path), p.verb, allowed).value)
  }

  ghost function PlaceRefs(paths: map<string, Node>, allowed: set<string>, p: Place): set<string> {
    var item := ObjectAt(paths, p.path);
    var op := RawOperation(item, p.verb, allowed);
    if op.Some? then OperationRefs(item, op.value) else {}
  }

  ghost function RefsAt(paths: map<string, Node>, allowed: set<string>, places: set<Place>): set<string> {
    set p, n | p in places && n in PlaceRefs(paths, allowed, p) :: n
  }

  ghost function Places(paths: set<string>): set<Place> {
    set path, i | path in paths && 0 <= i < |VERBS| :: Place(path, VERBS[i])
  }

  /** The sort key: tag, then path, then method. */
  predicate Precedes(a: Operation, b: Operation) {
    if a.tag != b.tag then Strings.Below(a.tag, b.tag)
    else if a.path != b.path then Strings.Below(a.path, b.path)
    else Strings.Below(a.verb, b.verb)
  }

  lemma PrecedesIsStrictOrder()
    ensures Asymmetric(Precedes) && Transitive(Precedes)
    ensures forall a: Operation, b: Operation | a.path != b.path || a.verb != b.verb :: Precedes(a, b) || Precedes(b, a)
  {
    Strings.BelowIsStrictOrder();
    forall a, b, c | Precedes(a, b) && Precedes(b, c) ensures Precedes(a, c) {
      PrecedesTransitive(a, b, c);
    }
  }

  lemma PrecedesTransitive(a: Operation, b: Operation, c: Operation)
    requires Precedes(a, b) && Precedes(b, c)
    ensures Precedes(a, c)
  {
    Strings.BelowIsStrictOrder();
  }

  ghost predicate DistinctPlaces(ops: seq<Operation>) {
    forall i, j | 0 <= i < j < |ops| :: ops[i].path != ops[j].path || ops[i].verb != ops[j].verb
  }

  /** Sorting by key; no two operations share a path and a method. */
  method SortOperations(ops: seq<Operation>) returns (sorted: seq<Operation>)
    requires DistinctPlaces(ops)
    ensures Ascending(Precedes, sorted) && Elements(sorted) == Elements(ops)
  {
    PrecedesIsStrictOrder();
    sorted := [];
    for i := 0 to |ops|
      invariant Ascending(Precedes, sorted) && Elements(sorted) == Elements(ops[..i])
    {
      forall j | 0 <= j < |sorted| ensures Precedes(sorted[j], ops[i]) || Precedes(ops[i], sorted[j]) {
        assert sorted[j] in Elements(ops[..i]);
      }
      InsertKeeps(Precedes, sorted, ops[i]);
      sorted := Insert(Precedes, sorted, ops[i]);
      assert Elements(ops[..i + 1]) == Elements(ops[..i]) + {ops[i]};
    }
    assert ops[..|ops|] == ops;
  }

  /** The result and the registry after extraction, whatever the order of the walk. */
  ghost predicate Extracted(
    schemas: Schemas, paths: map<string, Node>, allowed: set<string>, ops: seq<Operation>, named: map<string, Named>)
  {
    && Ascending(Precedes, ops) && Elements(ops) == OperationsAt(schemas, paths, allowed, Places(paths.Keys))
    && IsMeaning(schemas, named, RefsAt(paths, allowed, Places(paths.Keys)))
  }

  /** Two walks of one document, in whatever orders, produce the same operations and the same registry. */
  lemma ExtractionIsDeterministic(
    schemas: Schemas, paths: map<string, Node>, allowed: set<string>,
    ops: seq<Operation>, named: map<string, Named>, ops': seq<Operation>, named': map<string, Named>)
    requires Extracted(schemas, paths, allowed, ops, named) && Extracted(schemas, paths, allowed, ops', named')
    ensures ops == ops' && named == named'
  {
    PrecedesIsStrictOrder();
    AscendingIsUnique(Precedes, ops, ops');
    MeaningIsUnique(schemas, named, named', RefsAt(paths, allowed, Places(paths.Keys)));
  }

  /** Extract: the paths come in map order, the methods in list order. */
  method Extract(paths: map<string, Node>, reg: Registry, allowed: set<string>) returns (ops: seq<Operation>)
    requires reg.named == map[] && IsMeaning(reg.schemas, reg.named, {})
    modifies reg`named
    ensures Extracted(reg.schemas, paths, allowed, ops, reg.named)
  {
    ops := WalkPaths(paths, reg, allowed);
    ops := SortOperations(ops);
  }

  method WalkPaths(paths: map<string, Node>, reg: Registry, allowed: set<string>) returns (ops: seq<Operation>)
    requires reg.named == map[] && IsMeaning(reg.schemas, reg.named, {})
    modifies reg`named
    ensures Walked(paths, reg, allowed, ops, Places(paths.Keys))
  {
    var rest := paths.Keys;
    ghost var visited: set<string> := {};
    ops := [];
    NothingVisited(paths, reg, allowed);
    while rest != {}
      invariant visited + rest == paths.Keys && visited !! rest
      invariant Walked(paths, reg, allowed, ops, Places(visited))
      decreases rest
    {
      var path :| path in rest;
      ops := WalkPath(path, paths, reg, allowed, ops, visited);
      visited, rest := visited + {path}, rest - {path};
    }
    assert visited == paths.Keys;
  }

  lemma NothingVisited(paths: map<string, Node>, reg: Registry, allowed: set<string>)
    requires IsMeaning(reg.schemas, reg.named, {})
    ensures Walked(paths, reg, allowed, [], Places({}))
  {
    assert Places({}) == {};
    assert RefsAt(paths, allowed, {}) == {};
    assert OperationsAt(reg.schemas, paths, allowed, {}) == {};
  }

  method WalkPath(path: string, paths: map<string, Node>, reg: Registry, allowed: set<string>, ops: seq<Operation>,
                  ghost before: set<string>) returns (more: seq<Operation>)
    requires Walked(paths, reg, allowed, ops, Places(before)) && path !in before
    modifies reg`named
    ensures Walked(paths, reg, allowed, more, Places(before + {path}))
  {
    OnePathMore(before, path);
    more := WalkVerbs(path, VERBS, paths, reg, allowed, ops, Places(before));
  }

  method WalkVerbs(path: string, verbs: seq<string>, paths: map<string, Node>, reg: Registry, allowed: set<string>,
                   ops: seq<Operation>, ghost done: set<Place>) returns (more: seq<Operation>)
    requires Walked(paths, reg, allowed, ops, done)
    requires forall i, j | 0 <= i < j < |verbs| :: verbs[i] != verbs[j]
    requires forall verb :: Place(path, verb) !in done
    modifies reg`named
    ensures Walked(paths, reg, allowed, more, done + PlacesUpTo(path, verbs, |verbs|))
  {
    more := ops;
    assert done + PlacesUpTo(path, verbs, 0) == done;
    for v := 0 to |verbs|
      invariant Walked(paths, reg, allowed, more, done + PlacesUpTo(path, verbs, v))
    {
      NewPlace(done, path, verbs, v);
      more := Visit(Place(path, verbs[v]), paths, reg, allowed, more, done + PlacesUpTo(path, verbs, v));
    }
  }

  /** The operations and the registry when `done` are the places visited. */
  ghost predicate Walked(
    paths: map<string, Node>, reg: Registry, allowed: set<string>, ops: seq<Operation>, done: set<Place>)
    reads reg
  {
    && IsMeaning(reg.schemas, reg.named, RefsAt(paths, allowed, done))
    && Elements(ops) == OperationsAt(reg.schemas, paths, allowed, done)
    && DistinctPlaces(ops) && PlacedIn(ops, done)
  }

  ghost predicate PlacedIn(ops: seq<Operation>, places: set<Place>) {
    forall i | 0 <= i < |ops| :: Place(ops[i].path, ops[i].verb) in places
  }

  /** An operation at a new place. */
  lemma OneOperationMore(ops: seq<Operation>, operation: Operation, done: set<Place>, p: Place)
    requires DistinctPlaces(ops) && PlacedIn(ops, done)
    requires p !in done && Place(operation.path, operation.verb) == p
    ensures DistinctPlaces(ops + [operation]) && PlacedIn(ops + [operation], done + {p})
    ensures Elements(ops + [operation]) == Elements(ops) + {operation}
  {
  }

  method Visit(p: Place, paths: map<string, Node>, reg: Registry, allowed: set<string>, ops: seq<Operation>,
               ghost done: set<Place>) returns (more: seq<Operation>)
    requires Walked(paths, reg, allowed, ops, done) && p !in done
    modifies reg`named
    ensures Walked(paths, reg, allowed, more, done + {p})
  {
    more := ops;
    var item := ObjectAt(paths, p.path);
    var op := RawOperation(item, p.verb, allowed);
    OnePlaceMore(reg.schemas, paths, allowed, done, p);
    if op.Some? {
      var operation := ExtractOne(p.path, p.verb, item, op.value, reg, RefsAt(paths, allowed, done));
      OneOperationMore(ops, operation, done, p);
      more := ops + [operation];
    } else {
      assert RefsAt(paths, allowed, done) + {} == RefsAt(paths, allowed, done);
    }
  }

  /** The first `n` places of a path. */
  ghost function PlacesUpTo(path: string, verbs: seq<string>, n: nat): set<Place>
    requires n <= |verbs|
  {
    set i | 0 <= i < n :: Place(path, verbs[i])
  }

  lemma NewPlace(done: set<Place>, path: string, verbs: seq<string>, v: nat)
    requires v < |verbs| && forall i, j | 0 <= i < j < |verbs| :: verbs[i] != verbs[j]
    requires forall verb :: Place(path, verb) !in done
    ensures Place(path, verbs[v]) !in done + PlacesUpTo(path, verbs, v)
    ensures done + PlacesUpTo(path, verbs, v + 1) == done + PlacesUpTo(path, verbs, v) + {Place(path, verbs[v])}
  {
  }

  lemma OnePathMore(before: set<string>, path: string)
    requires path !in before
    ensures Places(before + {path}) == Places(before) + PlacesUpTo(path, VERBS, |VERBS|)
    ensures forall verb :: Place(path, verb) !in Places(before)
    ensures forall i, j | 0 <= i < j < |VERBS| :: VERBS[i] != VERBS[j]
  {
  }

  lemma OnePlaceMore(schemas: Schemas, paths: map<string, Node>, allowed: set<string>, done: set<Place>, p: Place)
    ensures RefsAt(paths, allowed, done + {p}) == RefsAt(paths, allowed, done) + PlaceRefs(paths, allowed, p)
    ensures
      var item := ObjectAt(paths, p.path);
      var op := RawOperation(item, p.verb, allowed);
      OperationsAt(schemas, paths, allowed, done + {p}) ==
      OperationsAt(schemas, paths, allowed, done) +
      if op.Some? then {OperationOf(schemas, p.path, p.verb, item, op.value)} else {}
  {
  }
}
