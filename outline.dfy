/**
 * The outline profile: a projection of an OpenAPI document onto its paths (operations with
 * query parameters, request and response schemas) and its component schemas, with every
 * schema collapsed to a reference, a combinator, an array or a type name.
 */
module Outliner {
  import opened Wrappers
  import opened Folds
  import opened Assoc
  import opened JsonValue
  import opened Errors

  const NOT_AN_OBJECT: string := "OpenAPI document must be a JSON object"
  const MISSING_PATHS: string := "OpenAPI document missing paths"

  /** The methods `is_http_method` accepts. */
  const HTTP_METHODS: set<string> := {"get", "post", "put", "patch", "delete", "options", "head", "trace"}

  const COMBINATORS: set<string> := {"oneOf", "anyOf", "allOf"}

  /** `is_http_method` */
  predicate IsHttpMethod(name: string)
  {
    name in HTTP_METHODS
  }

  /** `.get("$ref").and_then(as_str)` */
  function RefOf(v: Value): Option<string>
  {
    StrOf(Get(v, "$ref"))
  }

  /** `.get("type").and_then(as_str)` */
  function TypeOf(v: Value): Option<string>
  {
    StrOf(Get(v, "type"))
  }

  /** The first of `oneOf`, `anyOf`, `allOf` that holds an array, with that array. */
  function CombinatorOf(v: Value): (r: Option<(string, seq<Value>)>)
    ensures r.Some? ==> r.value.0 in COMBINATORS && Get(v, r.value.0) == Some(Array(r.value.1))
    ensures r.None? <==> ArrOf(Get(v, "oneOf")).None? && ArrOf(Get(v, "anyOf")).None? && ArrOf(Get(v, "allOf")).None?
  {
    if ArrOf(Get(v, "oneOf")).Some? then Some(("oneOf", ArrOf(Get(v, "oneOf")).value))
    else if ArrOf(Get(v, "anyOf")).Some? then Some(("anyOf", ArrOf(Get(v, "anyOf")).value))
    else if ArrOf(Get(v, "allOf")).Some? then Some(("allOf", ArrOf(Get(v, "allOf")).value))
    else None
  }

  /**
   * The shapes a projected schema can take: null, a string (a reference or a type name),
   * `{<combinator>: [projected...]}`, or `{"type": "array", "items": projected}`.
   */
  predicate IsProjected(r: Value)
    decreases r
  {
    match r
    case Null => true
    case String(_) => true
    case Object(fields) =>
      if |fields| == 1 then
        fields[0].0 in COMBINATORS && fields[0].1.Array?
        && forall i :: 0 <= i < |fields[0].1.items| ==> IsProjected(fields[0].1.items[i])
      else
        |fields| == 2 && fields[0] == ("type", String("array")) && fields[1].0 == "items"
        && IsProjected(fields[1].1)
    case _ => false
  }

  /** `schema_ref_or_type`: collapses a schema to what the outline keeps of it. */
  function SchemaRefOrType(schema: Value): (r: Value)
    ensures IsProjected(r)
    ensures r.Null? <==> RefOf(schema).None? && CombinatorOf(schema).None? && TypeOf(schema).None?
    decreases schema
  {
    match RefOf(schema)
    case Some(reference) => String(reference)
    case None =>
      match CombinatorOf(schema)
      case Some((name, of)) =>
        var items := seq(|of|, i requires 0 <= i < |of| => assert of[i] in of; SchemaRefOrType(of[i]));
        Object([(name, Array(items))])
      case None =>
        match TypeOf(schema)
        case Some(t) =>
          if t == "array" then Object([("type", String("array")), ("items", ItemsOf(schema))])
          else String(t)
        case None => Null
  }

  /** `.get("items").map(schema_ref_or_type).unwrap_or(Value::Null)` */
  function ItemsOf(schema: Value): (r: Value)
    ensures IsProjected(r)
    decreases schema, 0
  {
    match Get(schema, "items")
    case Some(items) => SchemaRefOrType(items)
    case None => Null
  }

  /** `schema.get(key).map(schema_ref_or_type).unwrap_or(Value::Null)` for any key. */
  function ProjectedOr(v: Option<Value>): (r: Value)
    ensures IsProjected(r)
    ensures v.None? ==> r == Null
  {
    match v
    case Some(schema) => SchemaRefOrType(schema)
    case None => Null
  }

  /**
   * The order `schema_ref_or_type` tries things in: a string `$ref` wins, then the first
   * array-valued combinator (each member projected in order), then the `type`, where
   * `array` keeps its projected `items` and any other type name is kept as a string.
   */
  lemma ProjectionRules(schema: Value)
    ensures RefOf(schema).Some? ==> SchemaRefOrType(schema) == String(RefOf(schema).value)
    ensures RefOf(schema).None? && CombinatorOf(schema).Some? ==>
      var (name, of) := CombinatorOf(schema).value;
      var r := SchemaRefOrType(schema);
      r.Object? && Keys(r.fields) == {name} && Lookup(r.fields, name).Some?
      && Lookup(r.fields, name).value.Array? && |Lookup(r.fields, name).value.items| == |of|
      && forall i :: 0 <= i < |of| ==> Lookup(r.fields, name).value.items[i] == SchemaRefOrType(of[i])
    ensures RefOf(schema).None? && CombinatorOf(schema).None? && TypeOf(schema) == Some("array") ==>
      var r := SchemaRefOrType(schema);
      r.Object? && Keys(r.fields) == {"type", "items"}
      && Lookup(r.fields, "type") == Some(String("array")) && Lookup(r.fields, "items") == Some(ItemsOf(schema))
    ensures RefOf(schema).None? && CombinatorOf(schema).None? && TypeOf(schema).Some? && TypeOf(schema) != Some("array") ==>
      SchemaRefOrType(schema) == String(TypeOf(schema).value)
  {
    if RefOf(schema).None? {
      match CombinatorOf(schema)
      case Some((name, of)) =>
        var r := SchemaRefOrType(schema);
        assert r.fields == [(name, Array(seq(|of|, i requires 0 <= i < |of| => SchemaRefOrType(of[i]))))];
        assert Keys(r.fields) == {name} by {
          assert r.fields[0].0 == name;
        }
      case None =>
        if TypeOf(schema) == Some("array") {
          PairMap("type", String("array"), "items", ItemsOf(schema));
        }
    }
  }

  /** What `outline_query_param` accepts: a string `$ref`, or an object `in: query` with a name. */
  predicate ParamAccepted(param: Value)
  {
    RefOf(param).Some?
    || (param.Object? && StrOf(Get(param, "in")) == Some("query")
        && StrOf(Get(param, "name")).Some? && StrOf(Get(param, "name")).value != "")
  }

  /** `outline_query_param` */
  function QueryParam(param: Value): (r: Result<Value, AppError>)
    ensures r.Success? <==> ParamAccepted(param)
    ensures r.Failure? ==> r.error.Outline?
    ensures RefOf(param).Some? ==> r == Success(Object([("$ref", String(RefOf(param).value))]))
    ensures r.Success? && RefOf(param).None? ==>
      r.value.Object? && Keys(r.value.fields) == {"name", "required", "schema"}
      && Lookup(r.value.fields, "name") == Some(String(StrOf(Get(param, "name")).value))
      && Lookup(r.value.fields, "required") == Some(Bool(BoolOf(Get(param, "required")).GetOr(false)))
      && Lookup(r.value.fields, "schema") == Some(ProjectedOr(Get(param, "schema")))
  {
    match RefOf(param)
    case Some(reference) => Success(Object([("$ref", String(reference))]))
    case None =>
      if !param.Object? then Failure(Outline("parameter must be an object"))
      else
        var location := StrOf(Get(param, "in")).GetOr("");
        if location != "query" then Failure(Outline("non-query parameter"))
        else
          var name := StrOf(Get(param, "name")).GetOr("");
          if name == "" then Failure(Outline("query parameter missing name"))
          else
            var required := BoolOf(Get(param, "required")).GetOr(false);
            var schema := ProjectedOr(Get(param, "schema"));
            var fields := [("name", String(name)), ("required", Bool(required)), ("schema", schema)];
            TripleMap("name", String(name), "required", Bool(required), "schema", schema);
            Success(Object(fields))
  }

  /** `.filter_map(|param| outline_query_param(param).ok())` */
  function KeptParams(params: seq<Value>): (r: seq<Value>)
    ensures |r| <= |params|
    decreases |params|
  {
    if params == [] then []
    else
      var first := QueryParam(params[0]);
      (if first.Success? then [first.value] else []) + KeptParams(params[1..])
  }

  /** The filter keeps a single parameter exactly when it is accepted. */
  lemma KeptSingle(param: Value)
    ensures KeptParams([param]) == if ParamAccepted(param) then [QueryParam(param).value] else []
  {
    assert [param][1..] == [];
  }

  /**
   * The filter distributes over concatenation: the kept parameters are the accepted ones,
   * projected, in their original order.
   */
  lemma {:induction false} KeptAppend(a: seq<Value>, b: seq<Value>)
    ensures KeptParams(a + b) == KeptParams(a) + KeptParams(b)
    decreases |a|
  {
    if a != [] {
      assert (a + b)[0] == a[0];
      assert (a + b)[1..] == a[1..] + b;
      KeptAppend(a[1..], b);
    } else {
      assert a + b == b;
    }
  }

  /** `outline_query_params`: the `parameters` array filtered, or empty. */
  function QueryParams(op: Fields): seq<Value>
  {
    match ArrOf(Lookup(op, "parameters"))
    case Some(params) => KeptParams(params)
    case None => []
  }

  /** The position of the first content entry from `k` on that has a `schema`, or `|content|`. */
  function FirstSchemaFrom(content: Fields, k: nat): (i: nat)
    requires k <= |content|
    ensures k <= i <= |content|
    ensures i < |content| ==> Get(content[i].1, "schema").Some?
    ensures forall j :: k <= j < i ==> Get(content[j].1, "schema").None?
    decreases |content| - k
  {
    if k == |content| then k
    else if Get(content[k].1, "schema").Some? then k
    else FirstSchemaFrom(content, k + 1)
  }

  /** `content.values().filter_map(|entry| entry.get("schema")).next()` */
  function FirstSchema(content: Fields): (r: Option<Value>)
    ensures r.None? <==> forall i :: 0 <= i < |content| ==> Get(content[i].1, "schema").None?
    ensures r.Some? ==> exists i :: 0 <= i < |content| && Get(content[i].1, "schema") == r
                                    && forall j :: 0 <= j < i ==> Get(content[j].1, "schema").None?
  {
    var i := FirstSchemaFrom(content, 0);
    if i < |content| then Get(content[i].1, "schema") else None
  }

  /** The `schema` of the `application/json` entry, when it has one. */
  function JsonSchema(content: Fields): Option<Value>
  {
    match Lookup(content, "application/json")
    case Some(entry) => Get(entry, "schema")
    case None => None
  }

  /** `select_content_schema`: `application/json` first, then the first entry with a schema. */
  function SelectContentSchema(content: Fields): (r: Option<Value>)
    ensures r.None? <==> forall i :: 0 <= i < |content| ==> Get(content[i].1, "schema").None?
    ensures JsonSchema(content).Some? ==> r == Some(SchemaRefOrType(JsonSchema(content).value))
    ensures JsonSchema(content).None? && r.Some? ==>
      exists i :: 0 <= i < |content| && Get(content[i].1, "schema").Some?
                  && r == Some(SchemaRefOrType(Get(content[i].1, "schema").value))
                  && forall j :: 0 <= j < i ==> Get(content[j].1, "schema").None?
    ensures r.Some? ==> IsProjected(r.value)
  {
    match JsonSchema(content)
    case Some(schema) =>
      var entry := Lookup(content, "application/json").value;
      assert exists i :: 0 <= i < |content| && content[i] == ("application/json", entry);
      Some(SchemaRefOrType(schema))
    case None =>
      match FirstSchema(content)
      case Some(schema) => Some(SchemaRefOrType(schema))
      case None => None
  }

  /**
   * The schema slot of a request body or a response: its string `$ref`, else the selected
   * content schema, else null.
   */
  function ContentOutline(v: Value): (r: Value)
    ensures IsProjected(r)
    ensures RefOf(v).Some? ==> r == String(RefOf(v).value)
    ensures RefOf(v).None? && ObjOf(Get(v, "content")).Some?
            && SelectContentSchema(ObjOf(Get(v, "content")).value).Some? ==>
              r == SelectContentSchema(ObjOf(Get(v, "content")).value).value
    ensures RefOf(v).None? && ObjOf(Get(v, "content")).None? ==> r == Null
    ensures RefOf(v).None? && ObjOf(Get(v, "content")).Some?
            && SelectContentSchema(ObjOf(Get(v, "content")).value).None? ==>
              r == Null
  {
    match RefOf(v)
    case Some(reference) => String(reference)
    case None =>
      match ObjOf(Get(v, "content"))
      case Some(content) => SelectContentSchema(content).GetOr(Null)
      case None => Null
  }

  /**
   * The two slots of the minimal outline: a response whose JSON content schema is a bare
   * `$ref` outlines to the reference string, and a property schema `{"type": t}` to `t`.
   */
  lemma MinimalOutlineSlots(reference: string, t: string)
    requires t != "array"
    ensures var schema := Object([("$ref", String(reference))]);
      var response := Object([("description", String("OK")),
                              ("content", Object([("application/json", Object([("schema", schema)]))]))]);
      ContentOutline(response) == String(reference)
    ensures SchemaRefOrType(Object([("type", String(t))])) == String(t)
  {
    var schema := Object([("$ref", String(reference))]);
    var entry := Object([("schema", schema)]);
    var content := [("application/json", entry)];
    var response := Object([("description", String("OK")), ("content", Object(content))]);
    assert RefOf(schema) == Some(reference);
    assert JsonSchema(content) == Some(schema);
    PairMap("description", String("OK"), "content", Object(content));
    assert RefOf(response).None?;
    ProjectionRules(Object([("type", String(t))]));
  }

  /** `outline_request_body` */
  function RequestOutline(op: Fields): (r: Value)
    ensures IsProjected(r)
    ensures Lookup(op, "requestBody").None? ==> r == Null
    ensures Lookup(op, "requestBody").Some? ==> r == ContentOutline(Lookup(op, "requestBody").value)
  {
    match Lookup(op, "requestBody")
    case Some(body) => ContentOutline(body)
    case None => Null
  }

  /**
   * A request body without `$ref` whose `application/json` entry has a schema gives the
   * `request` slot that schema, collapsed, whatever the other media types hold.
   */
  lemma RequestJsonSchema(op: Fields, body: Value, content: Fields, entry: Value, schema: Value)
    requires Lookup(op, "requestBody") == Some(body) && RefOf(body).None?
    requires Get(body, "content") == Some(Object(content))
    requires Lookup(content, "application/json") == Some(entry) && Get(entry, "schema") == Some(schema)
    ensures RequestOutline(op) == SchemaRefOrType(schema)
    ensures Lookup(OperationOutline(op).fields, "request") == Some(SchemaRefOrType(schema))
  {
    assert JsonSchema(content) == Some(schema);
  }

  /** `outline_responses`: the status codes of `responses`, each with its schema slot. */
  function ResponsesOutline(op: Fields): (r: Fields)
    ensures Keys(r) == match ObjOf(Lookup(op, "responses")) case Some(m) => Keys(m) case None => {}
    ensures forall i :: 0 <= i < |r| ==> IsProjected(r[i].1)
    ensures DistinctKeys(r)
  {
    match ObjOf(Lookup(op, "responses"))
    case Some(responses) =>
      var r := FromPairs(MapValues(responses, ContentOutline));
      assert forall i :: 0 <= i < |r| ==> IsProjected(r[i].1) by {
        forall i | 0 <= i < |r| ensures IsProjected(r[i].1) {
          var pairs := MapValues(responses, ContentOutline);
          var j :| 0 <= j < |pairs| && pairs[j] == r[i];
        }
      }
      r
    case None => []
  }

  /** With distinct status codes every code maps to its own response's schema slot. */
  lemma ResponsesOfDistinct(op: Fields, responses: Fields)
    requires ObjOf(Lookup(op, "responses")) == Some(responses) && DistinctKeys(responses)
    ensures ResponsesOutline(op) == MapValues(responses, ContentOutline)
  {
    FromDistinctPairs(MapValues(responses, ContentOutline));
  }

  /** The outline of one operation: `{query, request, responses}`. */
  function OperationOutline(op: Fields): (r: Value)
    ensures r.Object? && Keys(r.fields) == {"query", "request", "responses"}
    ensures Lookup(r.fields, "query") == Some(Array(QueryParams(op)))
    ensures Lookup(r.fields, "request") == Some(RequestOutline(op))
    ensures Lookup(r.fields, "responses") == Some(Object(ResponsesOutline(op)))
  {
    var fields := [("query", Array(QueryParams(op))), ("request", RequestOutline(op)),
                   ("responses", Object(ResponsesOutline(op)))];
    TripleMap("query", Array(QueryParams(op)), "request", RequestOutline(op), "responses", Object(ResponsesOutline(op)));
    Object(fields)
  }

  /** Whether the inner loop of `outline_paths` accepts an entry of a path item. */
  predicate MethodOk(entry: (string, Value))
  {
    !IsHttpMethod(entry.0) || entry.1.Object?
  }

  /** One iteration of the inner loop of `outline_paths`, over the entries of the item at `path`. */
  function MethodStep(path: string): (Fields, (string, Value)) -> Result<Fields, AppError>
  {
    (methods: Fields, entry: (string, Value)) =>
      if !IsHttpMethod(entry.0) then Success(methods)
      else if !entry.1.Object? then Failure(Outline("operation must be an object: " + path + " " + entry.0))
      else Success(Insert(methods, entry.0, OperationOutline(entry.1.fields)))
  }

  /** The method map of the path item at `path`. */
  function ItemMethods(path: string, item: Fields): Result<Fields, AppError>
  {
    Fold(item, [], MethodStep(path))
  }

  /** Whether the outer loop of `outline_paths` accepts a path entry. */
  predicate PathItemOk(entry: (string, Value))
  {
    entry.1.Object? && forall j :: 0 <= j < |entry.1.fields| ==> MethodOk(entry.1.fields[j])
  }

  /** One iteration of the outer loop of `outline_paths`. */
  function PathStep(outlined: Fields, entry: (string, Value)): Result<Fields, AppError>
  {
    if !entry.1.Object? then Failure(Outline("path item must be an object: " + entry.0))
    else
      match ItemMethods(entry.0, entry.1.fields)
      case Failure(e) => Failure(e)
      case Success(methods) => Success(Insert(outlined, entry.0, Object(methods)))
  }

  /** The outlined `paths` map. */
  function OutlinedPaths(paths: Fields): Result<Fields, AppError>
  {
    Fold(paths, [], PathStep)
  }

  /** `outline_paths`: a loop over the path items with a loop over each item's entries. */
  method OutlinePaths(paths: Fields) returns (r: Result<Value, AppError>)
    ensures r == match OutlinedPaths(paths) case Failure(e) => Failure(e) case Success(m) => Success(Object(m))
  {
    var outlined: Fields := [];
    for i := 0 to |paths|
      invariant Fold(paths[..i], [], PathStep) == Success(outlined)
    {
      FoldStep(paths, i, [], PathStep);
      var (path, item) := paths[i];
      if !item.Object? {
        FoldFailureSticks(paths, i + 1, [], PathStep);
        return Failure(Outline("path item must be an object: " + path));
      }
      var itemObj := item.fields;
      var methods: Fields := [];
      for j := 0 to |itemObj|
        invariant Fold(itemObj[..j], [], MethodStep(path)) == Success(methods)
      {
        FoldStep(itemObj, j, [], MethodStep(path));
        var (name, op) := itemObj[j];
        if !IsHttpMethod(name) {
          continue;
        }
        if !op.Object? {
          FoldFailureSticks(itemObj, j + 1, [], MethodStep(path));
          FoldFailureSticks(paths, i + 1, [], PathStep);
          return Failure(Outline("operation must be an object: " + path + " " + name));
        }
        var opObj := op.fields;
        var query := QueryParams(opObj);
        var request := RequestOutline(opObj);
        var responses := ResponsesOutline(opObj);
        methods := Insert(methods, name, Object([("query", Array(query)), ("request", request), ("responses", Object(responses))]));
      }
      FoldWhole(itemObj, [], MethodStep(path));
      outlined := Insert(outlined, path, Object(methods));
    }
    FoldWhole(paths, [], PathStep);
    return Success(Object(outlined));
  }

  /** A method entry of a path item survives the inner loop exactly when it is an HTTP method. */
  predicate IsMethodEntry(entry: (string, Value))
  {
    IsHttpMethod(entry.0)
  }

  /** What the inner loop stores for a kept entry. */
  function OperationValue(entry: (string, Value)): Value
  {
    if entry.1.Object? then OperationOutline(entry.1.fields) else Null
  }

  predicate KeepAll(entry: (string, Value))
  {
    true
  }

  /** What the outer loop stores for a path. */
  function PathValue(entry: (string, Value)): Value
  {
    if entry.1.Object? && ItemMethods(entry.0, entry.1.fields).Success? then
      Object(ItemMethods(entry.0, entry.1.fields).value)
    else Null
  }

  /** A loop step that, when it succeeds, stores `g(x)` under `x.0` if `keep(x)` and else skips `x`. */
  ghost predicate InsertsOrSkips(step: (Fields, (string, Value)) -> Result<Fields, AppError>,
                           keep: ((string, Value)) -> bool, g: ((string, Value)) -> Value)
  {
    forall acc: Fields, x: (string, Value) :: step(acc, x).Success? ==>
      step(acc, x).value == if keep(x) then Insert(acc, x.0, g(x)) else acc
  }

  /** The keys of the kept entries. */
  ghost function KeptKeys(xs: Fields, keep: ((string, Value)) -> bool): set<string>
  {
    set i | 0 <= i < |xs| && keep(xs[i]) :: xs[i].0
  }

  lemma KeptKeysPrefix(xs: Fields, keep: ((string, Value)) -> bool, n: nat)
    requires n < |xs|
    ensures KeptKeys(xs[..n + 1], keep) == KeptKeys(xs[..n], keep) + (if keep(xs[n]) then {xs[n].0} else {})
  {
    var p := xs[..n + 1];
    assert p[n] == xs[n];
    assert forall i :: 0 <= i < n ==> p[i] == xs[..n][i];
  }

  /** Such a loop's map holds exactly the keys of the kept entries. */
  lemma {:induction false} FoldInsertKeys(xs: Fields, step: (Fields, (string, Value)) -> Result<Fields, AppError>,
                                          keep: ((string, Value)) -> bool, g: ((string, Value)) -> Value)
    requires InsertsOrSkips(step, keep, g)
    requires Fold(xs, [], step).Success?
    ensures Keys(Fold(xs, [], step).value) == KeptKeys(xs, keep)
    decreases |xs|
  {
    if xs != [] {
      var n := |xs| - 1;
      FoldStep(xs, n, [], step);
      FoldWhole(xs, [], step);
      assert xs[..n + 1] == xs;
      FoldInsertKeys(xs[..n], step, keep, g);
      KeptKeysPrefix(xs, keep, n);
      assert xs[..n + 1] == xs;
    }
  }

  /** In such a loop over distinct keys, a kept entry ends up stored under its key. */
  lemma {:induction false} FoldInsertEntry(xs: Fields, step: (Fields, (string, Value)) -> Result<Fields, AppError>,
                                           keep: ((string, Value)) -> bool, g: ((string, Value)) -> Value, i: nat, n: nat)
    requires InsertsOrSkips(step, keep, g)
    requires DistinctKeys(xs) && i < n <= |xs| && keep(xs[i])
    requires Fold(xs[..n], [], step).Success?
    ensures Lookup(Fold(xs[..n], [], step).value, xs[i].0) == Some(g(xs[i]))
    decreases n
  {
    FoldStep(xs, n - 1, [], step);
    assert xs[..n - 1 + 1] == xs[..n];
    if n - 1 > i {
      FoldInsertEntry(xs, step, keep, g, i, n - 1);
      assert xs[n - 1].0 != xs[i].0;
    }
  }

  lemma MethodStepShape(path: string)
    ensures InsertsOrSkips(MethodStep(path), IsMethodEntry, OperationValue)
  {
  }

  lemma PathStepShape()
    ensures InsertsOrSkips(PathStep, KeepAll, PathValue)
  {
  }

  /** A path item's method map fails exactly on a non-object HTTP-method entry, with an outline error. */
  lemma ItemMethodsOk(path: string, item: Fields)
    ensures ItemMethods(path, item).Success? <==> forall j :: 0 <= j < |item| ==> MethodOk(item[j])
    ensures ItemMethods(path, item).Failure? ==> ItemMethods(path, item).error.Outline?
  {
    FoldSucceedsIff(item, [], MethodStep(path), MethodOk);
    if ItemMethods(path, item).Failure? {
      FoldFailureFrom(item, [], MethodStep(path));
    }
  }

  /** The method map holds exactly the item's keys that are HTTP methods. */
  lemma MethodKeys(path: string, item: Fields)
    requires ItemMethods(path, item).Success?
    ensures Keys(ItemMethods(path, item).value) == Keys(item) * HTTP_METHODS
  {
    MethodStepShape(path);
    FoldInsertKeys(item, MethodStep(path), IsMethodEntry, OperationValue);
  }

  /** Each HTTP-method entry of an item (with distinct keys) maps to its operation's outline. */
  lemma MethodEntry(path: string, item: Fields, j: nat)
    requires ItemMethods(path, item).Success? && DistinctKeys(item)
    requires j < |item| && IsHttpMethod(item[j].0)
    ensures item[j].1.Object?
    ensures Lookup(ItemMethods(path, item).value, item[j].0) == Some(OperationOutline(item[j].1.fields))
  {
    ItemMethodsOk(path, item);
    MethodStepShape(path);
    assert item[..|item|] == item;
    FoldInsertEntry(item, MethodStep(path), IsMethodEntry, OperationValue, j, |item|);
  }

  /**
   * `outline_paths` fails exactly when some path item is not an object or has a non-object
   * HTTP-method entry, and always with an outline error.
   */
  lemma OutlinedPathsOk(paths: Fields)
    ensures OutlinedPaths(paths).Success? <==> forall i :: 0 <= i < |paths| ==> PathItemOk(paths[i])
    ensures OutlinedPaths(paths).Failure? ==> OutlinedPaths(paths).error.Outline?
  {
    forall acc: Fields, x: (string, Value) ensures PathStep(acc, x).Failure? <==> !PathItemOk(x) {
      if x.1.Object? {
        ItemMethodsOk(x.0, x.1.fields);
      }
    }
    FoldSucceedsIff(paths, [], PathStep, PathItemOk);
    if OutlinedPaths(paths).Failure? {
      FoldFailureFrom(paths, [], PathStep);
      var i :| 0 <= i < |paths| && Fold(paths[..i], [], PathStep).Success?
               && PathStep(Fold(paths[..i], [], PathStep).value, paths[i]) == OutlinedPaths(paths);
      if paths[i].1.Object? {
        ItemMethodsOk(paths[i].0, paths[i].1.fields);
      }
    }
  }

  /** The outlined paths have exactly the input's path keys. */
  lemma PathKeys(paths: Fields)
    requires OutlinedPaths(paths).Success?
    ensures Keys(OutlinedPaths(paths).value) == Keys(paths)
  {
    PathStepShape();
    FoldInsertKeys(paths, PathStep, KeepAll, PathValue);
  }

  /** Each path (with distinct keys) maps to its item's method map. */
  lemma PathEntry(paths: Fields, i: nat)
    requires OutlinedPaths(paths).Success? && DistinctKeys(paths) && i < |paths|
    ensures paths[i].1.Object? && ItemMethods(paths[i].0, paths[i].1.fields).Success?
    ensures Lookup(OutlinedPaths(paths).value, paths[i].0) == Some(Object(ItemMethods(paths[i].0, paths[i].1.fields).value))
  {
    OutlinedPathsOk(paths);
    ItemMethodsOk(paths[i].0, paths[i].1.fields);
    PathStepShape();
    assert paths[..|paths|] == paths;
    FoldInsertEntry(paths, PathStep, KeepAll, PathValue, i, |paths|);
  }

  /** `.filter_map(|item| item.as_str())`: the string items, in order. */
  function StringItems(items: seq<Value>): (r: seq<Value>)
    ensures |r| <= |items|
    decreases |items|
  {
    if items == [] then []
    else
      var rest := StringItems(items[1..]);
      if items[0].String? then [items[0]] + rest else rest
  }

  /** Only string items are kept, and every string item is kept. */
  lemma {:induction false} StringItemsMembers(items: seq<Value>)
    ensures forall k :: 0 <= k < |StringItems(items)| ==>
      StringItems(items)[k].String? && StringItems(items)[k] in items
    ensures forall i :: 0 <= i < |items| && items[i].String? ==> items[i] in StringItems(items)
    decreases |items|
  {
    if items != [] {
      StringItemsMembers(items[1..]);
      assert forall i :: 1 <= i < |items| ==> items[i] == items[1..][i - 1];
    }
  }

  /** One item is kept exactly when it is a string. */
  lemma StringItemsSingle(item: Value)
    ensures StringItems([item]) == if item.String? then [item] else []
  {
    assert [item][1..] == [];
  }

  lemma StringItemsCons(item: Value, rest: seq<Value>)
    ensures StringItems([item] + rest) == (if item.String? then [item] else []) + StringItems(rest)
  {
    assert ([item] + rest)[1..] == rest;
  }

  /** The filter distributes over concatenation, so order and repetitions are kept. */
  lemma {:induction false} StringItemsAppend(a: seq<Value>, b: seq<Value>)
    ensures StringItems(a + b) == StringItems(a) + StringItems(b)
    decreases |a|
  {
    if a == [] {
      assert a + b == b;
    } else {
      var head := if a[0].String? then [a[0]] else [];
      assert a == [a[0]] + a[1..];
      assert a + b == [a[0]] + (a[1..] + b);
      StringItemsCons(a[0], a[1..] + b);
      StringItemsCons(a[0], a[1..]);
      StringItemsAppend(a[1..], b);
      assert StringItems(a + b) == head + (StringItems(a[1..]) + StringItems(b));
    }
  }

  /** The `properties` map with each property collapsed by `schema_ref_or_type`. */
  function PropertiesOutline(props: Fields): (r: Fields)
    ensures Keys(r) == Keys(props) && DistinctKeys(r)
  {
    FromPairs(MapValues(props, SchemaRefOrType))
  }

  /** Each property (with distinct names) maps to its schema, collapsed. */
  lemma PropertyEntry(props: Fields, i: nat)
    requires DistinctKeys(props) && i < |props|
    ensures Lookup(PropertiesOutline(props), props[i].0) == Some(SchemaRefOrType(props[i].1))
  {
    var pairs := MapValues(props, SchemaRefOrType);
    FromDistinctPairs(pairs);
    assert pairs[i] == (props[i].0, SchemaRefOrType(props[i].1));
    LookupDistinct(pairs, i);
  }

  /** The `type: object` (or untyped) case of `simplify_schema_definition`. */
  function ObjectDefinition(schema: Value): (r: Value)
    ensures r.Object? && DistinctKeys(r.fields)
  {
    var base := [("type", String("object"))];
    var withRequired :=
      match ArrOf(Get(schema, "required"))
      case Some(items) => Insert(base, "required", Array(StringItems(items)))
      case None => base;
    var withProperties :=
      match ObjOf(Get(schema, "properties"))
      case Some(props) => Insert(withRequired, "properties", Object(PropertiesOutline(props)))
      case None => withRequired;
    Object(withProperties)
  }

  /**
   * The object definition is `type: object`, plus `required` (its string items) when the
   * schema has a `required` array, plus `properties` (collapsed) when it has a `properties`
   * object; nothing else.
   */
  lemma ObjectDefinitionFields(schema: Value)
    ensures var r := ObjectDefinition(schema);
      Keys(r.fields) == {"type"}
        + (if ArrOf(Get(schema, "required")).Some? then {"required"} else {})
        + (if ObjOf(Get(schema, "properties")).Some? then {"properties"} else {})
      && Lookup(r.fields, "type") == Some(String("object"))
      && (ArrOf(Get(schema, "required")).Some? ==>
            Lookup(r.fields, "required") == Some(Array(StringItems(ArrOf(Get(schema, "required")).value))))
      && (ObjOf(Get(schema, "properties")).Some? ==>
            Lookup(r.fields, "properties") == Some(Object(PropertiesOutline(ObjOf(Get(schema, "properties")).value))))
  {
    var required := ArrOf(Get(schema, "required"));
    var properties := ObjOf(Get(schema, "properties"));
    var q := if required.Some? then Some(Array(StringItems(required.value))) else None;
    var p := if properties.Some? then Some(Object(PropertiesOutline(properties.value))) else None;
    OptionalInserts("type", String("object"), "required", q, "properties", p);
  }

  /** `simplify_schema_definition`: collapses one component schema. */
  function SchemaDefinition(schema: Value): (r: Value)
    ensures r.Object?
    ensures RefOf(schema).Some? ==> r == Object([("$ref", String(RefOf(schema).value))])
    ensures RefOf(schema).None? && CombinatorOf(schema).Some? ==>
      var (name, of) := CombinatorOf(schema).value;
      r.fields == [(name, Array(seq(|of|, i requires 0 <= i < |of| => SchemaRefOrType(of[i]))))]
    ensures RefOf(schema).None? && CombinatorOf(schema).None? && TypeOf(schema) in {None, Some("object")} ==>
      r == ObjectDefinition(schema)
  {
    match RefOf(schema)
    case Some(reference) => Object([("$ref", String(reference))])
    case None =>
      match CombinatorOf(schema)
      case Some((name, of)) =>
        Object([(name, Array(seq(|of|, i requires 0 <= i < |of| => SchemaRefOrType(of[i]))))])
      case None =>
        match TypeOf(schema)
        case None => ObjectDefinition(schema)
        case Some(t) =>
          if t == "object" then ObjectDefinition(schema)
          else if t == "array" then Object([("type", String("array")), ("items", ItemsOf(schema))])
          else Object([("type", String(t))])
  }

  /** An object or untyped component schema always comes out as `type: object`. */
  lemma ObjectSchemaTyped(schema: Value)
    requires RefOf(schema).None? && CombinatorOf(schema).None?
    requires TypeOf(schema).None? || TypeOf(schema) == Some("object")
    ensures Lookup(SchemaDefinition(schema).fields, "type") == Some(String("object"))
  {
    ObjectDefinitionFields(schema);
  }

  /** Any other typed component schema keeps its type name under `type`. */
  lemma TypedSchemaKeepsType(schema: Value)
    requires RefOf(schema).None? && CombinatorOf(schema).None? && TypeOf(schema).Some?
    ensures Lookup(SchemaDefinition(schema).fields, "type") == Some(String(TypeOf(schema).value))
  {
    var t := TypeOf(schema).value;
    if t == "object" {
      ObjectDefinitionFields(schema);
    } else if t == "array" {
      PairMap("type", String("array"), "items", ItemsOf(schema));
    }
  }

  /** `simplify_schema_definition` as written: early returns, then a map filled in place. */
  method SimplifySchemaDefinition(schema: Value) returns (r: Value)
    ensures r == SchemaDefinition(schema)
  {
    var reference := RefOf(schema);
    if reference.Some? {
      return Object([("$ref", String(reference.value))]);
    }
    var combinator := CombinatorOf(schema);
    if combinator.Some? {
      var (name, of) := combinator.value;
      var projected: seq<Value> := [];
      for i := 0 to |of|
        invariant projected == seq(i, k requires 0 <= k < i => SchemaRefOrType(of[k]))
      {
        projected := projected + [SchemaRefOrType(of[i])];
      }
      return Object([(name, Array(projected))]);
    }
    var schemaType := TypeOf(schema);
    if schemaType.None? || schemaType.value == "object" {
      var obj: Fields := [("type", String("object"))];
      var required := ArrOf(Get(schema, "required"));
      if required.Some? {
        obj := Insert(obj, "required", Array(StringItems(required.value)));
      }
      var properties := ObjOf(Get(schema, "properties"));
      if properties.Some? {
        obj := Insert(obj, "properties", Object(PropertiesOutline(properties.value)));
      }
      return Object(obj);
    }
    if schemaType.value == "array" {
      return Object([("type", String("array")), ("items", ItemsOf(schema))]);
    }
    return Object([("type", String(schemaType.value))]);
  }

  /** `outline_schemas`: every component schema collapsed, under its own name. */
  function SchemasOutline(schemas: Option<Fields>): (r: Fields)
    ensures DistinctKeys(r)
    ensures Keys(r) == if schemas.Some? then Keys(schemas.value) else {}
  {
    match schemas
    case Some(s) => FromPairs(MapValues(s, SchemaDefinition))
    case None => []
  }

  /** Over distinct names (as in a JSON object), each schema name maps to its definition. */
  lemma SchemaEntry(schemas: Fields, i: nat)
    requires DistinctKeys(schemas) && i < |schemas|
    ensures Lookup(SchemasOutline(Some(schemas)), schemas[i].0) == Some(SchemaDefinition(schemas[i].1))
  {
    var pairs := MapValues(schemas, SchemaDefinition);
    FromDistinctPairs(pairs);
    assert pairs[i] == (schemas[i].0, SchemaDefinition(schemas[i].1));
    LookupDistinct(pairs, i);
  }

  /** `outline_schemas` as a loop over the schemas map. */
  method OutlineSchemas(schemas: Option<Fields>) returns (r: Value)
    ensures r == Object(SchemasOutline(schemas))
  {
    var outlined: Fields := [];
    if schemas.Some? {
      var s := schemas.value;
      for i := 0 to |s|
        invariant outlined == FromPairs(MapValues(s[..i], SchemaDefinition))
      {
        var (name, schema) := s[i];
        var definition := SimplifySchemaDefinition(schema);
        MapValuesSnoc(s, i, SchemaDefinition);
        FromPairsSnoc(MapValues(s[..i], SchemaDefinition), (name, definition));
        outlined := Insert(outlined, name, definition);
      }
      assert s[..|s|] == s;
    }
    return Object(outlined);
  }

  /** `components.schemas`, when both are objects. */
  function ComponentSchemas(doc: Value): Option<Fields>
  {
    match ObjOf(Get(doc, "components"))
    case Some(components) => ObjOf(Get(Object(components), "schemas"))
    case None => None
  }

  /** The documents `outline_openapi` accepts. */
  predicate OutlineAccepts(doc: Value)
  {
    doc.Object? && ObjOf(Get(doc, "paths")).Some?
    && var paths := ObjOf(Get(doc, "paths")).value;
       forall i :: 0 <= i < |paths| ==> PathItemOk(paths[i])
  }

  /** `outline_openapi`: the outline document `{paths, schemas}` of an OpenAPI document. */
  function OutlineDocument(doc: Value): (r: Result<Value, AppError>)
    ensures r.Success? <==> OutlineAccepts(doc)
    ensures r.Failure? ==> r.error.Outline?
    ensures !doc.Object? ==> r == Failure(Outline(NOT_AN_OBJECT))
    ensures doc.Object? && ObjOf(Get(doc, "paths")).None? ==> r == Failure(Outline(MISSING_PATHS))
    ensures r.Success? ==>
      r.value.Object? && Keys(r.value.fields) == {"paths", "schemas"}
      && doc.Object? && ObjOf(Get(doc, "paths")).Some? && OutlinedPaths(ObjOf(Get(doc, "paths")).value).Success?
      && Lookup(r.value.fields, "paths") == Some(Object(OutlinedPaths(ObjOf(Get(doc, "paths")).value).value))
      && Lookup(r.value.fields, "schemas") == Some(Object(SchemasOutline(ComponentSchemas(doc))))
  {
    if !doc.Object? then Failure(Outline(NOT_AN_OBJECT))
    else
      match ObjOf(Get(doc, "paths"))
      case None => Failure(Outline(MISSING_PATHS))
      case Some(paths) =>
        OutlinedPathsOk(paths);
        match OutlinedPaths(paths)
        case Failure(e) => Failure(e)
        case Success(outlined) =>
          var fields := [("paths", Object(outlined)), ("schemas", Object(SchemasOutline(ComponentSchemas(doc))))];
          PairMap("paths", Object(outlined), "schemas", Object(SchemasOutline(ComponentSchemas(doc))));
          Success(Object(fields))
  }

  /** `outline_openapi` as written, over the two loops. */
  method OutlineOpenapi(doc: Value) returns (r: Result<Value, AppError>)
    ensures r == OutlineDocument(doc)
  {
    if !doc.Object? {
      return Failure(Outline(NOT_AN_OBJECT));
    }
    var paths := ObjOf(Get(doc, "paths"));
    if paths.None? {
      return Failure(Outline(MISSING_PATHS));
    }
    var schemas := ComponentSchemas(doc);
    var outlinedPaths := OutlinePaths(paths.value);
    if outlinedPaths.Failure? {
      return Failure(outlinedPaths.error);
    }
    var outlinedSchemas := OutlineSchemas(schemas);
    return Success(Object([("paths", outlinedPaths.value), ("schemas", outlinedSchemas)]));
  }

  /**
   * The outline's path map has one entry per path, and each path's method map holds exactly
   * that item's HTTP-method keys.
   */
  lemma OutlineShape(doc: Value, i: nat)
    requires OutlineDocument(doc).Success?
    requires DistinctKeys(ObjOf(Get(doc, "paths")).value) && i < |ObjOf(Get(doc, "paths")).value|
    ensures var paths := ObjOf(Get(doc, "paths")).value;
      var outlined := OutlinedPaths(paths).value;
      Keys(outlined) == Keys(paths)
      && paths[i].1.Object?
      && exists methods :: (Lookup(outlined, paths[i].0) == Some(Object(methods))
                            && Keys(methods) == Keys(paths[i].1.fields) * HTTP_METHODS)
  {
    var paths := ObjOf(Get(doc, "paths")).value;
    PathKeys(paths);
    PathEntry(paths, i);
    MethodKeys(paths[i].0, paths[i].1.fields);
  }
}
