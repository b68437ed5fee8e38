/**
 * The output stage: reducing a document to its requested top-level keys, choosing which
 * payloads a run produces, and planning and performing where they go. Serialisation is
 * opaque: a payload is the JSON value that would be serialised.
 */
module Output {
  import opened Wrappers
  import opened Text
  import opened Folds
  import opened Assoc
  import opened JsonValue
  import opened Errors
  import opened Configuration
  import opened Fetch
  import opened Outliner

  const REDUCE_NOT_AN_OBJECT: string := "OpenAPI document must be a JSON object"
  const NO_PARENT: string := "output path has no parent directory"

  function MissingKey(name: string): string
  {
    "missing top-level key: " + name
  }

  // ---------------------------------------------------------------------------------------
  // reduce_openapi

  /** One iteration of `reduce_openapi`'s loop over the requested keys of `source`. */
  function ReduceStep(source: Fields): (Fields, ReduceKey) -> Result<Fields, AppError>
  {
    (reduced: Fields, key: ReduceKey) =>
      match Lookup(source, KeyName(key))
      case None => Failure(Reduce(MissingKey(KeyName(key))))
      case Some(entry) => Success(Insert(reduced, KeyName(key), entry))
  }

  /** `reduce_openapi` */
  function Reduced(doc: Value, keys: seq<ReduceKey>): (r: Result<Value, AppError>)
    ensures !doc.Object? ==> r == Failure(Reduce(REDUCE_NOT_AN_OBJECT))
    ensures r.Failure? ==> r.error.Reduce?
    ensures r.Success? ==> r.value.Object?
  {
    if !doc.Object? then Failure(Reduce(REDUCE_NOT_AN_OBJECT))
    else
      if Fold(keys, [], ReduceStep(doc.fields)).Failure? then
        FoldFailureFrom(keys, [], ReduceStep(doc.fields));
        Failure(Fold(keys, [], ReduceStep(doc.fields)).error)
      else
        Success(Object(Fold(keys, [], ReduceStep(doc.fields)).value))
  }

  /** `reduce_openapi` as written: a loop inserting into a fresh map. */
  method ReduceOpenapi(doc: Value, keys: seq<ReduceKey>) returns (r: Result<Value, AppError>)
    ensures r == Reduced(doc, keys)
  {
    if !doc.Object? {
      return Failure(Reduce(REDUCE_NOT_AN_OBJECT));
    }
    var source := doc.fields;
    var reduced: Fields := [];
    for i := 0 to |keys|
      invariant Fold(keys[..i], [], ReduceStep(source)) == Success(reduced)
    {
      FoldStep(keys, i, [], ReduceStep(source));
      var name := KeyName(keys[i]);
      var entry := Lookup(source, name);
      if entry.None? {
        FoldFailureSticks(keys, i + 1, [], ReduceStep(source));
        return Failure(Reduce(MissingKey(name)));
      }
      reduced := Insert(reduced, name, entry.value);
    }
    FoldWhole(keys, [], ReduceStep(source));
    return Success(Object(reduced));
  }

  /** The names of the requested keys. */
  ghost function KeyNames(keys: seq<ReduceKey>): set<string>
  {
    set i | 0 <= i < |keys| :: KeyName(keys[i])
  }

  /** The position of the first requested key the source lacks, or `|keys|`. */
  function FirstMissing(source: Fields, keys: seq<ReduceKey>, k: nat): (i: nat)
    requires k <= |keys|
    ensures k <= i <= |keys|
    ensures i < |keys| ==> KeyName(keys[i]) !in Keys(source)
    ensures forall j :: k <= j < i ==> KeyName(keys[j]) in Keys(source)
    decreases |keys| - k
  {
    if k == |keys| then k
    else if KeyName(keys[k]) !in Keys(source) then k
    else FirstMissing(source, keys, k + 1)
  }

  /**
   * While every requested key so far is present, the loop has copied exactly those keys,
   * each with the document's value.
   */
  lemma {:induction false} ReducePrefix(source: Fields, keys: seq<ReduceKey>, n: nat)
    requires n <= |keys|
    requires forall j :: 0 <= j < n ==> KeyName(keys[j]) in Keys(source)
    ensures Fold(keys[..n], [], ReduceStep(source)).Success?
    ensures var reduced := Fold(keys[..n], [], ReduceStep(source)).value;
      DistinctKeys(reduced) && Keys(reduced) == KeyNames(keys[..n])
      && forall name :: name in Keys(reduced) ==> Lookup(reduced, name) == Lookup(source, name)
  {
    if n > 0 {
      ReducePrefix(source, keys, n - 1);
      var acc := Fold(keys[..n - 1], [], ReduceStep(source)).value;
      var name := KeyName(keys[n - 1]);
      FoldStep(keys, n - 1, [], ReduceStep(source));
      assert keys[..n - 1 + 1] == keys[..n];
      assert Fold(keys[..n], [], ReduceStep(source)) == Success(Insert(acc, name, Lookup(source, name).value));
      KeyNamesPrefix(keys, n - 1);
    }
  }

  lemma KeyNamesPrefix(keys: seq<ReduceKey>, n: nat)
    requires n < |keys|
    ensures KeyNames(keys[..n + 1]) == KeyNames(keys[..n]) + {KeyName(keys[n])}
  {
    var prefix := keys[..n + 1];
    assert prefix[n] == keys[n];
    assert forall j :: 0 <= j < n ==> prefix[j] == keys[..n][j];
  }

  /** The loop stops at the first missing key and reports it. */
  lemma ReduceMissing(source: Fields, keys: seq<ReduceKey>)
    requires FirstMissing(source, keys, 0) < |keys|
    ensures Fold(keys, [], ReduceStep(source)) == Failure(Reduce(MissingKey(KeyName(keys[FirstMissing(source, keys, 0)]))))
  {
    var m := FirstMissing(source, keys, 0);
    ReducePrefix(source, keys, m);
    FoldStep(keys, m, [], ReduceStep(source));
    FoldFailureSticks(keys, m + 1, [], ReduceStep(source));
  }

  /**
   * `reduce_openapi` on an object succeeds exactly when every requested key is present;
   * it then holds exactly the requested keys with the document's values, and otherwise
   * fails naming the first missing key, with no partial result.
   */
  lemma ReduceResult(doc: Value, keys: seq<ReduceKey>)
    requires doc.Object?
    ensures Reduced(doc, keys).Success? <==> forall i :: 0 <= i < |keys| ==> KeyName(keys[i]) in Keys(doc.fields)
    ensures Reduced(doc, keys).Failure? ==>
      var m := FirstMissing(doc.fields, keys, 0);
      m < |keys| && Reduced(doc, keys) == Failure(Reduce(MissingKey(KeyName(keys[m]))))
    ensures Reduced(doc, keys).Success? ==>
      var reduced := Reduced(doc, keys).value.fields;
      DistinctKeys(reduced) && Keys(reduced) == KeyNames(keys)
      && forall name :: name in KeyNames(keys) ==> Lookup(reduced, name) == Lookup(doc.fields, name)
  {
    var m := FirstMissing(doc.fields, keys, 0);
    if m < |keys| {
      ReduceMissing(doc.fields, keys);
    } else {
      ReducePrefix(doc.fields, keys, |keys|);
      assert keys[..|keys|] == keys;
    }
  }

  /** Two objects that agree on the requested keys reduce alike. */
  lemma {:induction false} ReduceAgrees(a: Fields, b: Fields, keys: seq<ReduceKey>, n: nat)
    requires n <= |keys|
    requires forall j :: 0 <= j < |keys| ==> Lookup(a, KeyName(keys[j])) == Lookup(b, KeyName(keys[j]))
    ensures Fold(keys[..n], [], ReduceStep(a)) == Fold(keys[..n], [], ReduceStep(b))
  {
    if n > 0 {
      ReduceAgrees(a, b, keys, n - 1);
      FoldStep(keys, n - 1, [], ReduceStep(a));
      FoldStep(keys, n - 1, [], ReduceStep(b));
    }
  }

  /** Reducing an already reduced document with the same keys changes nothing. */
  lemma ReduceIdempotent(doc: Value, keys: seq<ReduceKey>)
    requires Reduced(doc, keys).Success?
    ensures Reduced(Reduced(doc, keys).value, keys) == Reduced(doc, keys)
  {
    ReduceResult(doc, keys);
    var reduced := Reduced(doc, keys).value.fields;
    forall j | 0 <= j < |keys| ensures Lookup(reduced, KeyName(keys[j])) == Lookup(doc.fields, KeyName(keys[j])) {
      assert KeyName(keys[j]) in KeyNames(keys);
    }
    ReduceAgrees(reduced, doc.fields, keys, |keys|);
    assert keys[..|keys|] == keys;
  }

  // ---------------------------------------------------------------------------------------
  // build_outputs / build_output

  /** `OutputPayloads`: the primary document and, optionally, the outline beside it. */
  datatype OutputPayloads = OutputPayloads(primary: Value, outline: Option<Value>)

  /** The profile match of `build_outputs`, over the parsed document. */
  function Assemble(config: Config, doc: Value): (r: Result<OutputPayloads, AppError>)
    ensures r.Failure? ==> r.error.Reduce? || r.error.Outline?
    ensures config.profile.Full? ==>
      (r.Success? <==> (config.reduce == [] || Reduced(doc, config.reduce).Success?)
                       && (config.outlineOut.None? || OutlineDocument(doc).Success?))
    ensures config.profile.Full? && r.Success? ==>
      (config.reduce == [] ==> r.value.primary == doc)
      && (config.reduce != [] ==> Reduced(doc, config.reduce) == Success(r.value.primary))
      && (r.value.outline.Some? <==> config.outlineOut.Some?)
      && (r.value.outline.Some? ==> OutlineDocument(doc) == Success(r.value.outline.value))
    ensures config.profile.Full? && config.reduce != [] && Reduced(doc, config.reduce).Failure? ==>
      r == Failure(Reduced(doc, config.reduce).error)
    ensures config.profile.Full? && (config.reduce == [] || Reduced(doc, config.reduce).Success?)
            && config.outlineOut.Some? && OutlineDocument(doc).Failure? ==>
              r == Failure(OutlineDocument(doc).error)
    ensures config.profile.Outline? && OutlineDocument(doc).Failure? ==>
      r == Failure(OutlineDocument(doc).error)
    ensures config.profile.Outline? ==>
      (r.Success? <==> OutlineDocument(doc).Success?)
      && (r.Success? ==> r.value.outline.None? && OutlineDocument(doc) == Success(r.value.primary))
  {
    if config.profile.Full? then
      var full := if config.reduce == [] then Success(doc) else Reduced(doc, config.reduce);
      if full.Failure? then Failure(full.error)
      else if config.outlineOut.None? then Success(OutputPayloads(full.value, None))
      else
        match OutlineDocument(doc)
        case Failure(e) => Failure(e)
        case Success(outline) => Success(OutputPayloads(full.value, Some(outline)))
    else
      match OutlineDocument(doc)
      case Failure(e) => Failure(e)
      case Success(outline) => Success(OutputPayloads(outline, None))
  }

  /** `build_outputs`: fetch, parse, then assemble the payloads. */
  function BuiltOutputs(config: Config, transport: Transport): (r: Result<OutputPayloads, AppError>)
    ensures r.Success? <==>
      FetchOpenapi(config, transport).Success? && ParseJson(FetchOpenapi(config, transport).value).Success?
      && Assemble(config, ParseJson(FetchOpenapi(config, transport).value).value).Success?
    ensures r.Success? ==> r == Assemble(config, ParseJson(FetchOpenapi(config, transport).value).value)
    ensures r.Failure? ==>
      (IsUrlRelated(r.error) <==>
        (FetchOpenapi(config, transport).Failure? && FetchOpenapi(config, transport).error.Network?)
        || (FetchOpenapi(config, transport).Success? && ParseJson(FetchOpenapi(config, transport).value).Failure?))
  {
    match FetchOpenapi(config, transport)
    case Failure(e) => Failure(e)
    case Success(body) =>
      match ParseJson(body)
      case Failure(e) => Failure(e)
      case Success(doc) => Assemble(config, doc)
  }

  /** `build_outputs` as written: `full_value` starts as the document and may be replaced by its reduction. */
  method BuildOutputs(config: Config, transport: Transport) returns (r: Result<OutputPayloads, AppError>)
    ensures r == BuiltOutputs(config, transport)
  {
    var body := FetchOpenapi(config, transport);
    if body.Failure? {
      return Failure(body.error);
    }
    var json := ParseJson(body.value);
    if json.Failure? {
      return Failure(json.error);
    }
    var doc := json.value;
    if config.profile.Full? {
        var fullValue := doc;
        if config.reduce != [] {
          var reduced := ReduceOpenapi(fullValue, config.reduce);
          if reduced.Failure? {
            return Failure(reduced.error);
          }
          fullValue := reduced.value;
        }
        var outline: Option<Value> := None;
        if config.outlineOut.Some? {
          var outlineValue := OutlineOpenapi(doc);
          if outlineValue.Failure? {
            return Failure(outlineValue.error);
          }
          outline := Some(outlineValue.value);
        }
        return Success(OutputPayloads(fullValue, outline));
    }
    var outlineValue := OutlineOpenapi(doc);
    if outlineValue.Failure? {
      return Failure(outlineValue.error);
    }
    return Success(OutputPayloads(outlineValue.value, None));
  }

  /** `build_output`: the primary payload of `build_outputs`. */
  method BuildOutput(config: Config, transport: Transport) returns (r: Result<Value, AppError>)
    ensures r.Success? <==> BuiltOutputs(config, transport).Success?
    ensures r.Success? ==> r.value == BuiltOutputs(config, transport).value.primary
    ensures r.Failure? ==> r.error == BuiltOutputs(config, transport).error
  {
    var outputs := BuildOutputs(config, transport);
    if outputs.Failure? {
      return Failure(outputs.error);
    }
    return Success(outputs.value.primary);
  }

  // ---------------------------------------------------------------------------------------
  // write_outputs / write_output

  /** One effect of the write stage: print a payload, or write it atomically to a file. */
  datatype Emission = Print(payload: Value) | Write(path: Path, payload: Value)

  /** The effects `write_outputs` performs, in order, before any of them runs. */
  function WritePlan(config: Config, outputs: OutputPayloads): (r: Result<seq<Emission>, AppError>)
    ensures r.Failure? <==> !config.stdout && config.out.None?
    ensures r.Failure? ==> r.error == Usage(OUT_REQUIRED)
    ensures ValidateConfig(config).Success? ==> r.Success?
    ensures config.stdout ==> r == Success([Print(outputs.primary)])
    ensures !config.stdout && r.Success? ==>
      1 <= |r.value| <= 2 && r.value[0] == Write(config.out.value, outputs.primary)
      && (|r.value| == 2 <==> outputs.outline.Some? && config.outlineOut.Some?)
      && (|r.value| == 2 ==> r.value[1] == Write(config.outlineOut.value, outputs.outline.value))
  {
    if config.stdout then Success([Print(outputs.primary)])
    else if config.out.None? then Failure(Usage(OUT_REQUIRED))
    else
      var primary := [Write(config.out.value, outputs.primary)];
      if outputs.outline.Some? && config.outlineOut.Some? then
        Success(primary + [Write(config.outlineOut.value, outputs.outline.value)])
      else Success(primary)
  }

  /** How one step of `write_atomic` can fail. */
  datatype WriteFailure =
    | CreateDir(reason: string)
    | CreateTemp(reason: string)
    | WriteTemp(reason: string)
    | SyncTemp(reason: string)
    | MoveTemp(reason: string)

  function FailureMessage(f: WriteFailure): string
  {
    match f
    case CreateDir(e) => "failed to create output directory: " + e
    case CreateTemp(e) => "failed to create temp file: " + e
    case WriteTemp(e) => "failed to write temp file: " + e
    case SyncTemp(e) => "failed to flush temp file: " + e
    case MoveTemp(e) => "failed to move temp file: " + e
  }

  /** A `/`-separated segment that `Path::components` keeps after the root: neither empty nor `.`. */
  predicate NamedSegment(segment: string)
  {
    segment != [] && segment != "."
  }

  /**
   * `Path::parent` is `None` exactly when the path has no component but the root: the
   * empty path, and an absolute path whose segments are all empty or `.` (`/`, `//`, `/.`).
   * A relative path always keeps its first segment (a leading `.` is the current directory).
   */
  predicate HasParent(path: Path)
  {
    var segments := Split(path, '/');
    path != [] && (path[0] != '/' || exists i :: 0 <= i < |segments| && NamedSegment(segments[i]))
  }

  /** `/.` has no parent: the `.` after the root is not a component. */
  lemma RootDotHasNoParent(failures: map<Path, WriteFailure>, path: Path)
    requires path == "/."
    ensures !HasParent(path)
    ensures WriteOutcome(failures, path) == Failure(Io(NO_PARENT))
  {
    assert path == "" + ['/'] + ".";
    SplitAt("", '/', ".");
    assert '/' !in ".";
    assert Split(path, '/') == ["", "."];
  }

  /** An absolute path with a named segment after the root has a parent. */
  lemma RootedFileHasParent(name: string)
    requires '/' !in name && NamedSegment(name)
    ensures HasParent("/" + name)
  {
    assert "/" + name == "" + ['/'] + name;
    SplitAt("", '/', name);
    assert Split(name, '/') == [name];
    assert Split("/" + name, '/')[1] == name;
  }

  /** The outcome of `write_atomic`, given which destinations fail and how. */
  function WriteOutcome(failures: map<Path, WriteFailure>, path: Path): (r: Result<(), AppError>)
    ensures r.Failure? ==> r.error.Io?
    ensures r.Success? <==> HasParent(path) && path !in failures
  {
    if !HasParent(path) then Failure(Io(NO_PARENT))
    else if path in failures then Failure(Io(FailureMessage(failures[path])))
    else Success(())
  }

  /** What has been written and printed so far. */
  datatype Sinks = Sinks(files: map<Path, Value>, printed: seq<Value>)

  /** One effect. A failed write leaves the destination as it was (the rename never happened). */
  function Emit(s: Sinks, failures: map<Path, WriteFailure>, e: Emission): (Sinks, Result<(), AppError>)
  {
    match e
    case Print(payload) => (Sinks(s.files, s.printed + [payload]), Success(()))
    case Write(path, payload) =>
      if WriteOutcome(failures, path).Failure? then (s, WriteOutcome(failures, path))
      else (Sinks(s.files[path := payload], s.printed), Success(()))
  }

  /** The effects of a plan in order, stopping at the first that fails (`?`). */
  function EmitAll(s: Sinks, failures: map<Path, WriteFailure>, plan: seq<Emission>): (Sinks, Result<(), AppError>)
    decreases |plan|
  {
    if plan == [] then (s, Success(()))
    else
      var (next, outcome) := Emit(s, failures, plan[0]);
      if outcome.Failure? then (next, outcome) else EmitAll(next, failures, plan[1..])
  }

  /** `write_outputs`: plan, then perform. */
  function Written(config: Config, outputs: OutputPayloads, s: Sinks, failures: map<Path, WriteFailure>): (Sinks, Result<(), AppError>)
  {
    match WritePlan(config, outputs)
    case Failure(e) => (s, Failure(e))
    case Success(plan) => EmitAll(s, failures, plan)
  }

  /** With `stdout` set exactly the primary is printed and no file is touched. */
  lemma WrittenToStdout(config: Config, outputs: OutputPayloads, s: Sinks, failures: map<Path, WriteFailure>)
    requires config.stdout
    ensures Written(config, outputs, s, failures) == (Sinks(s.files, s.printed + [outputs.primary]), Success(()))
  {
    var plan := [Print(outputs.primary)];
    var next := Sinks(s.files, s.printed + [outputs.primary]);
    assert Emit(s, failures, plan[0]) == (next, Success(()));
    assert plan[1..] == [];
    assert EmitAll(s, failures, plan) == EmitAll(next, failures, []);
  }

  /** Without `stdout` and `out` nothing happens and the error is a usage error. */
  lemma WrittenWithoutOut(config: Config, outputs: OutputPayloads, s: Sinks, failures: map<Path, WriteFailure>)
    requires !config.stdout && config.out.None?
    ensures Written(config, outputs, s, failures) == (s, Failure(Usage(OUT_REQUIRED)))
  {
  }

  /**
   * Otherwise the primary goes to `out` first; if that write fails nothing changes and the
   * outline is not attempted; else the outline goes to `outline_out` when both exist.
   */
  lemma WrittenToFiles(config: Config, outputs: OutputPayloads, s: Sinks, failures: map<Path, WriteFailure>)
    requires !config.stdout && config.out.Some?
    ensures var (after, outcome) := Written(config, outputs, s, failures);
      var out := config.out.value;
      var primaryWritten := Sinks(s.files[out := outputs.primary], s.printed);
      (WriteOutcome(failures, out).Failure? ==> after == s && outcome == WriteOutcome(failures, out))
      && (WriteOutcome(failures, out).Success? && (outputs.outline.None? || config.outlineOut.None?) ==>
            after == primaryWritten && outcome == Success(()))
      && (WriteOutcome(failures, out).Success? && outputs.outline.Some? && config.outlineOut.Some? ==>
            var second := config.outlineOut.value;
            outcome == WriteOutcome(failures, second)
            && after == if outcome.Success? then Sinks(primaryWritten.files[second := outputs.outline.value], s.printed)
                        else primaryWritten)
  {
    var plan := WritePlan(config, outputs).value;
    var out := config.out.value;
    var first := Emit(s, failures, plan[0]);
    assert EmitAll(s, failures, plan) == if first.1.Failure? then first else EmitAll(first.0, failures, plan[1..]);
    if |plan| == 1 {
      assert plan[1..] == [];
    } else {
      var rest := plan[1..];
      assert rest[1..] == [];
      assert EmitAll(first.0, failures, rest) == Emit(first.0, failures, rest[0]);
    }
  }

  /** The destinations of the write stage: the files on disk and standard output. */
  class Destinations {
    var files: map<Path, Value>
    var printed: seq<Value>
    /** Which destinations `write_atomic` cannot complete, and at which step. */
    const failures: map<Path, WriteFailure>

    constructor(files0: map<Path, Value>, failures0: map<Path, WriteFailure>)
      ensures files == files0 && printed == [] && failures == failures0
    {
      files := files0;
      printed := [];
      failures := failures0;
    }

    function State(): Sinks
      reads this
    {
      Sinks(files, printed)
    }

    /** `println!` */
    method PrintPayload(payload: Value)
      modifies this
      ensures State() == Emit(old(State()), failures, Print(payload)).0
    {
      printed := printed + [payload];
    }

    /** `write_atomic`: the file is replaced as a whole or left as it was. */
    method WriteAtomic(path: Path, payload: Value) returns (r: Result<(), AppError>)
      modifies this
      ensures (State(), r) == Emit(old(State()), failures, Write(path, payload))
    {
      r := WriteOutcome(failures, path);
      if r.Success? {
        files := files[path := payload];
      }
    }

    /** `write_outputs` */
    method WriteOutputs(config: Config, outputs: OutputPayloads) returns (r: Result<(), AppError>)
      modifies this
      ensures (State(), r) == Written(config, outputs, old(State()), failures)
    {
      if config.stdout {
        WrittenToStdout(config, outputs, State(), failures);
        PrintPayload(outputs.primary);
        return Success(());
      }
      if config.out.None? {
        WrittenWithoutOut(config, outputs, State(), failures);
        return Failure(Usage(OUT_REQUIRED));
      }
      var s0 := State();
      WrittenToFiles(config, outputs, s0, failures);
      r := WriteAtomic(config.out.value, outputs.primary);
      if r.Failure? {
        return r;
      }
      if outputs.outline.Some? && config.outlineOut.Some? {
        r := WriteAtomic(config.outlineOut.value, outputs.outline.value);
      }
    }

    /** `write_output`: the same stage for a lone primary payload. */
    method WriteOutput(config: Config, payload: Value) returns (r: Result<(), AppError>)
      modifies this
      ensures (State(), r) == Written(config, OutputPayloads(payload, None), old(State()), failures)
    {
      r := WriteOutputs(config, OutputPayloads(payload, None));
    }
  }
}
