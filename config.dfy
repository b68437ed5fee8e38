/** Command-line defaulting, the `--reduce` list parser and the two usage rules. */
module Configuration {
  import opened Wrappers
  import opened Folds
  import opened Text
  import opened Errors
  import opened MachineInts

  type Path = string

  const DEFAULT_URL: string := "http://localhost:3000/api-docs/openapi.json"
  const DEFAULT_OUT: Path := "openapi/backend_openapi.json"
  const DEFAULT_REDUCE: string := "paths,components"
  const EMPTY_REDUCE: string := "reduce list cannot be empty"
  const OUT_REQUIRED: string := "--out is required unless --stdout is set."
  const REDUCE_WITH_OUTLINE: string := "--reduce is not supported with --profile outline."

  /** A top-level OpenAPI key the full snapshot can be reduced to. */
  datatype ReduceKey = Paths | Components

  /** `ReduceKey::as_str` */
  function KeyName(k: ReduceKey): (name: string)
    ensures name == "paths" || name == "components"
  {
    match k
    case Paths => "paths"
    case Components => "components"
  }

  /** The key spelled `name`, if any: the `match trimmed` of `parse_reduce_list`. */
  function KeyNamed(name: string): (r: Option<ReduceKey>)
    ensures r.Some? <==> name == "paths" || name == "components"
  {
    if name == "paths" then Some(Paths)
    else if name == "components" then Some(Components)
    else None
  }

  /** `KeyNamed` inverts `KeyName`, so `KeyName` is injective. */
  lemma KeyNameRoundTrip(k: ReduceKey, name: string)
    ensures KeyNamed(KeyName(k)) == Some(k)
    ensures KeyNamed(name).Some? ==> KeyName(KeyNamed(name).value) == name
  {
  }

  lemma KeyNameInjective(a: ReduceKey, b: ReduceKey)
    requires KeyName(a) == KeyName(b)
    ensures a == b
  {
    KeyNameRoundTrip(a, KeyName(a));
    KeyNameRoundTrip(b, KeyName(b));
  }

  datatype OutputProfile = Full | Outline

  datatype Mode = Snapshot | Watch(intervalMs: u64)

  /**
   * The resolved settings. `outlineOut` is read by the output stage although the source's
   * `Config` struct does not declare it; it is carried over from `--outline-out`.
   */
  datatype Config = Config(
    url: string,
    urlFromDefault: bool,
    out: Option<Path>,
    outlineOut: Option<Path>,
    reduce: seq<ReduceKey>,
    profile: OutputProfile,
    minify: bool,
    timeoutMs: u64,
    headers: seq<string>,
    stdout: bool)

  datatype CommonArgs = CommonArgs(
    url: Option<string>,
    out: Option<Path>,
    outlineOut: Option<Path>,
    reduce: Option<string>,
    profile: OutputProfile,
    minify: bool,
    timeoutMs: u64,
    header: seq<string>,
    stdout: bool)

  datatype WatchArgs = WatchArgs(intervalMs: u64, noOutline: bool)

  /** The parsed command line: `watch` is the only subcommand. */
  datatype Cli = Cli(command: Option<WatchArgs>, common: CommonArgs)

  predicate NoDuplicates<T(==)>(xs: seq<T>)
  {
    forall i, j :: 0 <= i < j < |xs| ==> xs[i] != xs[j]
  }

  /** `push_unique`: appends `key` unless it is already there. */
  function PushUnique(items: seq<ReduceKey>, key: ReduceKey): (r: seq<ReduceKey>)
    ensures key in r
    ensures forall k :: k in r <==> k in items || k == key
    ensures |r| >= |items| && r[..|items|] == items
    ensures key in items ==> r == items
    ensures NoDuplicates(items) ==> NoDuplicates(r)
  {
    if key in items then items else items + [key]
  }

  /** The token `raw` as `parse_reduce_list` sees it: trimmed. */
  function Token(raw: string): string
  {
    Trim(raw)
  }

  /** Whether the loop body accepts `raw` (blank, or a lowercase known key). */
  predicate TokenOk(raw: string)
  {
    var t := Token(raw);
    t == [] || (Lowercase(t) == t && KeyNamed(t).Some?)
  }

  /** One iteration of the loop in `parse_reduce_list`. */
  function TokenStep(acc: seq<ReduceKey>, raw: string): (r: Result<seq<ReduceKey>, AppError>)
    ensures r.Failure? <==> !TokenOk(raw)
    ensures r.Failure? ==> r.error.Reduce?
    ensures r.Success? && Token(raw) == [] ==> r.value == acc
    ensures r.Success? && Token(raw) != [] ==> r.value == PushUnique(acc, KeyNamed(Token(raw)).value)
  {
    var t := Token(raw);
    if t == [] then Success(acc)
    else if Lowercase(t) != t then Failure(Reduce("reduce values must be lowercase: " + t))
    else match KeyNamed(t)
      case None => Failure(Reduce("unsupported reduce value: " + t))
      case Some(k) => Success(PushUnique(acc, k))
  }

  /** `parse_reduce_list`, as a function of its input. */
  function ParseReduce(value: string): (r: Result<seq<ReduceKey>, AppError>)
    ensures r.Failure? ==> r.error.Reduce?
    ensures r.Success? ==> r.value != []
    ensures value == [] ==> r == Failure(Reduce(EMPTY_REDUCE))
  {
    if value == [] then Failure(Reduce(EMPTY_REDUCE))
    else
      var tokens := Split(value, ',');
      assert Fold(tokens, [], TokenStep).Failure? ==> Fold(tokens, [], TokenStep).error.Reduce? by {
        if Fold(tokens, [], TokenStep).Failure? {
          FoldFailureFrom(tokens, [], TokenStep);
        }
      }
      match Fold(tokens, [], TokenStep)
      case Failure(e) => Failure(e)
      case Success(out) => if out == [] then Failure(Reduce(EMPTY_REDUCE)) else Success(out)
  }

  /** `parse_reduce_list`: the loop over the comma-separated tokens. */
  method ParseReduceList(value: string) returns (r: Result<seq<ReduceKey>, AppError>)
    ensures r == ParseReduce(value)
  {
    if value == [] {
      return Failure(Reduce(EMPTY_REDUCE));
    }
    var tokens := Split(value, ',');
    var out: seq<ReduceKey> := [];
    var i := 0;
    while i < |tokens|
      invariant 0 <= i <= |tokens|
      invariant Fold(tokens[..i], [], TokenStep) == Success(out)
    {
      FoldStep(tokens, i, [], TokenStep);
      var trimmed := Trim(tokens[i]);
      if trimmed == [] {
        i := i + 1;
        continue;
      }
      if Lowercase(trimmed) != trimmed {
        FoldFailureSticks(tokens, i + 1, [], TokenStep);
        return Failure(Reduce("reduce values must be lowercase: " + trimmed));
      }
      match KeyNamed(trimmed)
      case None =>
        FoldFailureSticks(tokens, i + 1, [], TokenStep);
        return Failure(Reduce("unsupported reduce value: " + trimmed));
      case Some(k) =>
        out := PushUnique(out, k);
      i := i + 1;
    }
    FoldWhole(tokens, [], TokenStep);
    if out == [] {
      return Failure(Reduce(EMPTY_REDUCE));
    }
    return Success(out);
  }

  /** The key a token names once trimmed, if any. */
  function NamedKey(raw: string): Option<ReduceKey>
  {
    KeyNamed(Token(raw))
  }

  /** The keys the tokens name, in token order, duplicates kept. */
  function Named(tokens: seq<string>): seq<ReduceKey>
  {
    if tokens == [] then []
    else
      var k := NamedKey(tokens[|tokens| - 1]);
      Named(tokens[..|tokens| - 1]) + (if k.Some? then [k.value] else [])
  }

  /** `keys` with every repetition of an earlier key dropped, built as the loop builds it. */
  function Dedup(keys: seq<ReduceKey>): seq<ReduceKey>
  {
    if keys == [] then [] else PushUnique(Dedup(keys[..|keys| - 1]), keys[|keys| - 1])
  }

  /** The position of the first occurrence of `k` in `xs`, or `|xs|`. */
  function FirstIndex(xs: seq<ReduceKey>, k: ReduceKey): (i: nat)
    ensures i <= |xs|
    ensures i < |xs| <==> k in xs
    ensures i < |xs| ==> xs[i] == k
  {
    if xs == [] then 0
    else if xs[0] == k then 0
    else 1 + FirstIndex(xs[1..], k)
  }

  /** No earlier position holds the key: the occurrence `FirstIndex` finds is the first. */
  lemma {:induction false} FirstIndexIsFirst(xs: seq<ReduceKey>, k: ReduceKey)
    ensures forall j :: 0 <= j < FirstIndex(xs, k) ==> xs[j] != k
    decreases |xs|
  {
    if xs != [] && xs[0] != k {
      FirstIndexIsFirst(xs[1..], k);
      assert forall j :: 1 <= j < |xs| ==> xs[j] == xs[1..][j - 1];
    }
  }

  /** Extending a list does not move the first occurrence of a key already present. */
  lemma {:induction false} FirstIndexPrefix(xs: seq<ReduceKey>, ys: seq<ReduceKey>)
    requires |xs| <= |ys| && ys[..|xs|] == xs
    ensures forall k :: k in xs ==> FirstIndex(ys, k) == FirstIndex(xs, k)
    decreases |xs|
  {
    if xs != [] {
      assert ys != [] && ys[0] == xs[0];
      assert ys[1..][..|xs[1..]|] == xs[1..];
      FirstIndexPrefix(xs[1..], ys[1..]);
      forall k | k in xs ensures FirstIndex(ys, k) == FirstIndex(xs, k) {
        if k != xs[0] {
          assert k in xs[1..];
        }
      }
    }
  }

  /** A key missing from `xs` first occurs in `xs + [k]` at the end. */
  lemma FirstIndexAppended(xs: seq<ReduceKey>, k: ReduceKey)
    requires k !in xs
    ensures FirstIndex(xs + [k], k) == |xs|
  {
    assert forall j :: 0 <= j < |xs| ==> (xs + [k])[j] == xs[j];
  }

  /**
   * The reference for the parser's accumulated list: no duplicates, exactly the keys of
   * `keys`, in the order of their first occurrence.
   */
  lemma {:induction false} DedupSpec(keys: seq<ReduceKey>)
    ensures var d := Dedup(keys);
      NoDuplicates(d)
      && (forall k :: k in d <==> k in keys)
      && (forall i, j :: 0 <= i < j < |d| ==> FirstIndex(keys, d[i]) < FirstIndex(keys, d[j]))
    decreases |keys|
  {
    if keys != [] {
      var n := |keys| - 1;
      var p := keys[..n];
      var k := keys[n];
      assert keys == p + [k];
      DedupSpec(p);
      FirstIndexPrefix(p, keys);
      var prev := Dedup(p);
      if k !in prev {
        FirstIndexAppended(p, k);
        forall i | 0 <= i < |prev| ensures FirstIndex(keys, prev[i]) < n {
          assert prev[i] in p;
        }
      }
    }
  }

  /** While every token is accepted, the loop's list is `Dedup` of the keys named so far. */
  lemma {:induction false} FoldTokens(tokens: seq<string>)
    requires forall i :: 0 <= i < |tokens| ==> TokenOk(tokens[i])
    ensures Fold(tokens, [], TokenStep) == Success(Dedup(Named(tokens)))
    decreases |tokens|
  {
    if tokens != [] {
      var n := |tokens| - 1;
      var prefix := tokens[..n];
      assert forall i :: 0 <= i < n ==> prefix[i] == tokens[i];
      FoldTokens(prefix);
      var np := Named(prefix);
      var acc := Dedup(np);
      assert Fold(tokens, [], TokenStep) == TokenStep(acc, tokens[n]);
      var k := NamedKey(tokens[n]);
      if k.Some? {
        assert Named(tokens) == np + [k.value];
        assert (np + [k.value])[..|np|] == np;
        assert Dedup(Named(tokens)) == PushUnique(acc, k.value);
        assert TokenStep(acc, tokens[n]) == Success(PushUnique(acc, k.value));
      } else {
        assert Named(tokens) == np;
        assert TokenStep(acc, tokens[n]) == Success(acc);
      }
    }
  }

  /** A rejected token makes the whole parse fail. */
  lemma FoldTokensFails(tokens: seq<string>, i: nat)
    requires i < |tokens| && !TokenOk(tokens[i])
    ensures Fold(tokens, [], TokenStep).Failure?
  {
    FoldStep(tokens, i, [], TokenStep);
    FoldFailureSticks(tokens, i + 1, [], TokenStep);
  }

  /** A non-blank accepted token contributes its key to `Named`. */
  lemma {:induction false} NamedHas(tokens: seq<string>, i: nat)
    requires i < |tokens| && NamedKey(tokens[i]).Some?
    ensures NamedKey(tokens[i]).value in Named(tokens)
    decreases |tokens|
  {
    var n := |tokens| - 1;
    if i < n {
      assert tokens[..n][i] == tokens[i];
      NamedHas(tokens[..n], i);
    }
  }

  /** All-blank tokens name nothing. */
  lemma {:induction false} NamedBlank(tokens: seq<string>)
    requires forall i :: 0 <= i < |tokens| ==> NamedKey(tokens[i]).None?
    ensures Named(tokens) == []
    decreases |tokens|
  {
    if tokens != [] {
      var n := |tokens| - 1;
      assert forall i :: 0 <= i < n ==> tokens[..n][i] == tokens[i];
      NamedBlank(tokens[..n]);
    }
  }

  /** When every token is accepted, the parse yields `Dedup` of the named keys unless that is empty. */
  lemma ParseAccepted(value: string)
    requires value != []
    requires forall i :: 0 <= i < |Split(value, ',')| ==> TokenOk(Split(value, ',')[i])
    ensures ParseReduce(value).Success? <==> Dedup(Named(Split(value, ','))) != []
    ensures ParseReduce(value).Success? ==> ParseReduce(value).value == Dedup(Named(Split(value, ',')))
  {
    FoldTokens(Split(value, ','));
  }

  /** Accepted tokens name some key exactly when one of them is not blank. */
  lemma NamedNonEmpty(tokens: seq<string>)
    requires forall i :: 0 <= i < |tokens| ==> TokenOk(tokens[i])
    ensures Dedup(Named(tokens)) != [] <==> exists i :: 0 <= i < |tokens| && Token(tokens[i]) != []
  {
    if exists i :: 0 <= i < |tokens| && Token(tokens[i]) != [] {
      var i :| 0 <= i < |tokens| && Token(tokens[i]) != [];
      NamedHas(tokens, i);
      DedupSpec(Named(tokens));
    } else {
      NamedBlank(tokens);
    }
  }

  /**
   * `parse_reduce_list` succeeds exactly when every token is blank or a lowercase known key
   * and at least one token is not blank.
   */
  lemma ParseReduceSucceeds(value: string)
    ensures var tokens := Split(value, ',');
      ParseReduce(value).Success? <==>
        (forall i :: 0 <= i < |tokens| ==> TokenOk(tokens[i]))
        && (exists i :: 0 <= i < |tokens| && Token(tokens[i]) != [])
  {
    var tokens := Split(value, ',');
    if value == [] {
      EmptyValueBlank(value);
    } else if forall i :: 0 <= i < |tokens| ==> TokenOk(tokens[i]) {
      ParseAccepted(value);
      NamedNonEmpty(tokens);
    } else {
      var i :| 0 <= i < |tokens| && !TokenOk(tokens[i]);
      ParseRejected(value, i);
    }
  }

  /** The empty list has a single, blank, token. */
  lemma EmptyValueBlank(value: string)
    requires value == []
    ensures forall i :: 0 <= i < |Split(value, ',')| ==> Token(Split(value, ',')[i]) == []
  {
    assert Split(value, ',') == [""];
  }

  /** One rejected token rejects the list. */
  lemma ParseRejected(value: string, i: nat)
    requires value != [] && i < |Split(value, ',')| && !TokenOk(Split(value, ',')[i])
    ensures ParseReduce(value).Failure?
  {
    FoldTokensFails(Split(value, ','), i);
  }

  /** An empty or all-blank list such as `","` is rejected with the empty-list error. */
  lemma ParseReduceBlank(value: string)
    requires forall i :: 0 <= i < |Split(value, ',')| ==> Token(Split(value, ',')[i]) == []
    ensures ParseReduce(value) == Failure(Reduce(EMPTY_REDUCE))
  {
    var tokens := Split(value, ',');
    if value != [] {
      FoldTokens(tokens);
      NamedBlank(tokens);
    }
  }

  /**
   * On success the list has no duplicates, holds exactly the keys the tokens name, and lists
   * them in the order they are first named.
   */
  lemma ParseReduceResult(value: string)
    requires ParseReduce(value).Success?
    ensures var keys := ParseReduce(value).value;
      var named := Named(Split(value, ','));
      NoDuplicates(keys)
      && (forall k :: k in keys <==> k in named)
      && (forall i, j :: 0 <= i < j < |keys| ==> FirstIndex(named, keys[i]) < FirstIndex(named, keys[j]))
  {
    ParseReduceSucceeds(value);
    FoldTokens(Split(value, ','));
    DedupSpec(Named(Split(value, ',')));
  }

  lemma SplitDefault()
    ensures Split(DEFAULT_REDUCE, ',') == ["paths", "components"]
  {
    var paths, components := "paths", "components";
    assert forall i :: 0 <= i < |paths| ==> paths[i] != ',';
    assert forall i :: 0 <= i < |components| ==> components[i] != ',';
    assert Split(components, ',') == [components];
    assert DEFAULT_REDUCE == paths + [','] + components;
    SplitAt(paths, ',', components);
  }

  /** A known key's own name is an accepted token naming it. */
  lemma KeyToken(k: ReduceKey)
    ensures TokenOk(KeyName(k)) && NamedKey(KeyName(k)) == Some(k)
  {
    var name := KeyName(k);
    assert |name| > 0 && name[|name| - 1] == 's';
    assert name[0] == 'p' || name[0] == 'c';
    TrimUnchanged(name);
    assert forall i :: 0 <= i < |name| ==> 'a' <= name[i] <= 'z';
    LowercaseSmall(name);
  }

  /** A word of small letters is its own lowercase. */
  lemma LowercaseSmall(s: string)
    requires forall i :: 0 <= i < |s| ==> 'a' <= s[i] <= 'z'
    ensures Lowercase(s) == s
  {
  }

  lemma NamedDefault()
    ensures Named(["paths", "components"]) == [Paths, Components]
  {
    KeyToken(Paths);
    KeyToken(Components);
    assert ["paths", "components"][..1] == ["paths"];
    assert ["paths"][..0] == [];
  }

  lemma DedupDefault()
    ensures Dedup([Paths, Components]) == [Paths, Components]
  {
    assert [Paths, Components][..1] == [Paths];
    assert [Paths][..0] == [];
  }

  lemma DefaultTokensOk(tokens: seq<string>)
    requires tokens == [KeyName(Paths), KeyName(Components)]
    ensures forall i :: 0 <= i < |tokens| ==> TokenOk(tokens[i])
  {
    forall i | 0 <= i < |tokens|
      ensures TokenOk(tokens[i])
    {
      KeyToken(if i == 0 then Paths else Components);
    }
  }

  /** Any list that splits into the two key names parses to both keys, in that order. */
  lemma ParseBothKeys(value: string)
    requires Split(value, ',') == ["paths", "components"]
    ensures ParseReduce(value) == Success([Paths, Components])
  {
    DefaultTokensOk(Split(value, ','));
    NamedDefault();
    DedupDefault();
    ParseAccepted(value);
  }

  /** The default list parses to `[Paths, Components]`. */
  lemma ParseDefaultReduce()
    ensures ParseReduce(DEFAULT_REDUCE) == Success([Paths, Components])
  {
    SplitDefault();
    ParseBothKeys(DEFAULT_REDUCE);
  }

  /** A key spelled with a capital is refused, as the source's own test checks. */
  lemma ParseRejectsMixedCase(value: string)
    requires value == "Paths"
    ensures ParseReduce(value).Failure? && ParseReduce(value).error.Reduce?
  {
    assert forall i :: 0 <= i < |value| ==> value[i] != ',';
    assert Split(value, ',') == [value];
    TrimUnchanged(value);
    assert Lowercase(value)[0] == 'p';
    ParseRejected(value, 0);
  }

  /** `validate_config` */
  function ValidateConfig(config: Config): (r: Result<(), AppError>)
    ensures r.Success? <==> (config.stdout || config.out.Some?) && (config.profile.Full? || config.reduce == [])
    ensures r.Failure? ==> r.error.Usage?
    ensures !config.stdout && config.out.None? ==> r == Failure(Usage(OUT_REQUIRED))
  {
    if !config.stdout && config.out.None? then Failure(Usage(OUT_REQUIRED))
    else if config.profile.Outline? && config.reduce != [] then Failure(Usage(REDUCE_WITH_OUTLINE))
    else Success(())
  }

  /** The reduce list `from_cli` parses: the explicit one, else the default in a full-profile watch. */
  function ReduceValue(cli: Cli): Option<string>
  {
    if cli.common.reduce.Some? then cli.common.reduce
    else if cli.command.Some? && cli.common.profile == Full then Some(DEFAULT_REDUCE)
    else None
  }

  /** `Config::from_cli` */
  function FromCli(cli: Cli): (r: Result<(Config, Mode), AppError>)
    ensures r.Failure? ==> r.error.Reduce? && cli.common.reduce.Some?
    ensures r.Success? ==> var (config, mode) := r.value;
      (config.urlFromDefault <==> cli.common.url.None?)
      && config.url == cli.common.url.GetOr(DEFAULT_URL)
      && (!config.stdout ==> config.out.Some?)
      && (config.out.Some? && cli.common.out.None? ==> config.out == Some(DEFAULT_OUT))
      && (mode.Watch? <==> cli.command.Some?)
      && (cli.common.reduce.None? ==> config.reduce == (if mode.Watch? && config.profile == Full then [Paths, Components] else []))
      && (cli.common.reduce.Some? ==> ParseReduce(cli.common.reduce.value) == Success(config.reduce))
      && config.profile == cli.common.profile && config.stdout == cli.common.stdout
      && config.outlineOut == cli.common.outlineOut && config.headers == cli.common.header
      && config.minify == cli.common.minify && config.timeoutMs == cli.common.timeoutMs
      && (cli.common.out.Some? ==> config.out == cli.common.out)
      && (config.out.None? <==> cli.common.stdout && cli.common.out.None?)
      && (cli.command.Some? ==> mode == Watch(cli.command.value.intervalMs))
      && (cli.command.None? ==> mode == Snapshot)
  {
    var mode := if cli.command.Some? then Watch(cli.command.value.intervalMs) else Snapshot;
    var reduce := match ReduceValue(cli)
      case Some(value) => ParseReduce(value)
      case None => Success([]);
    ParseDefaultReduce();
    if reduce.Failure? then Failure(reduce.error)
    else
      var c := cli.common;
      Success((Config(
        url := c.url.GetOr(DEFAULT_URL),
        urlFromDefault := c.url.None?,
        out := if c.stdout then c.out else Some(c.out.GetOr(DEFAULT_OUT)),
        outlineOut := c.outlineOut,
        reduce := reduce.value,
        profile := c.profile,
        minify := c.minify,
        timeoutMs := c.timeoutMs,
        headers := c.header,
        stdout := c.stdout), mode))
  }
}
