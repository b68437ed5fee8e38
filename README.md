# openapi-snapshot, modelled in Dafny

`openapi-snapshot` fetches an OpenAPI document from a running backend and writes a
snapshot of it to disk. It can do this once, or in watch mode on a timer.

The snapshot is one of two things:
- the full document, optionally reduced to some of its top-level keys (`paths`,
  `components`);
- an outline of it: per path and HTTP method, the query parameters, the request schema and
  the response schemas, plus every component schema collapsed to a reference, a
  combinator, an array or a type name.

This project models the core of the tool:
- the outline projection (`outline.dfy`, module `Outliner`);
- the reducer and the orchestration of building and writing payloads (`output.dfy`,
  module `Output`);
- the `--reduce` list parser and the configuration rules (`config.dfy`, module
  `Configuration`);
- the header parser and the mapping of fetch outcomes to error kinds (`fetch.dfy`, module
  `Fetch`);
- the watch loop with its backoff, its sliced sleep and its one-time URL prompt
  (`watch.dfy`, module `WatchLoop`; `prompt.dfy`, module `UrlPrompt`);
- the error kinds and their exit codes (`errors.dfy`, module `Errors`).

Support modules:
- `json.dfy` (`JsonValue`): serde_json's `Value`.
- `assoc.dfy` (`Assoc`): JSON objects and header maps as association lists, with `Keys`,
  `Lookup`, `Insert` and `FromPairs`.
- `folds.dfy` (`Folds`): the left fold, stopping at the first failure, that specifies
  every `for … { …? }` loop of the source.
- `text.dfy` (`Text`): `trim`, `split`, `splitn` and lowercasing.
- `machine.dfy` (`MachineInts`): `u32`/`u64` and the saturating operations the source uses.
- `wrappers.dfy` (`Wrappers`): `Option` and `Result`.

## How the model is built

- **Loops as methods.** Each loop of the source is a Dafny `method` with the same loop:
  `outline_paths`, `outline_schemas`, `simplify_schema_definition`, `reduce_openapi`,
  `build_outputs`, `parse_reduce_list`, `build_headers`, `prompt_for_url`,
  `wait_with_shutdown` and `run_watch`. Each method is proved equal to a specification
  function, and the source's promises are lemmas about those functions.
- **Object order.** Objects are association lists. Nothing is claimed about the order of
  keys in output: the key order of `serde_json::Map` depends on a crate feature. Contracts
  speak of key sets and lookups. A literal object (`json!({...})`) is built in the order
  the source writes it.
- **Write destinations.** The files and standard output are the fields of the class
  `Output.Destinations`, which the write methods update in place.
- **Inputs.** The environment is an input of the model:
  - the HTTP client is a `Fetch.Transport`: whether building a client fails, and how the
    endpoint answers each request;
  - the decoded body is a `Fetch.Decoded` value;
  - the terminal's answers are a sequence of `UrlPrompt.PromptEvent`s;
  - each watch cycle reads a `WatchLoop.CycleInput`: the shutdown flag before the cycle,
    the transport, the prompt events, and the flag loads during the sleep;
  - each destination that `write_atomic` cannot complete is listed, with the failing step,
    in a `failures` map.

## Model

| member | source | states |
|---|---|---|
| Errors.ExitCode | src/errors.rs:12-21 | Usage and Network exit with 1, Json with 2, Reduce and Outline with 3, Io with 4; each code is in 1..4 (never 0), and each code holds for exactly its kinds |
| Errors.Display | src/errors.rs:28-38 | Every kind displays its carried message unchanged |
| MachineInts.SaturatingAdd32 | src/watch.rs:49 | `u32::saturating_add`: the sum when it fits, else `u32::MAX` |
| MachineInts.SaturatingMul64 | src/watch.rs:93 | `u64::saturating_mul`: the product when it fits, else `u64::MAX` |
| Text.TrimStartSuffix | src/config.rs:104 | `trim_start` keeps a suffix of its input |
| Text.TrimStartSpec | src/config.rs:104 | `trim_start` drops exactly the leading white space, and what it keeps does not start with white space |
| Text.TrimEndPrefix | src/config.rs:104 | `trim_end` keeps a prefix of its input |
| Text.TrimEndSpec | src/config.rs:104 | `trim_end` drops exactly the trailing white space, and what it keeps does not end with white space |
| Text.TrimSlice | src/config.rs:104 | `trim` keeps a contiguous slice of its input |
| Text.TrimEnds | src/config.rs:104 | What `trim` keeps neither starts nor ends with white space |
| Text.TrimTrailing | src/config.rs:104 | Everything after the kept slice is white space |
| Text.TrimBlank | src/config.rs:105 | `trim` gives the empty string exactly for all-white-space input |
| Text.TrimUnchanged | src/watch.rs:137 | A string with no white space at either end is its own trim |
| Text.TrimIdempotent | src/watch.rs:137 | Trimming a trimmed string changes nothing |
| Text.Lowercase | src/config.rs:108 | Lowercasing keeps the length and maps each character through the ASCII case map |
| Text.Split | src/config.rs:103 | `split(',')` gives at least one piece, no piece holds the separator, and joining the pieces with the separator gives back the input |
| Text.SplitAt | src/config.rs:103 | Splitting `a + "," + b`, where `a` has no comma, gives `a` and then the pieces of `b` |
| Text.SplitOnce | src/fetch.rs:49 | `splitn(2, ':')`: the part before the first colon (which holds no colon) and, exactly when there is a colon, the rest; the two parts rebuild the input |
| Assoc.Lookup | src/output.rs:94-95 | `Map::get` finds nothing exactly when the key is absent, and otherwise finds the first entry under the key |
| Assoc.LookupDistinct | src/output.rs:94-95 | In a map without duplicate keys, every entry is what a lookup of its key finds |
| Assoc.Insert | src/output.rs:97 | `Map::insert`: the key set grows by the key, the key maps to the new value, every other key keeps its value, and no duplicate keys appear |
| Assoc.FromPairs | src/outline.rs:147 | Collecting pairs into a map keeps exactly their keys, without duplicates, and every entry comes from the pairs |
| Assoc.FromPairsLastWins | src/fetch.rs:43 | After collecting, each key maps to the value of the last pair that carries it |
| Assoc.FromDistinctPairs | src/outline.rs:147 | Collecting pairs whose keys are already distinct changes nothing |
| Assoc.MapValues | src/outline.rs:133-146 | Mapping values keeps the keys in order and maps each value |
| Folds.FoldStep | src/output.rs:92-98 | One more loop iteration is one more step applied to the prefix's result |
| Folds.FoldFailureSticks | src/output.rs:96 | A `?` failure in an iteration is the result of the whole loop |
| Folds.FoldFailureFrom | src/output.rs:96 | A failed loop failed at some element after a successful prefix, with that step's error |
| Folds.FoldSucceedsIff | src/fetch.rs:41-44 | When a step's failure depends only on the element, the loop succeeds exactly when every element passes |
| Folds.Values | src/fetch.rs:41-42 | The values of steps that all succeed: one per element |
| Folds.ValuesAt | src/fetch.rs:42 | Value `i` is the step's value at element `i` |
| JsonValue.Get | src/outline.rs:82 | `Value::get` finds something exactly on an object that has the key, and never on any other kind of value |
| Outliner.CombinatorOf | src/outline.rs:239-247 | The first of `oneOf`, `anyOf`, `allOf` (in that order) whose value is an array, or none exactly when none of the three is an array |
| Outliner.SchemaRefOrType | src/outline.rs:235-260 | The projection is always a projected shape, and it is null exactly when the schema has no string `$ref`, no array combinator and no string `type` |
| Outliner.ProjectionRules | src/outline.rs:235-260 | A string `$ref` gives that string; otherwise the first array combinator gives `{name: [each member projected]}`; otherwise `type: array` gives `{type: "array", items: <projected items or null>}` and any other type name gives the bare string |
| Outliner.ItemsOf | src/outline.rs:251-254 | The projected `items`, null when absent |
| Outliner.ProjectedOr | src/outline.rs:101-104 | A present schema projected, a missing one null |
| Outliner.QueryParam | src/outline.rs:81-111 | A parameter is accepted exactly when it has a string `$ref` (kept as `{"$ref": r}`) or is an object with `in: "query"` and a non-empty string `name`; the result then has exactly `name`, `required` (false by default) and `schema` (null when missing); a refusal is an Outline error |
| Outliner.KeptParams | src/outline.rs:67-79 | The filter keeps at most as many parameters as it is given |
| Outliner.KeptSingle | src/outline.rs:74 | One parameter is kept, projected, exactly when it is accepted, and dropped otherwise |
| Outliner.KeptAppend | src/outline.rs:74 | The filter distributes over concatenation, so the kept parameters are the accepted ones in input order |
| Outliner.FirstSchemaFrom | src/outline.rs:160-163 | The first content entry from a position on that has a `schema`; every entry skipped has none |
| Outliner.FirstSchema | src/outline.rs:160-164 | There is none exactly when no entry has a `schema`; otherwise it is the schema of the first entry that has one |
| Outliner.SelectContentSchema | src/outline.rs:153-165 | The `application/json` schema wins when present; otherwise the first entry with a schema; none exactly when no entry has one; the result is projected |
| Outliner.ContentOutline | src/outline.rs:118-125 | A string `$ref` on the body gives that string; otherwise the schema `select_content_schema` picks from a `content` object; null when there is no `content` object or no schema to pick; the result is always a projected shape |
| Outliner.MinimalOutlineSlots | src/outline.rs:298-308 | A response whose JSON schema is a bare `$ref` outlines to the reference string, and a property `{type: t}` outlines to `t` |
| Outliner.RequestOutline | src/outline.rs:113-126 | No `requestBody` gives null; a present one gives its content outline; the result is always projected |
| Outliner.RequestJsonSchema | src/outline.rs:118-125 | A body without `$ref` whose `application/json` entry has a schema fills the operation's `request` slot with that schema, collapsed |
| Outliner.ResponsesOutline | src/outline.rs:128-151 | The outlined responses have exactly the status codes of `responses` (none when it is absent or not an object), without duplicates, each with a projected slot |
| Outliner.ResponsesOfDistinct | src/outline.rs:133-147 | With distinct status codes, each code maps to its own response's slot, in order |
| Outliner.OperationOutline | src/outline.rs:46-53 | Each operation outline has exactly `query` (an array), `request` and `responses` (an object) |
| Outliner.OutlinePaths | src/outline.rs:29-58 | The nested loops compute the specification `OutlinedPaths` |
| Outliner.ItemMethodsOk | src/outline.rs:36-42 | A path item's method loop fails exactly on an HTTP-method entry that is not an object, with an Outline error |
| Outliner.MethodKeys | src/outline.rs:36-39 | The method map holds exactly the item's keys that are HTTP methods |
| Outliner.MethodEntry | src/outline.rs:43-53 | Each HTTP-method entry maps to the outline of its operation |
| Outliner.OutlinedPathsOk | src/outline.rs:31-42 | `outline_paths` fails exactly when some path item is not an object or has a non-object HTTP-method entry, always with an Outline error |
| Outliner.PathKeys | src/outline.rs:55 | The outlined paths have exactly the input's path keys |
| Outliner.PathEntry | src/outline.rs:55 | Each path maps to its item's method map |
| Outliner.FoldInsertKeys | src/outline.rs:30-56 | A loop that inserts or skips each entry ends with exactly the keys of the entries it keeps |
| Outliner.FoldInsertEntry | src/outline.rs:30-56 | Over distinct keys, a kept entry ends up stored under its key with its computed value |
| Outliner.StringItems | src/outline.rs:205-209 | No more items than the input |
| Outliner.StringItemsMembers | src/outline.rs:205-209 | Only string items are kept, and every string item is kept |
| Outliner.StringItemsSingle | src/outline.rs:208 | One item is kept exactly when it is a string |
| Outliner.StringItemsAppend | src/outline.rs:205-209 | The filter distributes over concatenation: the string items in their order, repetitions kept |
| Outliner.PropertiesOutline | src/outline.rs:193-201 | The outlined properties have exactly the input's property names, without duplicates |
| Outliner.PropertyEntry | src/outline.rs:196-199 | Each property maps to its schema collapsed by `schema_ref_or_type` |
| Outliner.ObjectDefinition | src/outline.rs:211-222 | The object definition is an object without duplicate keys |
| Outliner.ObjectDefinitionFields | src/outline.rs:192-222 | The definition has `type: "object"`, plus `required` (the string items) exactly when `required` is an array, plus the projected `properties` exactly when `properties` is an object, and nothing else |
| Outliner.SchemaDefinition | src/outline.rs:177-233 | A `$ref` gives `{"$ref": r}`; the first array combinator gives it with each member projected; object or no type gives the object definition; the result is always an object |
| Outliner.ObjectSchemaTyped | src/outline.rs:192-212 | An object or untyped component schema always comes out with `type: "object"` |
| Outliner.TypedSchemaKeepsType | src/outline.rs:190-231 | Any other typed component schema keeps its type name under `type` |
| Outliner.SimplifySchemaDefinition | src/outline.rs:177-233 | The early returns and the conditional inserts compute `SchemaDefinition` |
| Outliner.SchemasOutline | src/outline.rs:167-175 | The outlined schemas have exactly the names of `components.schemas` (none when it is absent), without duplicates |
| Outliner.SchemaEntry | src/outline.rs:170-171 | Each schema name maps to its simplified definition |
| Outliner.OutlineSchemas | src/outline.rs:167-175 | The loop computes `SchemasOutline` |
| Outliner.OutlineDocument | src/outline.rs:5-27 | `outline_openapi` succeeds exactly when the input is an object with an object `paths` and every path item is accepted; a non-object and a missing `paths` give their own Outline errors; every error is an Outline error; on success the result has exactly `paths` (the outlined paths) and `schemas` |
| Outliner.OutlineOpenapi | src/outline.rs:5-27 | The function as written computes `OutlineDocument` |
| Outliner.OutlineShape | src/outline.rs:31-55 | The outlined path map has the input's path keys, and each path's method map holds exactly that item's HTTP-method keys |
| Output.Reduced | src/output.rs:87-100 | A non-object is a Reduce error; every error is a Reduce error; a success is an object |
| Output.ReduceOpenapi | src/output.rs:87-100 | The loop computes `Reduced` |
| Output.FirstMissing | src/output.rs:92-96 | The first requested key the document lacks; every key before it is present |
| Output.ReducePrefix | src/output.rs:91-98 | While the requested keys are present, the loop has copied exactly those keys with the document's values |
| Output.ReduceMissing | src/output.rs:94-96 | The loop fails naming the first missing key |
| Output.ReduceResult | src/output.rs:87-100 | On an object, reducing succeeds exactly when every requested key is present; a success holds exactly the requested keys with the document's values; a failure names the first missing key and returns nothing partial |
| Output.ReduceAgrees | src/output.rs:91-98 | Two objects that agree on the requested keys reduce alike |
| Output.ReduceIdempotent | src/output.rs:87-100 | Reducing a reduced document with the same keys gives the same document |
| Output.Assemble | src/output.rs:27-50 | Full profile: the primary is the document when the reduce list is empty, else its reduction; an outline exists exactly when `outline_out` is set, taken from the unreduced document, and its failure fails the build. Outline profile: the primary is the outline and there is no second payload. Every error is Reduce or Outline; a failing reduction is the error even when the outline would fail too, and otherwise the outline's error is the build's |
| Output.BuiltOutputs | src/output.rs:24-51 | The build succeeds exactly when fetch, parse and assembly do; a failure is URL-related exactly when the fetch failed with a Network error or the body was not JSON |
| Output.BuildOutputs | src/output.rs:24-51 | The function as written, with `full_value` reassigned, computes `BuiltOutputs` |
| Output.BuildOutput | src/output.rs:20-22 | The primary payload of `build_outputs`, or its error |
| Output.WritePlan | src/output.rs:66-85 | With `stdout` only the primary is printed; without `stdout` and `out` the result is a Usage error; otherwise the primary goes to `out` first, then the outline to `outline_out` exactly when both exist; any configuration that passes validation has a plan |
| Output.WriteOutcome | src/output.rs:111-156 | `write_atomic` succeeds exactly when the path has a parent and no step fails; every failure is an Io error |
| Output.RootDotHasNoParent | src/output.rs:112-114 | `/.` has no parent, so writing there fails with the no-parent Io error |
| Output.RootedFileHasParent | src/output.rs:112-114 | `/name` with a named segment has a parent |
| Output.WrittenToStdout | src/output.rs:67-70 | With `stdout`, exactly the primary is printed and no file changes |
| Output.WrittenWithoutOut | src/output.rs:72-75 | Without `stdout` and `out`, nothing changes and the error is a Usage error |
| Output.WrittenToFiles | src/output.rs:76-84 | A failed primary write changes nothing and the outline is not attempted; otherwise the primary is written, then the outline when both exist, and a failed outline write keeps the primary |
| Output.Destinations.constructor | src/output.rs:111-156 | Destinations start with the given files and nothing printed |
| Output.Destinations.PrintPayload | src/output.rs:68 | Printing appends the payload to standard output |
| Output.Destinations.WriteAtomic | src/output.rs:111-156 | The file is replaced as a whole, or left as it was when a step fails |
| Output.Destinations.WriteOutputs | src/output.rs:66-85 | The destinations and the result are what the plan `Written` gives |
| Output.Destinations.WriteOutput | src/output.rs:53-64 | The same stage as `write_outputs`, for a lone primary payload |
| Configuration.KeyName | src/config.rs:13-18 | `as_str` gives "paths" or "components" |
| Configuration.KeyNamed | src/config.rs:113-120 | A name denotes a key exactly when it is "paths" or "components" |
| Configuration.KeyNameRoundTrip | src/config.rs:13-18 | Looking a key's name up gives the key back, and a name that denotes a key is that key's name |
| Configuration.KeyNameInjective | src/config.rs:13-18 | Distinct keys have distinct names |
| Configuration.PushUnique | src/config.rs:129-133 | The key is in the result; the result holds exactly the old items and the key; the old items stay first; a key already present changes nothing; no duplicates are introduced |
| Configuration.TokenStep | src/config.rs:104-121 | A token fails exactly when it is not blank and not a lowercase known key; blank tokens are skipped; known keys are pushed uniquely; errors are Reduce errors |
| Configuration.ParseReduce | src/config.rs:98-127 | The empty input is the empty-list error; every error is a Reduce error; a success is non-empty |
| Configuration.ParseReduceList | src/config.rs:98-127 | The loop computes `ParseReduce` |
| Configuration.FirstIndexIsFirst | src/config.rs:129-133 | The position found for a key is its first occurrence |
| Configuration.DedupSpec | src/config.rs:129-133 | The reference list has no duplicates, holds exactly the given keys, and lists them in first-occurrence order |
| Configuration.FoldTokens | src/config.rs:102-122 | While every token is accepted, the loop's list is the reference list of the keys named so far |
| Configuration.FoldTokensFails | src/config.rs:108-120 | One rejected token makes the loop fail |
| Configuration.ParseAccepted | src/config.rs:102-126 | With every token accepted, the parse succeeds exactly when some key is named, with the reference list |
| Configuration.NamedNonEmpty | src/config.rs:123-125 | Accepted tokens name some key exactly when one of them is not blank |
| Configuration.ParseReduceSucceeds | src/config.rs:98-127 | The parse succeeds exactly when every token is blank or a lowercase known key and at least one is not blank |
| Configuration.ParseRejected | src/config.rs:108-120 | A token that is neither blank nor a lowercase known key rejects the list |
| Configuration.ParseReduceBlank | src/config.rs:123-125 | An empty or all-blank list such as "," is the empty-list error |
| Configuration.ParseReduceResult | src/config.rs:102-133 | A successful list has no duplicates, holds exactly the named keys, in first-occurrence order |
| Configuration.ParseDefaultReduce | src/config.rs:140-144 | The default list parses to `[Paths, Components]` |
| Configuration.ParseRejectsMixedCase | src/config.rs:146-150 | "Paths" is refused with a Reduce error |
| Configuration.ValidateConfig | src/config.rs:84-96 | Validation passes exactly when `stdout` or `out` is set and the profile is Full or the reduce list is empty; a missing `out` is reported first; every error is a Usage error |
| Configuration.FromCli | src/config.rs:41-81 | `url_from_default` holds exactly when no URL was given and the URL defaults; `out` is set whenever `stdout` is not, with the default path when none was given; Watch mode comes exactly from the subcommand; without `--reduce` the list is `[Paths, Components]` in Watch mode with the Full profile and empty otherwise; an explicit list is parsed; the only error is a Reduce error from an explicit list; an explicit `--out`, the profile, `stdout`, `outline_out`, the headers, `minify` and the timeout are copied over; `out` is absent exactly with `stdout` and no `--out`; the Watch interval is the subcommand's |
| Fetch.ParseHeader | src/fetch.rs:48-64 | No colon, or a blank name before the first colon, is an "invalid header format" Usage error; success holds exactly when there is a colon, the trimmed name is valid and the trimmed remainder (colons kept) is a valid value; the header is the lowercased trimmed name and the trimmed value |
| Fetch.ParseHeaderOf | src/fetch.rs:48-64 | Conversely, colon-free text that trims to a valid name, a colon, and a remainder that trims to a valid value parse to that header |
| Fetch.HeaderStep | src/fetch.rs:42-43 | A step fails exactly when the entry does not parse, and otherwise inserts the parsed header |
| Fetch.BuildHeaders | src/fetch.rs:39-46 | The loop computes `HeadersFrom` |
| Fetch.HeadersFail | src/fetch.rs:39-46 | Building fails exactly when some entry does not parse, and then with a Usage error |
| Fetch.ParsedHeaders | src/fetch.rs:41-42 | One parsed header per entry |
| Fetch.ParsedHeadersAt | src/fetch.rs:42 | Entry `i` is what the `i`-th raw header parses to |
| Fetch.HeadersCollect | src/fetch.rs:39-46 | On success the map is the parsed headers collected in order |
| Fetch.HeadersLaterWins | src/fetch.rs:43 | For every name, the value of the last entry carrying it wins |
| Fetch.FetchOpenapi | src/fetch.rs:9-33 | Every error is Network, or Usage from the headers exactly when the client builds and the headers fail; success holds exactly when the client builds, the headers parse, and the single request gets a 2xx status and a readable body, which is the result; a non-2xx status gives "unexpected status" |
| Fetch.ParseJson | src/fetch.rs:35-37 | Malformed bytes, and only those, are a Json error; otherwise the decoded document |
| UrlPrompt.NormalizeAccepts | src/watch.rs:136-151 | Input is accepted exactly when its trim is non-empty and is all digits, an http(s) URL, or holds a colon |
| UrlPrompt.NormalizePortShape | src/watch.rs:141-143 | A port becomes `http://localhost:<port>/api-docs/openapi.json` |
| UrlPrompt.NormalizeUrlShape | src/watch.rs:144-146 | An http or https URL is kept as it is, trimmed |
| UrlPrompt.NormalizeHostShape | src/watch.rs:147-149 | Other text with a colon becomes `http://<text>/api-docs/openapi.json` |
| UrlPrompt.NormalizedIsHttp | src/watch.rs:136-151 | Whatever is accepted comes out as an http or https URL |
| UrlPrompt.NormalizeIdempotent | src/watch.rs:136-151 | Normalising an accepted result again gives the same result |
| UrlPrompt.NormalizeProse | src/watch.rs:176-178 | "not a url" is refused |
| UrlPrompt.AnswerFrom | src/watch.rs:116-133 | Every prompt failure is an Io error |
| UrlPrompt.PromptAnswer | src/watch.rs:111-113 | Without a terminal the answer is no URL |
| UrlPrompt.FirstDecisive | src/watch.rs:116-133 | The first round that is not a rejected line |
| UrlPrompt.FirstDecisiveIsFirst | src/watch.rs:116-133 | Every round before it is a rejected line, and it is not one |
| UrlPrompt.AnswerSkipsRejected | src/watch.rs:116-133 | The prompt's answer is the verdict of the first round that is not a rejected line: a flush or read failure, a blank line (no URL), or an accepted URL |
| UrlPrompt.PromptAnswerIsHttp | src/watch.rs:110-134 | A URL the prompt returns comes from a terminal and is an http or https URL |
| UrlPrompt.PromptForUrl | src/watch.rs:110-134 | The loop computes `PromptAnswer` |
| WatchLoop.NextBackoff | src/watch.rs:92-95 | The doubled backoff, capped at 10000 ms |
| WatchLoop.NextBackoffBounds | src/watch.rs:92-95 | The backoff never exceeds 10000, is monotone, and never shrinks a delay under the cap |
| WatchLoop.NextBackoffClamps | src/watch.rs:180-185 | 250 becomes 500; 5000 and 20000 become 10000 |
| WatchLoop.Slices | src/watch.rs:78-88 | Each slice of an uninterrupted wait lasts between 1 and 50 ms |
| WatchLoop.SlicesSum | src/watch.rs:80-88 | The slices add up to exactly the requested sleep |
| WatchLoop.WaitVerdict | src/watch.rs:80-89 | A wait that ended after some slices saw the flag exactly when its last load did |
| WatchLoop.WaitWithShutdown | src/watch.rs:76-90 | The slept steps are a prefix of the slices, all loads before them saw no shutdown, the result is the last load, an uninterrupted wait sleeps all slices, and the result holds exactly when some load sees the flag |
| WatchLoop.WithUrl | src/watch.rs:103-104 | The chosen URL replaces the default, and nothing else changes |
| WatchLoop.MaybePromptForUrl | src/watch.rs:97-108 | No prompt unless the URL is the default and the error is URL-related; a prompt failure is passed on and changes nothing; "no URL" changes nothing; an accepted URL gives `Ok(true)` and replaces the default; a new URL is always http(s) |
| WatchLoop.BaseInterval | src/watch.rs:20 | The base interval is the requested one raised to at least 250 ms |
| WatchLoop.DecideSuccess | src/watch.rs:31-37 | A successful build resets the error count and the backoff, and sleeps the base interval |
| WatchLoop.DecideFailure | src/watch.rs:49-60 | A failed build that the prompt does not cure adds one to the error count (saturating), moves the backoff to `next_backoff`, keeps the URL, sets `prompted` when the prompt was offered, and sleeps the backoff (at least 250 ms) |
| WatchLoop.DecidePrompt | src/watch.rs:39-46 | The loop ends exactly when an offered prompt fails; an accepted URL replaces the default and retries at once, without sleeping or counting the failure |
| WatchLoop.DecideKeeps | src/watch.rs:39-48 | `prompted` never goes back to false and is set once the prompt is offered; a URL that is not the default never changes; the default never comes back |
| WatchLoop.DecideSleepBounds | src/watch.rs:55-60 | Every sleep is at least 250 ms and at most the larger of the base interval and 10000 |
| WatchLoop.ActualStages | src/watch.rs:30-34 | The stages the loop runs are `build_outputs` and `write_outputs` as modelled |
| WatchLoop.Cycle | src/watch.rs:30-53 | The prompt is offered exactly when the build fails with a URL-related error before any prompt and for the default URL; a failed build writes nothing |
| WatchLoop.CycleKeeps | src/watch.rs:30-60 | One cycle keeps `prompted`, keeps a URL that is not the default, and sleeps within bounds |
| WatchLoop.RunPromptsOnce | src/watch.rs:25-65 | A run offers the prompt at most once, and never once it has been offered |
| WatchLoop.RunKeeps | src/watch.rs:25-65 | Once prompted a run stays prompted; once the URL is not the default it never changes again |
| WatchLoop.RunSleepBounds | src/watch.rs:25-65 | Each requested sleep of a run, including one cut short by shutdown, lies within the sleep bounds |
| WatchLoop.RunNoPrompt | src/watch.rs:39 | A run whose URL is not the default never offers the prompt |
| WatchLoop.WatchRunBounds | src/watch.rs:16-68 | A whole watch run offers at most one prompt, none with an explicit URL (which then never changes), and every sleep is between 250 ms and the larger of the base interval and 10000 |
| WatchLoop.RunCycle | src/watch.rs:30-53 | One cycle of the loop body as written is what `Cycle` specifies, including the destinations' new state |
| WatchLoop.RunWatch | src/watch.rs:16-68 | The loop as written ends, reports, sleeps, prompts and writes as `Run` specifies; it returns the error of a failed prompt and `Ok` otherwise |

## Left out

- The HTTP client (`reqwest` client building, the timeout, sending, reading the body) is
  not modelled. The model takes its outcome as an input, `Fetch.Transport`. There is one
  attempt per fetch and no retry, as in the code.
- JSON decoding (`serde_json::from_slice`) is an input: the `Bytes` of a response are
  represented by how they decode. Serialisation (`serialize_json`, pretty or minified) is
  not modelled: payloads are the JSON values that would be serialised, so its error path
  (a Json error) is absent. Numbers are opaque literals.
- The key order of `serde_json::Map` depends on a crate feature. No contract states the
  order of keys in output.
- `HeaderName::from_bytes` and `HeaderValue::from_str` belong to the http crate and are
  not part of this model. They are modelled by their acceptance rules, on characters
  rather than bytes: a name is a non-empty run of `tchar` (RFC 7230 section 3.2.6) and is
  stored lowercased; a value is made of tabs and characters from space up, DEL excepted.
- `Text.Lowercase`: `str::to_lowercase` is modelled by ASCII case folding only. A token
  with a non-ASCII capital (`É`) is rejected by the source but accepted as a candidate name
  here. It still cannot name a key, so it is still refused, with a different message.
- The following reference definitions carry no contract of their own. Each models the
  source lines given, and the lemmas and methods named with it state what it promises:
  - `Errors.IsUrlRelated` (src/errors.rs:23-25): `Errors.ExitCode`, `Output.BuiltOutputs`,
    `WatchLoop.Cycle`.
  - `Outliner.IsHttpMethod` (src/outline.rs:60-65): `Outliner.MethodKeys`,
    `Outliner.ItemMethodsOk`.
  - `Outliner.QueryParams` (src/outline.rs:67-79): `Outliner.OperationOutline`,
    `Outliner.KeptParams`, `Outliner.KeptSingle`, `Outliner.KeptAppend`.
  - `UrlPrompt.NormalizeUserUrl` (src/watch.rs:136-151): `UrlPrompt.NormalizeAccepts`,
    `UrlPrompt.NormalizePortShape`, `UrlPrompt.NormalizeUrlShape`,
    `UrlPrompt.NormalizeHostShape`, `UrlPrompt.NormalizedIsHttp`,
    `UrlPrompt.NormalizeIdempotent`.
  - `WatchLoop.Decide` and `WatchLoop.AfterFailure` (src/watch.rs:30-60):
    `WatchLoop.DecideSuccess`, `WatchLoop.DecideFailure`, `WatchLoop.DecidePrompt`,
    `WatchLoop.DecideKeeps`, `WatchLoop.DecideSleepBounds`.
  - `WatchLoop.Run` (src/watch.rs:25-65): `WatchLoop.RunWatch`, `WatchLoop.RunPromptsOnce`,
    `WatchLoop.RunKeeps`, `WatchLoop.RunSleepBounds`, `WatchLoop.RunNoPrompt`,
    `WatchLoop.WatchRunBounds`.
  - `Output.Written` and `Output.Emit` (src/output.rs:66-85): `Output.WrittenToStdout`,
    `Output.WrittenWithoutOut`, `Output.WrittenToFiles`, `Output.Destinations.WriteOutputs`,
    `Output.Destinations.WriteAtomic`.
  - `Output.HasParent` (src/output.rs:112-114): `Output.WriteOutcome`,
    `Output.RootDotHasNoParent`, `Output.RootedFileHasParent`.
  - `Fetch.HeadersFrom` (src/fetch.rs:39-46): `Fetch.BuildHeaders`, `Fetch.HeadersFail`,
    `Fetch.HeadersCollect`, `Fetch.HeadersLaterWins`.
  - `Configuration.Dedup` (src/config.rs:129-133): `Configuration.DedupSpec`,
    `Configuration.FoldTokens`, `Configuration.ParseReduceResult`.
- `Text.TrimStart`, `Text.TrimEnd`, `Text.Trim` carry no contract of their own: what
  `str::trim` does is stated by the Text lemmas listed above.
- `write_atomic`'s steps (create the directory, create the temp file with its timestamped
  name, write, sync, rename, remove the temp file on failure) are abstracted. They become
  the `failures` map of `Output.Destinations`, which says which step fails for a path.
  Temporary files are not modelled.
- `Path::parent` is modelled by `HasParent` for Unix paths: there is no parent for the empty
  path and for an absolute path whose `/`-separated segments are all empty or `.`.
- The standard error messages (`eprintln!`) and the prompt text are not modelled. Writes
  to standard output are kept as the sequence of printed payloads.
- The terminal (`is_terminal`, flush, `read_line`) is an input sequence of prompt events.
  End of input reads as an empty line.
- Concurrency is not modelled: the `ctrlc` handler, the `AtomicBool`, and `thread::sleep`.
  The shutdown flag is an input: one value per load, per cycle. Time passes only as the
  recorded sleeps.
- `WatchLoop.RunWatch`: the source loop runs until shutdown. The model runs over a finite
  trace of cycles, and a trace that runs out ends the run as `TraceExhausted`. The
  properties of the loop hold for every trace.
- `WatchLoop.Run` and the lemmas about it hold for any build and write stages
  (`WatchLoop.Stages`). `RunWatch` runs the modelled stages.
- `main.rs` (exit-code plumbing, the choice between snapshot and watch), `cli.rs` (clap
  declarations; only its default constants are copied) and `lib.rs` are not part of this
  model.

## Where the code and its description differ

The model follows the code.
- `fetch_openapi` makes a single attempt. There is no retry, backoff or default header
  inside it.
- Parameters that are not query parameters, or are malformed, are dropped from `query`
  (the `filter_map(... .ok())` of `outline_query_params`), not reported as errors.
- A missing `items` of an array schema projects to `null`.
- A `required` that is not an array, or `properties` that is not an object, is dropped
  silently.
- The watch loop offers the URL prompt on the first URL-related failure while the URL is
  still the default, at most once per run. It does not offer it on the first failure of
  any kind.
- `Config` in `src/config.rs` declares no `outline_out` although `src/output.rs` reads it.
  The modelled `Config` carries it as `outlineOut`, taken from `--outline-out`.
- `src/main.rs` passes `&config` where `run_watch` takes `&mut Config`. The model returns
  the configuration as the loop left it.
