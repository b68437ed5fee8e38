/**
 * The request side: `--header` parsing, the header map, and how transport outcomes map to
 * error kinds. The HTTP client and the JSON decoder are inputs of the model.
 */
module Fetch {
  import opened Wrappers
  import opened Folds
  import opened Assoc
  import opened Text
  import opened Errors
  import opened JsonValue
  import opened Configuration

  /** RFC 7230 section 3.2.6 `tchar`: the characters a header field name may use. */
  predicate IsTchar(c: char)
  {
    ('a' <= c <= 'z') || ('A' <= c <= 'Z') || ('0' <= c <= '9') || c in "!#$%&'*+-.^_`|~"
  }

  /** What `HeaderName::from_bytes` accepts. */
  predicate ValidHeaderName(name: string)
  {
    |name| > 0 && forall i :: 0 <= i < |name| ==> IsTchar(name[i])
  }

  /**
   * What `HeaderValue::from_str` accepts: every UTF-8 byte is a tab or at least a space
   * and not DEL. A character outside ASCII encodes to bytes of 0x80 and above only, so it
   * passes.
   */
  predicate ValidHeaderValue(value: string)
  {
    forall i :: 0 <= i < |value| ==> value[i] == '\t' || (' ' <= value[i] && value[i] != '\U{7F}')
  }

  /** A header as the map stores it: lowercased name, value. */
  type Header = (string, string)

  /** `parse_header`: `name: value`, split at the first colon, both sides trimmed. */
  function ParseHeader(raw: string): (r: Result<Header, AppError>)
    ensures r.Failure? ==> r.error.Usage?
    ensures ':' !in raw ==> r == Failure(Usage("invalid header format: " + raw))
    ensures Trim(SplitOnce(raw, ':').0) == [] ==> r == Failure(Usage("invalid header format: " + raw))
    ensures r.Success? <==>
      ':' in raw
      && ValidHeaderName(Trim(SplitOnce(raw, ':').0))
      && ValidHeaderValue(Trim(SplitOnce(raw, ':').1.value))
    ensures r.Success? ==>
      var (before, after) := SplitOnce(raw, ':');
      raw == before + [':'] + after.value && ':' !in before
      && r.value == (Lowercase(Trim(before)), Trim(after.value))
  {
    var (before, after) := SplitOnce(raw, ':');
    var name := Trim(before);
    if name == [] then Failure(Usage("invalid header format: " + raw))
    else if after.None? then Failure(Usage("invalid header format: " + raw))
    else
      var value := Trim(after.value);
      if !ValidHeaderName(name) then Failure(Usage("invalid header name: " + name))
      else if !ValidHeaderValue(value) then Failure(Usage("invalid header value for: " + name))
      else Success((Lowercase(name), value))
  }

  /**
   * The converse: text before the first colon that trims to a valid name, and a remainder
   * (which may hold further colons) that trims to a valid value, parse to that header.
   */
  lemma ParseHeaderOf(name: string, value: string)
    requires ':' !in name
    requires ValidHeaderName(Trim(name)) && ValidHeaderValue(Trim(value))
    ensures ParseHeader(name + [':'] + value) == Success((Lowercase(Trim(name)), Trim(value)))
  {
    var raw := name + [':'] + value;
    IndexOfAfter(name, ':', value);
    assert raw[..|name|] == name && raw[|name| + 1..] == value;
    assert raw[|name|] == ':';
  }

  predicate HeaderOk(raw: string)
  {
    ParseHeader(raw).Success?
  }

  /** One iteration of `build_headers`: parse, then insert, replacing an earlier same-named entry. */
  function HeaderStep(headers: seq<Header>, raw: string): (r: Result<seq<Header>, AppError>)
    ensures r.Failure? <==> !HeaderOk(raw)
    ensures r.Success? ==> r.value == Insert(headers, ParseHeader(raw).value.0, ParseHeader(raw).value.1)
  {
    match ParseHeader(raw)
    case Failure(e) => Failure(e)
    case Success((name, value)) => Success(Insert(headers, name, value))
  }

  /** The header map `build_headers` produces. */
  function HeadersFrom(raws: seq<string>): Result<seq<Header>, AppError>
  {
    Fold(raws, [], HeaderStep)
  }

  /** `build_headers` */
  method BuildHeaders(raws: seq<string>) returns (r: Result<seq<Header>, AppError>)
    ensures r == HeadersFrom(raws)
  {
    var headers: seq<Header> := [];
    for i := 0 to |raws|
      invariant Fold(raws[..i], [], HeaderStep) == Success(headers)
    {
      FoldStep(raws, i, [], HeaderStep);
      var parsed := ParseHeader(raws[i]);
      if parsed.Failure? {
        FoldFailureSticks(raws, i + 1, [], HeaderStep);
        return Failure(parsed.error);
      }
      var (name, value) := parsed.value;
      headers := Insert(headers, name, value);
    }
    FoldWhole(raws, [], HeaderStep);
    return Success(headers);
  }

  /** Building the map fails exactly when some entry fails to parse, and then with a usage error. */
  lemma HeadersFail(raws: seq<string>)
    ensures HeadersFrom(raws).Success? <==> forall i :: 0 <= i < |raws| ==> HeaderOk(raws[i])
    ensures HeadersFrom(raws).Failure? ==> HeadersFrom(raws).error.Usage?
  {
    FoldSucceedsIff(raws, [], HeaderStep, HeaderOk);
    if HeadersFrom(raws).Failure? {
      FoldFailureFrom(raws, [], HeaderStep);
    }
  }

  /** The parsed entries in command-line order. */
  function ParsedHeaders(raws: seq<string>): (pairs: seq<Header>)
    requires forall i :: 0 <= i < |raws| ==> HeaderOk(raws[i])
    ensures |pairs| == |raws|
  {
    forall i | 0 <= i < |raws| ensures ParseHeader(raws[i]).Success? {
      assert HeaderOk(raws[i]);
    }
    Values(raws, ParseHeader)
  }

  /** Entry `i` is what the `i`-th `--header` parses to. */
  lemma ParsedHeadersAt(raws: seq<string>, i: nat)
    requires forall j :: 0 <= j < |raws| ==> HeaderOk(raws[j])
    requires i < |raws|
    ensures ParsedHeaders(raws)[i] == ParseHeader(raws[i]).value
  {
    ValuesAt(raws, ParseHeader, i);
  }

  /** On success the map is the parsed entries collected in order. */
  lemma {:induction false} HeadersCollect(raws: seq<string>)
    requires forall i :: 0 <= i < |raws| ==> HeaderOk(raws[i])
    ensures HeadersFrom(raws) == Success(FromPairs(ParsedHeaders(raws)))
    decreases |raws|
  {
    if raws != [] {
      var n := |raws| - 1;
      var prefix := raws[..n];
      HeadersCollect(prefix);
      var pairs := ParsedHeaders(raws);
      var earlier := ParsedHeaders(prefix);
      FromPairsSnoc(earlier, pairs[n]);
      calc {
        HeadersFrom(raws);
        HeaderStep(FromPairs(earlier), raws[n]);
        Success(Insert(FromPairs(earlier), pairs[n].0, pairs[n].1));
        Success(FromPairs(pairs));
      }
    }
  }

  /** So for every name the last entry carrying it wins. */
  lemma HeadersLaterWins(raws: seq<string>, name: string)
    requires forall i :: 0 <= i < |raws| ==> HeaderOk(raws[i])
    ensures HeadersFrom(raws).Success?
    ensures Lookup(HeadersFrom(raws).value, name) == LastLookup(ParsedHeaders(raws), name)
  {
    HeadersCollect(raws);
    FromPairsLastWins(ParsedHeaders(raws), name);
  }

  /** What `serde_json::from_slice` makes of the body: a document or a syntax error. */
  datatype Decoded = Parsed(doc: Value) | Malformed(reason: string)

  /** The response bytes, represented by how they decode. */
  datatype Bytes = Bytes(decoded: Decoded)

  /** The GET request `fetch_openapi` sends. */
  datatype Request = Request(url: string, headers: seq<Header>, timeoutMs: int)

  datatype Body = BodyRead(bytes: Bytes) | BodyFailed(reason: string)

  /** What the server side does with a request: the send fails, or a status and a body come back. */
  datatype Response = SendFailed(reason: string) | Received(status: int, statusText: string, body: Body)

  /**
   * The HTTP client for one fetch: whether building it fails, and how the endpoint answers
   * each request.
   */
  datatype Transport = Transport(clientError: Option<string>, respond: Request -> Response)

  /** `StatusCode::is_success` */
  predicate IsSuccess(status: int)
  {
    200 <= status <= 299
  }

  /** `fetch_openapi`: one attempt, no retry. */
  function FetchOpenapi(config: Config, transport: Transport): (r: Result<Bytes, AppError>)
    ensures r.Failure? ==> r.error.Network? || r.error.Usage?
    ensures r.Failure? && r.error.Usage? <==> transport.clientError.None? && HeadersFrom(config.headers).Failure?
    ensures r.Success? <==>
      transport.clientError.None? && HeadersFrom(config.headers).Success?
      && var response := transport.respond(Request(config.url, HeadersFrom(config.headers).value, config.timeoutMs));
         response.Received? && IsSuccess(response.status) && response.body.BodyRead?
    ensures transport.clientError.None? && HeadersFrom(config.headers).Success? ==>
      var response := transport.respond(Request(config.url, HeadersFrom(config.headers).value, config.timeoutMs));
      (response.Received? && !IsSuccess(response.status) ==> r == Failure(Network("unexpected status: " + response.statusText)))
      && (r.Success? ==> r.value == response.body.bytes)
  {
    match transport.clientError
    case Some(e) => Failure(Network("client error: " + e))
    case None =>
      HeadersFail(config.headers);
      match HeadersFrom(config.headers)
      case Failure(e) => Failure(e)
      case Success(headers) =>
        match transport.respond(Request(config.url, headers, config.timeoutMs))
        case SendFailed(e) => Failure(Network("request failed: " + e))
        case Received(status, statusText, body) =>
          if !IsSuccess(status) then Failure(Network("unexpected status: " + statusText))
          else match body
            case BodyFailed(e) => Failure(Network("failed to read response: " + e))
            case BodyRead(bytes) => Success(bytes)
  }

  /** `parse_json`: malformed bytes are a JSON error, never a network one. */
  function ParseJson(bytes: Bytes): (r: Result<Value, AppError>)
    ensures r.Failure? <==> bytes.decoded.Malformed?
    ensures r.Failure? ==> r == Failure(Json("invalid JSON: " + bytes.decoded.reason))
    ensures r.Success? ==> r.value == bytes.decoded.doc
  {
    match bytes.decoded
    case Parsed(doc) => Success(doc)
    case Malformed(reason) => Failure(Json("invalid JSON: " + reason))
  }
}
