/**
 * The interactive half of watch mode: turning what the user types at the URL prompt into
 * an OpenAPI URL, and the prompt loop that asks until it gets one.
 */
module UrlPrompt {
  import opened Wrappers
  import opened Text
  import opened Errors

  const API_DOCS: string := "/api-docs/openapi.json"

  // ---------------------------------------------------------------------------------------
  // normalize_user_url

  predicate IsHttpUrl(s: string)
  {
    StartsWith(s, "http://") || StartsWith(s, "https://")
  }

  /** What `normalize_user_url` accepts once trimmed: digits, an http(s) URL, or text with a colon. */
  predicate Acceptable(t: string)
  {
    t != [] && (AllAsciiDigits(t) || IsHttpUrl(t) || ':' in t)
  }

  /** `normalize_user_url`: a port, a URL, or a `host:port`; anything else is refused. */
  function NormalizeUserUrl(input: string): Option<string>
  {
    var trimmed := Trim(input);
    if trimmed == [] then None
    else if AllAsciiDigits(trimmed) then Some("http://localhost:" + trimmed + API_DOCS)
    else if IsHttpUrl(trimmed) then Some(trimmed)
    else if ':' in trimmed then Some("http://" + trimmed + API_DOCS)
    else None
  }

  /** Input is refused exactly when it is blank or has none of the three accepted shapes. */
  lemma NormalizeAccepts(input: string)
    ensures NormalizeUserUrl(input).Some? <==> Acceptable(Trim(input))
  {
    var t := Trim(input);
    if t == [] {
    } else if AllAsciiDigits(t) {
    } else if IsHttpUrl(t) {
    } else {
    }
  }

  /** A port number becomes the default API document on localhost. */
  lemma NormalizePortShape(input: string)
    requires Trim(input) != [] && AllAsciiDigits(Trim(input))
    ensures NormalizeUserUrl(input) == Some("http://localhost:" + Trim(input) + API_DOCS)
  {
  }

  /** A URL with an http or https scheme is kept as it is, trimmed (digits are tried first). */
  lemma NormalizeUrlShape(input: string)
    requires !AllAsciiDigits(Trim(input)) && IsHttpUrl(Trim(input))
    ensures NormalizeUserUrl(input) == Some(Trim(input))
  {
  }

  /** Otherwise text with a colon is taken as `host:port`. */
  lemma NormalizeHostShape(input: string)
    requires !AllAsciiDigits(Trim(input)) && !IsHttpUrl(Trim(input)) && ':' in Trim(input)
    ensures NormalizeUserUrl(input) == Some("http://" + Trim(input) + API_DOCS)
  {
  }

  lemma HttpPrefix(rest: string)
    ensures IsHttpUrl("http://" + rest)
  {
    assert ("http://" + rest)[..7] == "http://";
  }

  /** Whatever is accepted comes out as an http or https URL. */
  lemma NormalizedIsHttp(input: string)
    requires NormalizeUserUrl(input).Some?
    ensures IsHttpUrl(NormalizeUserUrl(input).value)
  {
    var t := Trim(input);
    if AllAsciiDigits(t) {
      HttpPrefix("localhost:" + t + API_DOCS);
      assert "http://localhost:" + t + API_DOCS == "http://" + ("localhost:" + t + API_DOCS);
    } else if !IsHttpUrl(t) {
      HttpPrefix(t + API_DOCS);
      assert "http://" + t + API_DOCS == "http://" + (t + API_DOCS);
    }
  }

  /** A trimmed http(s) URL that is not all digits is kept as it is. */
  lemma NormalizeKeepsUrl(url: string)
    requires IsHttpUrl(url) && Trim(url) == url && !AllAsciiDigits(url)
    ensures NormalizeUserUrl(url) == Some(url)
  {
  }

  /** A URL the prompt builds starts with `h` and ends with `n`: its own trim, and not a port. */
  lemma BuiltUrlPlain(url: string)
    requires |url| > 0 && url[0] == 'h' && url[|url| - 1] == 'n'
    ensures Trim(url) == url && !AllAsciiDigits(url)
  {
    TrimUnchanged(url);
  }

  /** A normalised URL is normalised again to itself. */
  lemma NormalizeIdempotent(input: string)
    requires NormalizeUserUrl(input).Some?
    ensures NormalizeUserUrl(NormalizeUserUrl(input).value) == NormalizeUserUrl(input)
  {
    var url := NormalizeUserUrl(input).value;
    var t := Trim(input);
    NormalizedIsHttp(input);
    if AllAsciiDigits(t) {
      assert url == "http://localhost:" + t + API_DOCS;
      BuiltUrlPlain(url);
    } else if IsHttpUrl(t) {
      assert url == t;
      TrimIdempotent(input);
    } else {
      assert url == "http://" + t + API_DOCS;
      BuiltUrlPlain(url);
    }
    NormalizeKeepsUrl(url);
  }

  /** Prose is refused, as the source's own test checks. */
  lemma NormalizeProse(s: string)
    requires s == "not a url"
    ensures NormalizeUserUrl(s) == None
  {
    TrimUnchanged(s);
    assert s[0] == 'n';
    assert forall i :: 0 <= i < |s| ==> s[i] != ':';
    NormalizeAccepts(s);
  }

  // ---------------------------------------------------------------------------------------
  // prompt_for_url

  /**
   * One round of the prompt: the flush of the prompt fails, the read fails, or a line is
   * read. A trace that runs out stands for end of input, which reads as an empty line.
   */
  datatype PromptEvent = Line(text: string) | FlushFailed(reason: string) | ReadFailed(reason: string)

  /** A line that the prompt rejects and asks again after. */
  predicate Rejected(e: PromptEvent)
  {
    e.Line? && Trim(e.text) != [] && NormalizeUserUrl(Trim(e.text)).None?
  }

  /** The answer of the prompt loop from round `k` on. */
  function AnswerFrom(events: seq<PromptEvent>, k: nat): (r: Result<Option<string>, AppError>)
    requires k <= |events|
    ensures r.Failure? ==> r.error.Io?
    decreases |events| - k
  {
    if k == |events| then Success(None)
    else
      match events[k]
      case FlushFailed(e) => Failure(Io("failed to flush prompt: " + e))
      case ReadFailed(e) => Failure(Io("failed to read input: " + e))
      case Line(text) =>
        var trimmed := Trim(text);
        if trimmed == [] then Success(None)
        else if NormalizeUserUrl(trimmed).Some? then Success(NormalizeUserUrl(trimmed))
        else AnswerFrom(events, k + 1)
  }

  /** `prompt_for_url`: no prompt without a terminal. */
  function PromptAnswer(isTerminal: bool, events: seq<PromptEvent>): (r: Result<Option<string>, AppError>)
    ensures !isTerminal ==> r == Success(None)
  {
    if !isTerminal then Success(None) else AnswerFrom(events, 0)
  }

  /** The first round from `k` on that is not a rejected line, or `|events|`. */
  function FirstDecisive(events: seq<PromptEvent>, k: nat): (j: nat)
    requires k <= |events|
    ensures k <= j <= |events|
    decreases |events| - k
  {
    if k == |events| || !Rejected(events[k]) then k else FirstDecisive(events, k + 1)
  }

  /** Every round before the first decisive one is a rejected line, and that one is not. */
  lemma {:induction false} FirstDecisiveIsFirst(events: seq<PromptEvent>, k: nat)
    requires k <= |events|
    ensures var j := FirstDecisive(events, k);
      (j < |events| ==> !Rejected(events[j]))
      && forall m :: k <= m < j ==> Rejected(events[m])
    decreases |events| - k
  {
    if k < |events| && Rejected(events[k]) {
      FirstDecisiveIsFirst(events, k + 1);
      var j := FirstDecisive(events, k + 1);
      assert FirstDecisive(events, k) == j;
      forall m | k <= m < j
        ensures Rejected(events[m])
      {
        if m == k {
        }
      }
    }
  }

  /** What a round that is not a rejected line answers (end of input answers `None`). */
  function Verdict(events: seq<PromptEvent>, j: nat): Result<Option<string>, AppError>
    requires j <= |events|
  {
    if j == |events| then Success(None)
    else
      match events[j]
      case FlushFailed(e) => Failure(Io("failed to flush prompt: " + e))
      case ReadFailed(e) => Failure(Io("failed to read input: " + e))
      case Line(text) => if Trim(text) == [] then Success(None) else Success(NormalizeUserUrl(Trim(text)))
  }

  /**
   * Rejected lines are skipped: the prompt's answer is the verdict of the first round
   * that is not a rejected line.
   */
  lemma {:induction false} AnswerSkipsRejected(events: seq<PromptEvent>, k: nat)
    requires k <= |events|
    ensures AnswerFrom(events, k) == Verdict(events, FirstDecisive(events, k))
    decreases |events| - k
  {
    if k < |events| && Rejected(events[k]) {
      AnswerSkipsRejected(events, k + 1);
    }
  }

  /** A URL the prompt answers with is always an http or https URL. */
  lemma PromptAnswerIsHttp(isTerminal: bool, events: seq<PromptEvent>)
    requires PromptAnswer(isTerminal, events).Success? && PromptAnswer(isTerminal, events).value.Some?
    ensures isTerminal && IsHttpUrl(PromptAnswer(isTerminal, events).value.value)
  {
    AnswerSkipsRejected(events, 0);
    var j := FirstDecisive(events, 0);
    NormalizedIsHttp(Trim(events[j].text));
  }

  /** `prompt_for_url` as written: a loop that asks again after every rejected line. */
  method PromptForUrl(isTerminal: bool, events: seq<PromptEvent>) returns (r: Result<Option<string>, AppError>)
    ensures r == PromptAnswer(isTerminal, events)
  {
    if !isTerminal {
      return Success(None);
    }
    var k := 0;
    while true
      invariant k <= |events|
      invariant AnswerFrom(events, k) == AnswerFrom(events, 0)
      decreases |events| - k
    {
      if k == |events| {
        return Success(None);
      }
      var event := events[k];
      if event.FlushFailed? {
        return Failure(Io("failed to flush prompt: " + event.reason));
      }
      if event.ReadFailed? {
        return Failure(Io("failed to read input: " + event.reason));
      }
      var trimmed := Trim(event.text);
      if trimmed == [] {
        return Success(None);
      }
      var url := NormalizeUserUrl(trimmed);
      if url.Some? {
        return Success(url);
      }
      k := k + 1;
    }
  }
}
