/**
 * The model clients: the response-envelope normalisation, the endpoint URL,
 * the three-attempt retry loop of the HTTP clients, the line filter of the
 * streaming client, and the default `async_generate` of the base class.
 *
 * The HTTP transport is a parameter: `transport(k)` is what attempt `k + 1`
 * gets back, a decoded body or a raised exception. Sleeping is recorded as a
 * duration appended to a ghost log, and every request sent to a ghost log of
 * requests.
 */
module ModelClients {
  import opened Wrappers
  import opened Text
  import opened JsonValues
  import opened JsonEncoder
  import opened Slices

  // ---------------------------------------------------------------- _parse_response

  /** A `text` or `output` field of the envelope, when it is a string. */
  function StringField(data: Json, key: string): Option<Json>
    requires data.JObject?
  {
    var v := Lookup(data.fields, key);
    if v.Some? && v.value.JString? then v else None
  }

  /** `candidates[0]['content']`, when `candidates` is a non-empty list whose first item is a dict with `content`. */
  function CandidateContent(data: Json): Option<Json>
    requires data.JObject?
  {
    var c := Lookup(data.fields, "candidates");
    if c.Some? && c.value.JArray? && |c.value.items| > 0 && c.value.items[0].JObject? then
      Lookup(c.value.items[0].fields, "content")
    else None
  }

  /**
   * `choices[0]['text']`, or else `choices[0]['message'].get('content')`,
   * replaced by `str(message)` when it is missing or falsy.
   */
  function ChoiceContent(data: Json): Option<Json>
    requires data.JObject?
  {
    var c := Lookup(data.fields, "choices");
    if c.Some? && c.value.JArray? && |c.value.items| > 0 && c.value.items[0].JObject? then
      var first := c.value.items[0].fields;
      var text := Lookup(first, "text");
      var message := Lookup(first, "message");
      if text.Some? then text
      else if message.Some? && message.value.JObject? then
        var content := Lookup(message.value.fields, "content");
        if content.Some? && Truthy(content.value) then content else Some(JString(Str(message.value)))
      else None
    else None
  }

  /** `_parse_response`: the shapes tried in order, and `str(data)` when none applies. */
  function ParseResponse(data: Json): Json {
    if data.JString? then data
    else if data.JObject? then
      if StringField(data, "text").Some? then StringField(data, "text").value
      else if StringField(data, "output").Some? then StringField(data, "output").value
      else if CandidateContent(data).Some? then CandidateContent(data).value
      else if ChoiceContent(data).Some? then ChoiceContent(data).value
      else JString(Str(data))
    else JString(Str(data))
  }

  /** A string body is returned as it is. */
  lemma ParseString(s: string)
    ensures ParseResponse(JString(s)) == JString(s)
  {
  }

  /** A string `text` field wins over every other shape. */
  lemma ParseTextFirst(fields: seq<(string, Json)>, rest: seq<(string, Json)>, s: string)
    requires forall k | 0 <= k < |rest| :: rest[k].0 != "text"
    ensures ParseResponse(JObject(fields + [("text", JString(s))] + rest)) == JString(s)
  {
    LookupLastBinding(fields, "text", JString(s), rest);
  }

  /** `text` that is present but not a string does not stop `output` from being used. */
  lemma ParseOutputAfterText(data: Json, s: string)
    requires data.JObject?
    requires Lookup(data.fields, "text").None? || !Lookup(data.fields, "text").value.JString?
    requires Lookup(data.fields, "output") == Some(JString(s))
    ensures ParseResponse(data) == JString(s)
  {
  }

  /** Neither `text` nor `output` is a string: the candidates come next. */
  lemma ParseCandidates(data: Json, first: seq<(string, Json)>, more: seq<Json>, content: Json)
    requires data.JObject?
    requires StringField(data, "text").None? && StringField(data, "output").None?
    requires Lookup(data.fields, "candidates") == Some(JArray([JObject(first)] + more))
    requires Lookup(first, "content") == Some(content)
    ensures ParseResponse(data) == content
  {
  }

  /** In a choice, `text` is taken before `message`. */
  lemma ParseChoiceText(data: Json, first: seq<(string, Json)>, more: seq<Json>, text: Json)
    requires data.JObject?
    requires StringField(data, "text").None? && StringField(data, "output").None? && CandidateContent(data).None?
    requires Lookup(data.fields, "choices") == Some(JArray([JObject(first)] + more))
    requires Lookup(first, "text") == Some(text)
    ensures ParseResponse(data) == text
  {
  }

  /** A message without usable `content` is written out with `str`. */
  lemma ParseChoiceMessage(data: Json, first: seq<(string, Json)>, more: seq<Json>, message: seq<(string, Json)>)
    requires data.JObject?
    requires StringField(data, "text").None? && StringField(data, "output").None? && CandidateContent(data).None?
    requires Lookup(data.fields, "choices") == Some(JArray([JObject(first)] + more))
    requires Lookup(first, "text").None? && Lookup(first, "message") == Some(JObject(message))
    ensures var content := Lookup(message, "content");
      ParseResponse(data) == if content.Some? && Truthy(content.value) then content.value else JString(Str(JObject(message)))
  {
  }

  /** An envelope with none of the known keys is written out with `str`. */
  lemma ParseFallback(data: Json)
    requires data.JObject?
    requires forall k | 0 <= k < |data.fields| :: data.fields[k].0 !in {"text", "output", "candidates", "choices"}
    ensures ParseResponse(data) == JString(Str(data))
  {
    LookupHasKey(data.fields, "text");
    LookupHasKey(data.fields, "output");
    LookupHasKey(data.fields, "candidates");
    LookupHasKey(data.fields, "choices");
  }

  /** Whatever the shape, the result is a string unless it was taken from a `content`, `text` or `message` entry of a list item. */
  lemma ParseStringUnlessNested(data: Json)
    requires !data.JObject? || (CandidateContent(data).None? && ChoiceContent(data).None?)
    ensures ParseResponse(data).JString?
  {
  }

  // ---------------------------------------------------------------- the endpoint

  /** `f"{base_url.rstrip('/')}/generate"`. */
  function Url(baseUrl: string): (r: string)
    ensures |r| >= 9 && r[|r| - 9..] == "/generate"
    ensures r[..|r| - 9] == RStripChar(baseUrl, '/')
  {
    RStripChar(baseUrl, '/') + "/generate"
  }

  /** Trailing slashes on the base do not change the URL. */
  lemma {:induction false} UrlTrailingSlash(baseUrl: string)
    ensures Url(baseUrl + "/") == Url(baseUrl)
  {
    assert (baseUrl + "/")[..|baseUrl|] == baseUrl;
  }

  /** The path is joined with exactly one slash: the base part never ends in `/`. */
  lemma UrlOneSlash(baseUrl: string)
    ensures var r := Url(baseUrl); |r| == 9 || r[|r| - 10] != '/'
  {
  }

  /** A base without a trailing slash is kept as it is. */
  lemma UrlPlain(baseUrl: string)
    requires baseUrl == [] || baseUrl[|baseUrl| - 1] != '/'
    ensures Url(baseUrl) == baseUrl + "/generate"
  {
  }

  // ---------------------------------------------------------------- the retry loop

  /** What one attempt gets back: a decoded body, or the exception the post raised. */
  datatype Attempt = Reply(data: Json) | Failure(error: string)

  /** A request as sent: URL, authorization header and JSON payload. */
  datatype Request = Request(url: string, authorization: string, payload: Json)

  const MaxAttempts: nat := 3

  function Pow2(k: nat): (r: nat)
    ensures r >= 1
  {
    if k == 0 then 1 else 2 * Pow2(k - 1)
  }

  /** The wait after failed attempt `attempt`: `0.5 * 2 ** (attempt - 1)`. */
  function Backoff(attempt: nat): real
    requires attempt >= 1
  {
    0.5 * Pow2(attempt - 1) as real
  }

  /** The waits after the first `n` failed attempts. */
  function Backoffs(n: nat): (r: seq<real>)
    ensures |r| == n && forall j | 0 <= j < n :: r[j] == Backoff(j + 1)
  {
    if n == 0 then [] else Backoffs(n - 1) + [Backoff(n)]
  }

  /** The same request sent `n` times. */
  function Repeat(n: nat, req: Request): (r: seq<Request>)
    ensures |r| == n && forall j | 0 <= j < n :: r[j] == req
  {
    if n == 0 then [] else Repeat(n - 1, req) + [req]
  }

  /** The three waits are half a second, one second and two seconds. */
  lemma BackoffSchedule()
    ensures Backoffs(MaxAttempts) == [0.5, 1.0, 2.0]
  {
    assert Pow2(1) == 2 && Pow2(2) == 4;
  }

  /** The number of attempts that fail before the first reply, at most three. */
  function Failures(transport: nat -> Attempt, k: nat): (f: nat)
    requires k <= MaxAttempts
    ensures k <= f <= MaxAttempts
    ensures forall j | k <= j < f :: transport(j).Failure?
    ensures f < MaxAttempts ==> transport(f).Reply?
    decreases MaxAttempts - k
  {
    if k == MaxAttempts then MaxAttempts
    else if transport(k).Reply? then k
    else Failures(transport, k + 1)
  }

  /** The number of requests sent. */
  function Sent(transport: nat -> Attempt): (n: nat)
    ensures 1 <= n <= MaxAttempts
  {
    var f := Failures(transport, 0);
    if f < MaxAttempts then f + 1 else MaxAttempts
  }

  /** The outcome of the loop: the parsed first reply, or the exception of the last attempt. */
  function Retried(transport: nat -> Attempt): Result<Json> {
    var f := Failures(transport, 0);
    if f < MaxAttempts then Ok(ParseResponse(transport(f).data)) else Err(transport(MaxAttempts - 1).error)
  }

  /** A first reply ends the loop at once, with no wait. */
  lemma RetryFirstReply(transport: nat -> Attempt)
    requires transport(0).Reply?
    ensures Retried(transport) == Ok(ParseResponse(transport(0).data))
    ensures Sent(transport) == 1 && Failures(transport, 0) == 0
  {
  }

  /** The reply of the first successful attempt is the one returned, after one wait per failed attempt. */
  lemma RetryLaterReply(transport: nat -> Attempt, k: nat)
    requires k < MaxAttempts && transport(k).Reply?
    requires forall j | 0 <= j < k :: transport(j).Failure?
    ensures Retried(transport) == Ok(ParseResponse(transport(k).data))
    ensures Sent(transport) == k + 1 && Failures(transport, 0) == k
  {
  }

  /** Three failures: the last exception is raised, after three requests and all three waits. */
  lemma RetryAllFail(transport: nat -> Attempt)
    requires transport(0).Failure? && transport(1).Failure? && transport(2).Failure?
    ensures Retried(transport) == Err(transport(2).error)
    ensures Sent(transport) == 3 && Backoffs(Failures(transport, 0)) == [0.5, 1.0, 2.0]
  {
    BackoffSchedule();
  }

  const KeyMissing: string := "RuntimeError: GEMINI API key not configured"
  const NoSyncLibrary: string := "RuntimeError: Either httpx or requests is required for GeminiClientHTTP; pip install httpx or requests"
  const NoAsyncLibrary: string := "RuntimeError: httpx is required for async operations; pip install httpx"
  const NoStreamLibrary: string := "RuntimeError: httpx is required for async streaming; pip install httpx"

  /** `if not self.api_key`: no key, or the empty key. */
  predicate KeySet(apiKey: Option<string>) {
    apiKey.Some? && apiKey.value != ""
  }

  /** The `Authorization` header. */
  function Bearer(apiKey: Option<string>): string {
    "Bearer " + apiKey.GetOr("")
  }

  function Payload(prompt: string, maxTokens: int): Json {
    JObject([("prompt", JString(prompt)), ("max_tokens", JInt(maxTokens))])
  }

  function StreamPayload(prompt: string, maxTokens: int): Json {
    JObject([("prompt", JString(prompt)), ("max_tokens", JInt(maxTokens)), ("stream", JBool(true))])
  }

  /** What `generate` (or the asynchronous variant's `async_generate`) returns or raises. */
  function Generated(apiKey: Option<string>, library: bool, libraryError: string, transport: nat -> Attempt): Result<Json> {
    if !KeySet(apiKey) then Err(KeyMissing)
    else if !library then Err(libraryError)
    else Retried(transport)
  }

  /** Without a key nothing is attempted and the configuration error is raised. */
  lemma GeneratedNoKey(apiKey: Option<string>, library: bool, libraryError: string, transport: nat -> Attempt)
    requires apiKey.None? || apiKey == Some("")
    ensures Generated(apiKey, library, libraryError, transport) == Err(KeyMissing)
  {
  }

  // ---------------------------------------------------------------- the streaming line filter

  /** A line with surrounding whitespace and a leading `data:` label removed. */
  function LinePayload(raw: string): string {
    var line := Strip(raw);
    if StartsWith(line, "data:") then Strip(line[5..]) else line
  }

  /** The line that ends the stream. */
  predicate EndsStream(raw: string) {
    raw != "" && LinePayload(raw) == "[DONE]"
  }

  /** The index of the first line that ends the stream, or the number of lines. */
  function FirstDone(lines: seq<string>, i: nat): (d: nat)
    requires i <= |lines|
    ensures i <= d <= |lines|
    ensures forall k | i <= k < d :: !EndsStream(lines[k])
    ensures d < |lines| ==> EndsStream(lines[d])
    decreases |lines| - i
  {
    if i == |lines| then |lines|
    else if EndsStream(lines[i]) then i
    else FirstDone(lines, i + 1)
  }

  /** The payloads of the non-empty lines, in order. */
  function Payloads(lines: seq<string>): (r: seq<string>)
    ensures |r| <= |lines|
    decreases |lines|
  {
    if lines == [] then [] else Payloads(lines[..|lines| - 1]) + Yield(lines[|lines| - 1])
  }

  /** What one raw line contributes: nothing when it is empty, its payload otherwise. */
  function Yield(raw: string): (r: seq<string>)
    ensures |r| <= 1
  {
    if raw != "" then [LinePayload(raw)] else []
  }

  lemma PayloadsSnoc(lines: seq<string>, raw: string)
    ensures Payloads(lines + [raw]) == Payloads(lines) + Yield(raw)
  {
    assert (lines + [raw])[..|lines|] == lines;
  }

  lemma {:induction false} PayloadsAppend(a: seq<string>, b: seq<string>)
    ensures Payloads(a + b) == Payloads(a) + Payloads(b)
    decreases |b|
  {
    if b == [] {
      assert a + b == a;
    } else {
      var init, last := b[..|b| - 1], b[|b| - 1];
      assert b == init + [last];
      Associative(a, init, [last]);
      PayloadsSnoc(a + init, last);
      PayloadsSnoc(init, last);
      PayloadsAppend(a, init);
      Associative(Payloads(a), Payloads(init), Yield(last));
    }
  }

  lemma NotEndingLine(raw: string)
    ensures raw == "" || LinePayload(raw) != "[DONE]" ==> !EndsStream(raw)
  {
  }

  lemma PayloadsStep(lines: seq<string>, i: nat)
    requires i < |lines|
    ensures Payloads(lines[..i + 1]) == Payloads(lines[..i]) + Yield(lines[i])
  {
    assert lines[..i + 1][..i] == lines[..i];
  }

  /** The stream yields the payloads of the lines before the first `[DONE]`, and never `[DONE]` itself. */
  lemma {:induction false} PayloadsBeforeDone(lines: seq<string>, n: nat)
    requires n <= |lines| && forall k | 0 <= k < n :: !EndsStream(lines[k])
    ensures forall k | 0 <= k < |Payloads(lines[..n])| :: Payloads(lines[..n])[k] != "[DONE]"
    decreases n
  {
    if n > 0 {
      PayloadsBeforeDone(lines, n - 1);
      assert lines[..n][..n - 1] == lines[..n - 1];
    }
  }

  /** Lines after the first `[DONE]` make no difference. */
  lemma AfterDoneIgnored(lines: seq<string>, more: seq<string>)
    requires FirstDone(lines, 0) < |lines|
    ensures FirstDone(lines + more, 0) == FirstDone(lines, 0)
  {
    var d := FirstDone(lines, 0);
    var all := lines + more;
    assert all[d] == lines[d];
    assert forall k | 0 <= k < d :: all[k] == lines[k];
  }

  /** The line stripped, and the whitespace after a leading `data:` label stripped with the label. */
  method StripLabel(rawLine: string) returns (line: string)
    ensures line == LinePayload(rawLine)
  {
    line := Strip(rawLine);
    if StartsWith(line, "data:") {
      line := Strip(line[5..]);
    }
  }

  /**
   * The `async for raw_line in resp.aiter_lines()` loop: empty lines are
   * skipped, `[DONE]` ends the stream, every other line is yielded as its
   * payload; `failure` is raised when the lines run out without `[DONE]`.
   */
  method FilterLines(lines: seq<string>, failure: Option<string>) returns (yielded: seq<string>, error: Option<string>)
    ensures yielded == Payloads(lines[..FirstDone(lines, 0)])
    ensures error == if FirstDone(lines, 0) < |lines| then None else failure
  {
    yielded := [];
    error := failure;
    var i := 0;
    while i < |lines|
      invariant 0 <= i <= |lines|
      invariant FirstDone(lines, 0) == FirstDone(lines, i)
      invariant yielded == Payloads(lines[..i])
      invariant error == failure
    {
      var rawLine := lines[i];
      PayloadsStep(lines, i);
      if rawLine != "" {
        var line := StripLabel(rawLine);
        NotEndingLine(rawLine);
        if line == "[DONE]" {
          error := None;
          break;
        }
        yielded := yielded + [line];
      }
      NotEndingLine(rawLine);
      i := i + 1;
    }
  }

  /** What `async_stream_generate` yields, and the exception it raises, if any. */
  function Streamed(apiKey: Option<string>, library: bool, lines: seq<string>, failure: Option<string>): (seq<string>, Option<string>) {
    if !library then ([], Some(NoStreamLibrary))
    else if !KeySet(apiKey) then ([], Some(KeyMissing))
    else
      var d := FirstDone(lines, 0);
      (Payloads(lines[..d]), if d < |lines| then None else failure)
  }

  // ---------------------------------------------------------------- the clients

  /**
   * `DummyModelClientLocal.generate`: a fixed analysis in JSON, written with
   * `json.dumps` (non-ASCII characters escaped).
   */
  function DummyLocalAnalysis(): Json {
    JObject([
      ("overview", JString("（模拟）基于检索与输入的摘要")),
      ("recommendations", JArray([JString("优先还款"), JString("检查利率并优化贷款结构")])),
      ("risks", JArray([JString("高利率风险")])),
      ("confidence", JFloat(75, -2))])
  }

  function DummyLocalText(): string {
    Dumps(DummyLocalAnalysis(), true)
  }

  /**
   * `GeminiClientHTTP` (`asyncVariant` false) and its subclass
   * `GeminiClientAsync` (`asyncVariant` true). The plain client inherits the
   * default `async_generate` of `ModelClientBase`; the subclass overrides it
   * and adds `async_stream_generate`.
   */
  class GeminiClient {
    const apiKey: Option<string>
    const baseUrl: string
    const asyncVariant: bool
    ghost var sleeps: seq<real>
    ghost var requests: seq<Request>

    /**
     * `api_key or GEMINI_API_KEY` and `base_url or GEMINI_BASE_URL`; the
     * environment values are parameters.
     */
    constructor(apiKey: Option<string>, baseUrl: string, envApiKey: Option<string>, envBaseUrl: Option<string>, asyncVariant: bool)
      ensures this.apiKey == if KeySet(apiKey) then apiKey else envApiKey
      ensures this.baseUrl == if baseUrl != "" then baseUrl else envBaseUrl.GetOr(baseUrl)
      ensures this.asyncVariant == asyncVariant
      ensures sleeps == [] && requests == []
    {
      this.apiKey := if KeySet(apiKey) then apiKey else envApiKey;
      this.baseUrl := if baseUrl != "" then baseUrl else envBaseUrl.GetOr(baseUrl);
      this.asyncVariant := asyncVariant;
      sleeps := [];
      requests := [];
    }

    /** The `for attempt in range(1, 4)` loop shared by `generate` and `async_generate`. */
    method Retry(req: Request, transport: nat -> Attempt) returns (r: Result<Json>)
      modifies this`sleeps, this`requests
      ensures r == Retried(transport)
      ensures sleeps == old(sleeps) + Backoffs(Failures(transport, 0))
      ensures requests == old(requests) + Repeat(Sent(transport), req)
    {
      var attempt := 1;
      while attempt <= MaxAttempts
        invariant 1 <= attempt <= MaxAttempts + 1
        invariant forall j | 0 <= j < attempt - 1 :: transport(j).Failure?
        invariant sleeps == old(sleeps) + Backoffs(attempt - 1)
        invariant requests == old(requests) + Repeat(attempt - 1, req)
      {
        requests := requests + [req];
        var outcome := transport(attempt - 1);
        if outcome.Reply? {
          RetryLaterReply(transport, attempt - 1);
          return Ok(ParseResponse(outcome.data));
        }
        sleeps := sleeps + [Backoff(attempt)];
        attempt := attempt + 1;
      }
      RetryAllFail(transport);
      r := Err(transport(MaxAttempts - 1).error);
    }

    /**
     * `generate`: the key check, the choice of an HTTP library, then the
     * retry loop; `stream` changes nothing in the result.
     */
    method Generate(prompt: string, maxTokens: int, stream: bool, library: bool, transport: nat -> Attempt)
      returns (r: Result<Json>)
      modifies this
      ensures r == Generated(apiKey, library, NoSyncLibrary, transport)
      ensures KeySet(apiKey) && library ==>
        && sleeps == old(sleeps) + Backoffs(Failures(transport, 0))
        && requests == old(requests) + Repeat(Sent(transport), Request(Url(baseUrl), Bearer(apiKey), Payload(prompt, maxTokens)))
      ensures !(KeySet(apiKey) && library) ==> sleeps == old(sleeps) && requests == old(requests)
    {
      if !KeySet(apiKey) {
        return Err(KeyMissing);
      }
      if !library {
        return Err(NoSyncLibrary);
      }
      var url := Url(baseUrl);
      var req := Request(url, Bearer(apiKey), Payload(prompt, maxTokens));
      r := Retry(req, transport);
      if stream {
        return r;
      }
    }

    /**
     * `async_generate`: the subclass runs its own retry loop over the
     * asynchronous HTTP client; the plain client uses the inherited
     * `ModelClientBase.async_generate`, which returns `generate(prompt, max_tokens)`.
     */
    method AsyncGenerate(prompt: string, maxTokens: int, library: bool, transport: nat -> Attempt)
      returns (r: Result<Json>)
      modifies this
      ensures asyncVariant ==> r == Generated(apiKey, library, NoAsyncLibrary, transport)
      ensures !asyncVariant ==> r == Generated(apiKey, library, NoSyncLibrary, transport)
      ensures KeySet(apiKey) && library ==>
        && sleeps == old(sleeps) + Backoffs(Failures(transport, 0))
        && requests == old(requests) + Repeat(Sent(transport), Request(Url(baseUrl), Bearer(apiKey), Payload(prompt, maxTokens)))
      ensures !(KeySet(apiKey) && library) ==> sleeps == old(sleeps) && requests == old(requests)
    {
      if !asyncVariant {
        r := Generate(prompt, maxTokens, false, library, transport);
        return;
      }
      if !KeySet(apiKey) {
        return Err(KeyMissing);
      }
      if !library {
        return Err(NoAsyncLibrary);
      }
      var url := Url(baseUrl);
      var req := Request(url, Bearer(apiKey), Payload(prompt, maxTokens));
      r := Retry(req, transport);
    }

    /**
     * `async_stream_generate` over the lines the response delivers; `failure`
     * is the exception the response raises after its last line, if any.
     * The library check comes before the key check here.
     */
    method AsyncStreamGenerate(prompt: string, maxTokens: int, library: bool, lines: seq<string>, failure: Option<string>)
      returns (yielded: seq<string>, error: Option<string>)
      requires asyncVariant
      modifies this`requests
      ensures (yielded, error) == Streamed(apiKey, library, lines, failure)
      ensures library && KeySet(apiKey) ==>
        requests == old(requests) + [Request(Url(baseUrl), Bearer(apiKey), StreamPayload(prompt, maxTokens))]
      ensures !(library && KeySet(apiKey)) ==> requests == old(requests)
    {
      if !library {
        return [], Some(NoStreamLibrary);
      }
      if !KeySet(apiKey) {
        return [], Some(KeyMissing);
      }
      requests := requests + [Request(Url(baseUrl), Bearer(apiKey), StreamPayload(prompt, maxTokens))];
      yielded, error := FilterLines(lines, failure);
    }
  }
}
