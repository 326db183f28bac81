/**
 * The CFP agent: the prompt it builds from a financial statement and the
 * retrieved documents, the rule-based fallback, and the three entry points
 * `analyze`, `analyze_async` and `analyze_stream_async` with their chain of
 * fallbacks between the synchronous, asynchronous and streamed model calls.
 *
 * A model client is described by what `getattr` finds on it: for each of
 * `generate`, `async_generate` and `async_stream_generate`, nothing, a value
 * that cannot be called, a plain function or a coroutine function. What the
 * backend answers is an oracle: `backend(k)` is the outcome of the `k`-th
 * request that actually runs, counting the requests of one analysis from 0,
 * and `stream` is what the streaming call delivers. Whether an event loop is
 * already running is a parameter. Each entry point also returns the requests
 * that ran, in order, each with the prompt it was given.
 */
module CfpAgent {
  import opened Wrappers
  import opened Text
  import opened JsonValues
  import opened JsonDecoder
  import opened JsonEncoder
  import opened JsonRoundTrip
  import opened Financials
  import opened AgentOutput
  import opened Compliance
  import opened Retriever
  import opened StreamParser
  import opened ModelClients

  // ---------------------------------------------------------------- the prompt

  /**
   * `PROMPT_TEMPLATE` cut at its two placeholders: the text before the input
   * summary, the text between it and the context, and the text after the context.
   */
  datatype PromptTemplate = PromptTemplate(head: string, middle: string, tail: string)

  const DefaultTemplate: PromptTemplate := PromptTemplate(
    "SYSTEM: 你是一个专业的注册理财顾问，输出必须遵循 JSON schema。\nINPUT: ",
    "\nCONTEXT: ",
    "\nTASK: 请基于 INPUT 和 CONTEXT 提供（1）概述 overview，(2) 分步建议 recommendations 列表，(3) 风险点 risks 列表，(4) confidence（0-1 浮点数）。\nOUTPUT: 严格返回 JSON，仅包含 keys: overview, recommendations, risks, confidence。")

  const ContextSeparator: string := "\n---\n"

  /** The four amounts, in the order assets, liabilities, income, expenses. */
  function InputSummary(fs: FinancialStatement): string {
    "assets=" + DecimalStr(fs.assets) + ", liabilities=" + DecimalStr(fs.liabilities)
      + ", income=" + DecimalStr(fs.income) + ", expenses=" + DecimalStr(fs.expenses)
  }

  /** The documents separated by `\n---\n`; no documents give the empty text. */
  function Context(docs: seq<string>): string {
    if docs != [] then Join(docs, ContextSeparator) else ""
  }

  /** `_build_prompt`: the template with the input summary and the context filled in. */
  function BuildPrompt(t: PromptTemplate, fs: FinancialStatement, docs: seq<string>): string {
    t.head + InputSummary(fs) + t.middle + Context(docs) + t.tail
  }

  /** The text `_retrieve` and the asynchronous entry points search for. */
  function Query(fs: FinancialStatement): string {
    "用户负债率分析 assets:" + DecimalStr(fs.assets) + " liabilities:" + DecimalStr(fs.liabilities)
  }

  lemma ContainsWithin(pre: string, s: string, post: string, p: string)
    requires Contains(s, p)
    ensures Contains(pre + s + post, p)
  {
    ContainsIff(s, p);
    var j :| 0 <= j && OccursAt(s, p, j);
    var t := pre + s + post;
    assert t[|pre| + j..|pre| + j + |p|] == s[j..j + |p|];
    assert OccursAt(t, p, |pre| + j);
    ContainsIff(t, p);
  }

  lemma ContainsSelf(p: string)
    ensures Contains(p, p)
  {
    assert OccursAt(p, p, 0);
    ContainsIff(p, p);
  }

  /** Every document occurs in the joined text. */
  lemma {:induction false} JoinContains(docs: seq<string>, sep: string, k: nat)
    requires k < |docs|
    ensures Contains(Join(docs, sep), docs[k])
    decreases |docs|
  {
    ContainsSelf(docs[k]);
    if |docs| == 1 {
    } else if k == 0 {
      ContainsWithin("", docs[0], sep + Join(docs[1..], sep), docs[0]);
      assert "" + docs[0] + (sep + Join(docs[1..], sep)) == Join(docs, sep);
    } else {
      JoinContains(docs[1..], sep, k - 1);
      ContainsWithin(docs[0] + sep, Join(docs[1..], sep), "", docs[k]);
      assert docs[0] + sep + Join(docs[1..], sep) + "" == Join(docs, sep);
    }
  }

  /** Every retrieved document is part of the prompt. */
  lemma PromptIncludesDocs(t: PromptTemplate, fs: FinancialStatement, docs: seq<string>, k: nat)
    requires k < |docs|
    ensures Contains(BuildPrompt(t, fs, docs), docs[k])
  {
    JoinContains(docs, ContextSeparator, k);
    ContainsWithin(t.head + InputSummary(fs) + t.middle, Context(docs), t.tail, docs[k]);
  }

  /** Without documents the context line is empty; one document is the context as it is. */
  lemma PromptContext(t: PromptTemplate, fs: FinancialStatement, d: string)
    ensures BuildPrompt(t, fs, []) == t.head + InputSummary(fs) + t.middle + t.tail
    ensures BuildPrompt(t, fs, [d]) == t.head + InputSummary(fs) + t.middle + d + t.tail
  {
    assert t.head + InputSummary(fs) + t.middle + "" == t.head + InputSummary(fs) + t.middle;
  }

  /** One more document adds a separator and that document at the end of the context. */
  lemma ContextAppend(docs: seq<string>, d: string)
    requires docs != []
    ensures Context(docs + [d]) == Context(docs) + ContextSeparator + d
  {
    JoinSingle(docs, d, ContextSeparator);
  }

  /** The prompt starts with the template's head and the input summary, and ends with the template's tail. */
  lemma PromptLayout(t: PromptTemplate, fs: FinancialStatement, docs: seq<string>)
    ensures StartsWith(BuildPrompt(t, fs, docs), t.head + InputSummary(fs))
    ensures var p := BuildPrompt(t, fs, docs); |t.tail| <= |p| && p[|p| - |t.tail|..] == t.tail
  {
    var p := BuildPrompt(t, fs, docs);
    var h := t.head + InputSummary(fs);
    var rest := t.middle + Context(docs);
    assert p == h + rest + t.tail;
    assert p[..|h|] == h;
    StartsWithIff(p, h);
  }

  // ---------------------------------------------------------------- the documents

  /** A list of texts as the value a retriever returns. */
  function Strings(docs: seq<string>): (v: Json)
    ensures v.JArray? && |v.items| == |docs|
  {
    JArray(seq(|docs|, k requires 0 <= k < |docs| => JString(docs[k])))
  }

  /**
   * Lines 68-72 of `analyze`: a list has each element turned into text; any
   * other value becomes a one-element list of its text, or the empty list
   * when it is false.
   */
  function NormaliseDocs(docs: Json): (r: seq<string>)
    ensures docs.JArray? ==> |r| == |docs.items|
    ensures !docs.JArray? ==> |r| <= 1
  {
    if docs.JArray? then seq(|docs.items|, k requires 0 <= k < |docs.items| => Str(docs.items[k]))
    else if Truthy(docs) then [Str(docs)] else []
  }

  /** A list of texts is left as it is, so normalising twice changes nothing. */
  lemma NormaliseStrings(docs: seq<string>)
    ensures NormaliseDocs(Strings(docs)) == docs
  {
  }

  lemma NormaliseIdempotent(docs: Json)
    ensures NormaliseDocs(Strings(NormaliseDocs(docs))) == NormaliseDocs(docs)
  {
    NormaliseStrings(NormaliseDocs(docs));
  }

  /** A single text becomes a one-document list, an empty text or `None` no documents at all. */
  lemma NormaliseSingle(s: string)
    ensures NormaliseDocs(JString(s)) == if s == "" then [] else [s]
    ensures NormaliseDocs(JNull) == []
  {
  }

  // ---------------------------------------------------------------- the rule-based fallback

  const HighInterestAdvice: string := "建议优先偿还高息负债，或调整预算以减少支出。"
  const BudgetAdvice: string := "保持良好预算习惯并建立应急基金。"
  const RatioPrefix: string := "用户当前负债率为 "

  /** The nearest integer, a tie going to the even one. */
  function RoundHalfEven(x: real): (n: int)
    ensures -0.5 <= n as real - x <= 0.5
  {
    var f := x.Floor;
    var d := x - f as real;
    if d > 0.5 then f + 1 else if d < 0.5 then f else if f % 2 == 0 then f else f + 1
  }

  /** Two decimal digits, with a leading zero below ten. */
  function TwoDigits(n: nat): (r: string)
    requires n < 100
    ensures |r| == 2
  {
    [DigitChar(n / 10), DigitChar(n % 10)]
  }

  /** `format(x, '.2f')` on the exact value: rounded to hundredths, ties to even. */
  function Fixed2(x: real): string {
    var magnitude := if x < 0.0 then -x else x;
    var cents: nat := RoundHalfEven(magnitude * 100.0);
    (if x < 0.0 then "-" else "") + NatToString(cents / 100) + "." + TwoDigits(cents % 100)
  }

  /** The literal 0.6 and 0.0. */
  const SixTenths: Json := JFloat(6, -1)
  const ZeroConfidence: Json := JFloat(0, -1)

  /** The conservative analysis from the debt ratio alone (lines 78-81, 143-146 and 313-316). */
  function RuleFallback(fs: FinancialStatement): Dict {
    var ratio := DebtRatio(fs);
    var advice := if ratio > 0.6 then HighInterestAdvice else BudgetAdvice;
    map["overview" := JString(RatioPrefix + Fixed2(ratio)),
        "recommendations" := JArray([JString(advice)]),
        "risks" := JArray([]),
        "confidence" := SixTenths]
  }

  /** For a valid statement the ratio is above 0.6 exactly when the liabilities exceed 60% of the assets. */
  lemma RatioAboveIff(fs: FinancialStatement)
    requires Valid(fs)
    ensures DebtRatio(fs) > 0.6 <==> Value(fs.liabilities) > 0.6 * Value(fs.assets)
  {
    var ratio := DebtRatio(fs);
    var a := Value(fs.assets);
    assert ratio * a == Value(fs.liabilities);
    if ratio > 0.6 {
      assert ratio * a > 0.6 * a;
    } else {
      assert ratio * a <= 0.6 * a;
    }
  }

  /**
   * One recommendation, the repayment advice exactly when the liabilities
   * exceed 60% of the assets and the budget advice otherwise; no risks;
   * confidence 0.6.
   */
  lemma RuleFallbackAdvice(fs: FinancialStatement)
    requires Valid(fs)
    ensures RuleFallback(fs).Keys == {"overview", "recommendations", "risks", "confidence"}
    ensures RuleFallback(fs)["recommendations"] == JArray([JString(HighInterestAdvice)])
      <==> Value(fs.liabilities) > 0.6 * Value(fs.assets)
    ensures RuleFallback(fs)["recommendations"] == JArray([JString(BudgetAdvice)])
      <==> Value(fs.liabilities) <= 0.6 * Value(fs.assets)
    ensures RuleFallback(fs)["risks"] == JArray([]) && NumValue(RuleFallback(fs)["confidence"]) == 0.6
  {
    RatioAboveIff(fs);
    assert HighInterestAdvice != BudgetAdvice by { assert HighInterestAdvice[0] != BudgetAdvice[0]; }
  }

  /**
   * The ratio is compared as an exact quotient: liabilities of
   * 60000000000000000001 against assets of 10^20 lie above 0.6 and get the
   * repayment advice, where the nearest double of the quotient would be 0.6.
   */
  lemma RatioJustAboveThreshold(fs: FinancialStatement)
    requires fs.assets == Decimal(100000000000000000000, 0) && fs.liabilities == Decimal(60000000000000000001, 0)
    requires Value(fs.income) > 0.0 && Value(fs.expenses) >= 0.0
    ensures RuleFallback(fs)["recommendations"] == JArray([JString(HighInterestAdvice)])
  {
    assert Value(fs.assets) == 100000000000000000000.0;
    assert Value(fs.liabilities) == 60000000000000000001.0;
    RuleFallbackAdvice(fs);
  }

  /** The fallback itself passes the output schema unchanged. */
  lemma RuleFallbackConforms(fs: FinancialStatement)
    ensures var r := RuleFallback(fs);
      Validate(JObject([("overview", r["overview"]), ("recommendations", r["recommendations"]),
                        ("risks", r["risks"]), ("confidence", r["confidence"])])) == Ok(r)
  {
    var r := RuleFallback(fs);
    assert NumValue(SixTenths) == 0.6;
    ValidateFour(r["overview"], r["recommendations"], r["risks"], r["confidence"]);
  }

  /** A text that contains a pattern contains its first character. */
  lemma ContainsFirst(s: string, p: string)
    requires p != []
    ensures Contains(s, p) ==> p[0] in s
  {
    ContainsIff(s, p);
    if Contains(s, p) {
      var j: nat :| OccursAt(s, p, j);
      assert s[j..j + |p|][0] == s[j];
    }
  }

  /** The first characters of the legal keywords: `起`, `诉`, `仲` and `法`. */
  predicate LacksKeywordStarts(s: string) {
    '起' !in s && '诉' !in s && '仲' !in s && '法' !in s
  }

  lemma HighInterestAdviceLacks()
    ensures LacksKeywordStarts(HighInterestAdvice)
  {
    HighInterestAdviceLacksFirst();
    HighInterestAdviceLacksSecond();
  }

  lemma HighInterestAdviceLacksFirst()
    ensures '起' !in HighInterestAdvice && '诉' !in HighInterestAdvice
  {
  }

  lemma HighInterestAdviceLacksSecond()
    ensures '仲' !in HighInterestAdvice && '法' !in HighInterestAdvice
  {
  }

  lemma BudgetAdviceLacks()
    ensures LacksKeywordStarts(BudgetAdvice)
  {
    BudgetAdviceLacksFirst();
    BudgetAdviceLacksSecond();
  }

  lemma BudgetAdviceLacksFirst()
    ensures '起' !in BudgetAdvice && '诉' !in BudgetAdvice
  {
  }

  lemma BudgetAdviceLacksSecond()
    ensures '仲' !in BudgetAdvice && '法' !in BudgetAdvice
  {
  }

  /** No legal keyword occurs in a text without their first characters. */
  lemma NotLegal(s: string)
    requires LacksKeywordStarts(s)
    ensures !MentionsLegal(s)
  {
    forall k | 0 <= k < |LegalKeywords|
      ensures !Contains(s, LegalKeywords[k])
    {
      ContainsFirst(s, LegalKeywords[k]);
    }
  }

  /** The compliance step never flags the fallback for legal review. */
  lemma RuleFallbackReviewed(fs: FinancialStatement)
    ensures Checked(RuleFallback(fs)) == Ok(Annotated(RuleFallback(fs), false))
  {
    HighInterestAdviceLacks();
    BudgetAdviceLacks();
    NotLegal(if DebtRatio(fs) > 0.6 then HighInterestAdvice else BudgetAdvice);
    var items := Recommendations(RuleFallback(fs)).items;
    assert |items| == 1;
    NeedsLegalIff(RuleFallback(fs));
  }

  // ---------------------------------------------------------------- clients and calls

  /** What `getattr(client, name, None)` finds. */
  datatype Attr = Missing | NotCallable | Function | CoroutineFunction

  predicate Callable(a: Attr) {
    a.Function? || a.CoroutineFunction?
  }

  datatype Client = Client(generate: Attr, asyncGenerate: Attr, streamGenerate: Attr)

  /** `getattr(None, name, None)` finds nothing. */
  const NoClient: Client := Client(Missing, Missing, Missing)

  /** `DummyModelClientLocal` and `GeminiClientHTTP`: `generate`, and the inherited coroutine `async_generate`. */
  const LocalDummyClient: Client := Client(Function, CoroutineFunction, Missing)

  /** `DummyModelClient`: only `generate`, since `BaseModelClient` has nothing else. */
  const DummyClient: Client := Client(Function, Missing, Missing)

  /** `GeminiClientAsync`: an async generator function streams without being awaited. */
  const AsyncGeminiClient: Client := Client(Function, CoroutineFunction, Function)

  datatype Api = Generate | AsyncGenerate | StreamGenerate

  /** A request that ran, with the prompt it was given. */
  datatype Invocation = Invocation(api: Api, prompt: string)

  /** What the agent holds as `raw`: a value, or a coroutine object nobody awaited. */
  datatype Raw = Received(v: Json) | Pending

  /** `str(raw)`; the qualified name and the address in a coroutine's text are left out. */
  function RawText(raw: Raw): string {
    if raw.Received? then Str(raw.v) else "<coroutine object>"
  }

  const NoGenerate: string := "RuntimeError: model_client has no generate method"
  const NotCallableError: string := "TypeError: object is not callable"

  /** The raw value of a step, or the exception it raised, and the request it ran, if any. */
  datatype Step = Step(raw: Result<Raw>, log: seq<Invocation>)

  function Lifted(reply: Result<Json>): Result<Raw> {
    if reply.Ok? then Ok(Received(reply.value)) else Err(reply.error)
  }

  /**
   * Calling attribute `a` with the prompt. A plain function runs the request
   * at once. A coroutine function returns a coroutine, which runs the request
   * only when `awaited`. Calling anything else raises `TypeError`.
   */
  function Invoke(a: Attr, awaited: bool, api: Api, prompt: string, reply: Result<Json>): (s: Step)
    ensures s.log == [] || s.log == [Invocation(api, prompt)]
    ensures s.log != [] <==> a.Function? || (a.CoroutineFunction? && awaited)
    ensures s.log != [] ==> s.raw == Lifted(reply)
    ensures s.log == [] ==> s.raw.Err? || s.raw == Ok(Pending)
  {
    match a
    case Missing => Step(Err("TypeError: 'NoneType' object is not callable"), [])
    case NotCallable => Step(Err(NotCallableError), [])
    case Function => Step(Lifted(reply), [Invocation(api, prompt)])
    case CoroutineFunction =>
      if awaited then Step(Lifted(reply), [Invocation(api, prompt)]) else Step(Ok(Pending), [])
  }

  /** A step that follows the requests `log`. */
  function After(log: seq<Invocation>, s: Step): Step {
    Step(s.raw, log + s.log)
  }

  // ---------------------------------------------------------------- parsing the answer

  /** `AgentOutputModel.parse_obj(json.loads(str(raw))).dict()`, or the exception it raises. */
  function Interpreted(raw: Raw): Result<Dict> {
    match Loads(RawText(raw))
    case Err(e) => Err(e)
    case Ok(v) => Validate(v)
  }

  /** The result that wraps an answer that failed to parse or validate. */
  function ErrorResult(raw: Raw, error: string): Dict {
    map["overview" := JString(RawText(raw)), "recommendations" := JArray([]), "risks" := JArray([]),
        "confidence" := ZeroConfidence, "_error" := JString(error)]
  }

  /** Lines 149-159: the validated answer, or the error result. */
  function Settled(raw: Raw): Dict {
    match Interpreted(raw)
    case Ok(d) => d
    case Err(e) => ErrorResult(raw, e)
  }

  /** Lines 207-224: the validated answer with the compliance step, or the error result with it. */
  function Reviewed(raw: Raw): (r: Result<Dict>)
    ensures r.Ok?
  {
    var attempt := match Interpreted(raw) case Err(e) => Err(e) case Ok(d) => Checked(d);
    match attempt
    case Ok(d) => Ok(d)
    case Err(e) =>
      NoRecommendations(ErrorResult(raw, e));
      Checked(ErrorResult(raw, e))
  }

  /** A decoded value that passes the schema and then the compliance step. */
  function Approved(v: Json): Option<Dict> {
    match Validate(v)
    case Err(_) => None
    case Ok(d) => match Checked(d) case Err(_) => None case Ok(d2) => Some(d2)
  }

  // ---------------------------------------------------------------- analyze

  /** Lines 84-134: the first attempt of `analyze`. */
  function SyncFirst(c: Client, loopRunning: bool, prompt: string, reply: Result<Json>): Step {
    if Callable(c.asyncGenerate) && !loopRunning then Invoke(c.asyncGenerate, true, AsyncGenerate, prompt, reply)
    else if c.generate.Missing? then Step(Err(NoGenerate), [])
    else Invoke(c.generate, !Callable(c.asyncGenerate) && !loopRunning, Generate, prompt, reply)
  }

  /** Lines 135-141: after an exception, `generate` once more, never awaited. */
  function SyncRetry(c: Client, prompt: string, reply: Result<Json>): Step {
    if c.generate.Missing? then Step(Err(NoGenerate), []) else Invoke(c.generate, false, Generate, prompt, reply)
  }

  /** The raw answer of `analyze`, after at most one retry. */
  function SyncAnswer(c: Client, loopRunning: bool, prompt: string, backend: nat -> Result<Json>): Step {
    var first := SyncFirst(c, loopRunning, prompt, backend(0));
    if first.raw.Ok? then first else After(first.log, SyncRetry(c, prompt, backend(|first.log|)))
  }

  /** What `analyze` returns, and the requests it ran. */
  function Analyzed(client: Option<Client>, t: PromptTemplate, fs: FinancialStatement, docs: seq<string>,
                    loopRunning: bool, backend: nat -> Result<Json>): (Dict, seq<Invocation>)
  {
    var prompt := BuildPrompt(t, fs, NormaliseDocs(Strings(docs)));
    if client.None? then (RuleFallback(fs), [])
    else
      var s := SyncAnswer(client.value, loopRunning, prompt, backend);
      if s.raw.Err? then (RuleFallback(fs), s.log) else (Settled(s.raw.value), s.log)
  }

  /** Lines 84-146 up to the rule-based fallback: the first attempt and, after an exception, `generate` once more. */
  method Answer(c: Client, loopRunning: bool, prompt: string, backend: nat -> Result<Json>) returns (s: Step)
    ensures s == SyncAnswer(c, loopRunning, prompt, backend)
  {
    var raw: Result<Raw>;
    var log: seq<Invocation> := [];
    if Callable(c.asyncGenerate) {
      if loopRunning {
        if c.generate.Missing? {
          raw := Err(NoGenerate);
        } else {
          var first := Invoke(c.generate, false, Generate, prompt, backend(0));
          raw, log := first.raw, first.log;
        }
      } else {
        var first := Invoke(c.asyncGenerate, true, AsyncGenerate, prompt, backend(0));
        raw, log := first.raw, first.log;
      }
    } else if c.generate.Missing? {
      raw := Err(NoGenerate);
    } else {
      // `maybe` is awaited only when no loop is running; otherwise `generate` is called once more, not awaited
      var first := Invoke(c.generate, !loopRunning, Generate, prompt, backend(0));
      raw, log := first.raw, first.log;
    }
    if raw.Err? {
      if c.generate.Missing? {
        raw := Err(NoGenerate);
      } else {
        var second := Invoke(c.generate, false, Generate, prompt, backend(|log|));
        raw, log := second.raw, log + second.log;
      }
    }
    s := Step(raw, log);
  }

  /** Lines 149-159: the answer parsed and validated, or wrapped in the error result. */
  method Settle(raw: Raw) returns (d: Dict)
    ensures d == Settled(raw)
  {
    var model := Interpreted(raw);
    if model.Err? {
      return ErrorResult(raw, model.error);
    }
    d := model.value;
  }

  /**
   * At most two requests, each with the prompt; the second one is always
   * `generate`, and with a loop already running `async_generate` is never invoked.
   */
  lemma SyncRequests(c: Client, loopRunning: bool, prompt: string, backend: nat -> Result<Json>)
    ensures var log := SyncAnswer(c, loopRunning, prompt, backend).log;
      && |log| <= 2
      && (forall k | 0 <= k < |log| :: log[k].prompt == prompt)
      && (|log| == 2 ==> log[1].api == Generate)
      && (loopRunning ==> forall k | 0 <= k < |log| :: log[k].api == Generate)
  {
  }

  /** The requests of `analyze`: none without a client, and otherwise as `SyncRequests` states with the built prompt. */
  lemma AnalyzeRequests(client: Option<Client>, t: PromptTemplate, fs: FinancialStatement, docs: seq<string>,
                        loopRunning: bool, backend: nat -> Result<Json>)
    ensures var log := Analyzed(client, t, fs, docs, loopRunning, backend).1;
      && |log| <= 2
      && (forall k | 0 <= k < |log| :: log[k].prompt == BuildPrompt(t, fs, docs))
      && (|log| == 2 ==> log[1].api == Generate)
      && (loopRunning ==> forall k | 0 <= k < |log| :: log[k].api == Generate)
      && (client.None? ==> log == [])
  {
    NormaliseStrings(docs);
    if client.Some? {
      SyncRequests(client.value, loopRunning, BuildPrompt(t, fs, docs), backend);
    }
  }

  /**
   * The rule-based fallback exactly when there is no client or both attempts
   * raised; otherwise the answer as `Settled` makes it.
   */
  lemma AnalyzeOutcome(client: Option<Client>, t: PromptTemplate, fs: FinancialStatement, docs: seq<string>,
                       loopRunning: bool, backend: nat -> Result<Json>)
    ensures var r := Analyzed(client, t, fs, docs, loopRunning, backend).0;
      var prompt := BuildPrompt(t, fs, docs);
      if client.None? || SyncAnswer(client.value, loopRunning, prompt, backend).raw.Err? then r == RuleFallback(fs)
      else r == Settled(SyncAnswer(client.value, loopRunning, prompt, backend).raw.value)
  {
    NormaliseStrings(docs);
  }

  lemma ErrorResultFields(raw: Raw, error: string)
    ensures var d := ErrorResult(raw, error);
      && "_error" in d && d["_error"] == JString(error)
      && d["overview"] == JString(RawText(raw))
      && d["recommendations"] == JArray([]) && d["risks"] == JArray([])
      && NumValue(d["confidence"]) == 0.0
  {
    assert NumValue(ZeroConfidence) == 0.0;
  }

  /**
   * A text that fails to parse or validate is kept as the overview, with no
   * recommendations, no risks, confidence 0.0 and the error; `_error` is
   * there exactly then.
   */
  lemma SettledError(raw: Raw)
    ensures "_error" in Settled(raw) <==> Interpreted(raw).Err?
    ensures Interpreted(raw).Err? ==>
      && Settled(raw)["overview"] == JString(RawText(raw))
      && Settled(raw)["recommendations"] == JArray([]) && Settled(raw)["risks"] == JArray([])
      && NumValue(Settled(raw)["confidence"]) == 0.0
      && Settled(raw)["_error"] == JString(Interpreted(raw).error)
  {
    match Interpreted(raw)
    case Err(e) =>
      ErrorResultFields(raw, e);
    case Ok(d) =>
      assert d.Keys == {"overview", "recommendations", "risks", "confidence"};
  }

  /** The four fields with their types, and neither compliance key. */
  predicate Shaped(r: Dict) {
    && {"overview", "recommendations", "risks", "confidence"} <= r.Keys
    && r["overview"].JString? && IsStringList(r["recommendations"]) && IsStringList(r["risks"])
    && IsConfidence(r["confidence"])
    && DisclaimerKey !in r && ReviewKey !in r
  }

  lemma RuleFallbackShaped(fs: FinancialStatement)
    ensures Shaped(RuleFallback(fs))
  {
    assert NumValue(SixTenths) == 0.6;
  }

  lemma ValidatedShaped(v: Json)
    requires Validate(v).Ok?
    ensures Shaped(Validate(v).value)
  {
    assert Conforms(v.fields);
  }

  lemma ErrorResultShaped(raw: Raw, error: string)
    ensures Shaped(ErrorResult(raw, error))
  {
    ErrorResultFields(raw, error);
  }

  lemma SettledShaped(raw: Raw)
    ensures Shaped(Settled(raw))
  {
    match Interpreted(raw)
    case Ok(d) =>
      ValidatedShaped(Loads(RawText(raw)).value);
    case Err(e) =>
      ErrorResultShaped(raw, e);
  }

  /** Every result of `analyze` has the four fields with their types, and no compliance keys. */
  lemma AnalyzeShape(client: Option<Client>, t: PromptTemplate, fs: FinancialStatement, docs: seq<string>,
                     loopRunning: bool, backend: nat -> Result<Json>)
    ensures Shaped(Analyzed(client, t, fs, docs, loopRunning, backend).0)
  {
    AnalyzeOutcome(client, t, fs, docs, loopRunning, backend);
    RuleFallbackShaped(fs);
    var prompt := BuildPrompt(t, fs, docs);
    if client.Some? && SyncAnswer(client.value, loopRunning, prompt, backend).raw.Ok? {
      SettledShaped(SyncAnswer(client.value, loopRunning, prompt, backend).raw.value);
    }
  }

  // ---------------------------------------------------------------- analyze_async

  /** Lines 183-204: the raw answer of `analyze_async`; an exception of the last call propagates. */
  function AsyncAnswer(c: Client, prompt: string, backend: nat -> Result<Json>): Step {
    if Callable(c.asyncGenerate) then
      var first := Invoke(c.asyncGenerate, true, AsyncGenerate, prompt, backend(0));
      if first.raw.Ok? then first
      else if c.generate.Missing? then Step(Ok(Received(JNull)), first.log)
      else After(first.log, Invoke(c.generate, false, Generate, prompt, backend(|first.log|)))
    else if c.generate.Missing? then Step(Ok(Received(JNull)), [])
    else Invoke(c.generate, false, Generate, prompt, backend(0))
  }

  /** What `analyze_async` returns or raises, and the requests it ran. */
  function AnalyzedAsync(client: Option<Client>, t: PromptTemplate, fs: FinancialStatement, docs: seq<string>,
                         backend: nat -> Result<Json>): (Result<Dict>, seq<Invocation>)
  {
    var s := AsyncAnswer(client.GetOr(NoClient), BuildPrompt(t, fs, docs), backend);
    if s.raw.Err? then (Err(s.raw.error), s.log) else (Reviewed(s.raw.value), s.log)
  }

  /** Lines 183-204: `async_generate` awaited, and `generate` after it raises or in its place. */
  method AnswerAsync(c: Client, prompt: string, backend: nat -> Result<Json>) returns (s: Step)
    ensures s == AsyncAnswer(c, prompt, backend)
  {
    var raw: Raw := Received(JNull);
    var log: seq<Invocation> := [];
    if Callable(c.asyncGenerate) {
      var first := Invoke(c.asyncGenerate, true, AsyncGenerate, prompt, backend(0));
      log := first.log;
      if first.raw.Ok? {
        raw := first.raw.value;
      } else if !c.generate.Missing? {
        var second := Invoke(c.generate, false, Generate, prompt, backend(|log|));
        log := log + second.log;
        if second.raw.Err? {
          return Step(second.raw, log);
        }
        raw := second.raw.value;
      }
    } else if !c.generate.Missing? {
      // `run_in_executor` calls `generate` in a thread; a coroutine it returns is not awaited
      var first := Invoke(c.generate, false, Generate, prompt, backend(0));
      log := first.log;
      if first.raw.Err? {
        return Step(first.raw, log);
      }
      raw := first.raw.value;
    }
    s := Step(Ok(raw), log);
  }

  /** Lines 207-224: as `Settle`, with the compliance step on either result. */
  method Review(raw: Raw) returns (r: Result<Dict>)
    ensures r == Reviewed(raw)
  {
    var result := Interpreted(raw);
    if result.Ok? {
      var checked := CheckCompliance(result.value);
      if checked.Ok? {
        return checked;
      }
      result := Err(checked.error);
    }
    var fallback := ErrorResult(raw, result.error);
    r := CheckCompliance(fallback);
  }

  /** A result of the compliance step carries the disclaimer and a review flag. */
  predicate Annotates(d: Dict) {
    DisclaimerKey in d && d[DisclaimerKey] == JString(Disclaimer) && ReviewKey in d && d[ReviewKey].JBool?
  }

  lemma CheckedAnnotates(d: Dict)
    requires Checked(d).Ok?
    ensures Annotates(Checked(d).value)
    ensures Checked(d).value.Keys == d.Keys + {DisclaimerKey, ReviewKey}
  {
  }

  /** At most two requests, each with the prompt; an exception can only come from `generate`. */
  lemma AsyncRequests(c: Client, prompt: string, backend: nat -> Result<Json>)
    ensures var s := AsyncAnswer(c, prompt, backend);
      && |s.log| <= 2
      && (forall k | 0 <= k < |s.log| :: s.log[k].prompt == prompt)
      && (s.raw.Err? ==> !c.generate.Missing?)
  {
  }

  /** The error result has no recommendations, so the compliance step passes it unflagged. */
  lemma ErrorResultChecked(raw: Raw, error: string)
    ensures Checked(ErrorResult(raw, error)) == Ok(Annotated(ErrorResult(raw, error), false))
  {
    NoRecommendations(ErrorResult(raw, error));
  }

  /** Both results of the parse step go through the compliance step. */
  lemma ReviewedAnnotates(raw: Raw)
    ensures Annotates(Reviewed(raw).value)
  {
    match Interpreted(raw)
    case Ok(d) =>
      if Checked(d).Ok? {
        CheckedAnnotates(d);
      } else {
        ErrorResultChecked(raw, Checked(d).error);
      }
    case Err(e) =>
      ErrorResultChecked(raw, e);
  }

  /**
   * `analyze_async` raises only what `generate` raised, after at most two
   * requests; whatever it returns has been through the compliance step.
   */
  lemma AnalyzeAsyncOutcome(client: Option<Client>, t: PromptTemplate, fs: FinancialStatement, docs: seq<string>,
                            backend: nat -> Result<Json>)
    ensures var (r, log) := AnalyzedAsync(client, t, fs, docs, backend);
      && |log| <= 2
      && (forall k | 0 <= k < |log| :: log[k].prompt == BuildPrompt(t, fs, docs))
      && (r.Err? ==> !client.GetOr(NoClient).generate.Missing?)
      && (r.Ok? ==> Annotates(r.value))
  {
    var s := AsyncAnswer(client.GetOr(NoClient), BuildPrompt(t, fs, docs), backend);
    AsyncRequests(client.GetOr(NoClient), BuildPrompt(t, fs, docs), backend);
    if s.raw.Ok? {
      ReviewedAnnotates(s.raw.value);
    }
  }

  /** An answer that fails to parse or validate gives the error result, checked and not flagged. */
  lemma ReviewedError(raw: Raw)
    requires Interpreted(raw).Err?
    ensures Reviewed(raw) == Ok(Annotated(ErrorResult(raw, Interpreted(raw).error), false))
  {
    ErrorResultChecked(raw, Interpreted(raw).error);
  }

  // ---------------------------------------------------------------- analyze_stream_async

  /**
   * What the streaming call delivers: it raises, it returns something that
   * cannot be iterated asynchronously, or it yields these chunks before it
   * ends or raises.
   */
  datatype StreamReply = Refused(error: string) | NotIterable | Yields(chunks: seq<string>)

  /** A fed value that passes the schema and then the compliance step. */
  function Accepted(obj: Option<Json>): Option<Dict> {
    if obj.None? then None else Approved(obj.value)
  }

  /** The `async for` loop from chunk `i` on, with `buffer` in the assembler: the first accepted value. */
  function StreamedFrom(buffer: string, chunks: seq<string>, i: nat): Option<Dict>
    requires i <= |chunks|
    decreases |chunks| - i
  {
    if i == |chunks| then None
    else
      var fed := FeedSpec(buffer, DefaultMaxBuffer, chunks[i]);
      if Accepted(fed.0).Some? then Accepted(fed.0) else StreamedFrom(fed.1, chunks, i + 1)
  }

  /** Lines 290-321: `async_generate` once, then the rule-based fallback, each with the compliance step. */
  function StreamRetry(c: Client, fs: FinancialStatement, prompt: string, backend: nat -> Result<Json>)
    : (Result<Dict>, seq<Invocation>)
  {
    var s := if Callable(c.asyncGenerate) then Invoke(c.asyncGenerate, true, AsyncGenerate, prompt, backend(0))
             else Step(Err(""), []);
    var answer := if s.raw.Err? then None
                  else match Loads(RawText(s.raw.value)) case Err(_) => None case Ok(v) => Approved(v);
    if answer.Some? then (Ok(answer.value), s.log) else (Checked(RuleFallback(fs)), s.log)
  }

  /** What `analyze_stream_async` returns or raises, and the requests it ran. */
  function AnalyzedStream(client: Option<Client>, t: PromptTemplate, fs: FinancialStatement, docs: seq<string>,
                          stream: StreamReply, backend: nat -> Result<Json>): (Result<Dict>, seq<Invocation>)
  {
    var c := client.GetOr(NoClient);
    var prompt := BuildPrompt(t, fs, NormaliseDocs(Strings(docs)));
    if !Callable(c.streamGenerate) then AnalyzedAsync(client, t, fs, docs, backend)
    else
      var found := if stream.Yields? then StreamedFrom("", stream.chunks, 0) else None;
      var started := [Invocation(StreamGenerate, prompt)];
      if found.Some? then (Ok(found.value), started)
      else
        var retried := StreamRetry(c, fs, prompt, backend);
        (retried.0, started + retried.1)
  }

  /** Lines 272-281: a value from the assembler, validated and then checked; `None` when either step raises. */
  method Offer(obj: Option<Json>) returns (d: Option<Dict>)
    ensures d == Accepted(obj)
  {
    if obj.None? {
      return None;
    }
    var model := Validate(obj.value);
    if model.Err? {
      return None;
    }
    var checked := CheckCompliance(model.value);
    d := if checked.Ok? then Some(checked.value) else None;
  }

  lemma StreamedStep(buffer: string, chunks: seq<string>, i: nat, obj: Option<Json>, rest: string)
    requires i < |chunks| && (obj, rest) == FeedSpec(buffer, DefaultMaxBuffer, chunks[i])
    ensures StreamedFrom(buffer, chunks, i) == if Accepted(obj).Some? then Accepted(obj) else StreamedFrom(rest, chunks, i + 1)
  {
  }

  /** Lines 256-287: one assembler fed chunk after chunk until a value passes the schema and the compliance step. */
  method StreamFirst(chunks: seq<string>) returns (d: Option<Dict>)
    ensures d == StreamedFrom("", chunks, 0)
  {
    var builder := new StreamJSONBuilder(DefaultMaxBuffer);
    var i := 0;
    while i < |chunks|
      invariant 0 <= i <= |chunks|
      invariant builder.maxBuffer == DefaultMaxBuffer
      invariant StreamedFrom("", chunks, 0) == StreamedFrom(builder.buffer, chunks, i)
    {
      ghost var before := builder.buffer;
      var obj := builder.Feed(chunks[i]);
      StreamedStep(before, chunks, i, obj, builder.buffer);
      d := Offer(obj);
      if d.Some? {
        return;
      }
      i := i + 1;
    }
    d := None;
  }

  /** Lines 289-321: `async_generate` once more, then the rule-based fallback, each through the compliance step. */
  method RetryStream(c: Client, fs: FinancialStatement, prompt: string, backend: nat -> Result<Json>)
    returns (r: Result<Dict>, log: seq<Invocation>)
    ensures (r, log) == StreamRetry(c, fs, prompt, backend)
  {
    log := [];
    if Callable(c.asyncGenerate) {
      var s := Invoke(c.asyncGenerate, true, AsyncGenerate, prompt, backend(0));
      log := s.log;
      if s.raw.Ok? {
        var parsed := Loads(RawText(s.raw.value));
        if parsed.Ok? {
          var accepted := Offer(Some(parsed.value));
          if accepted.Some? {
            return Ok(accepted.value), log;
          }
        }
      }
    }
    r := CheckCompliance(RuleFallback(fs));
  }

  /** Whatever the loop returns passed the schema and then the compliance step. */
  lemma {:induction false} StreamedApproved(buffer: string, chunks: seq<string>, i: nat)
    requires i <= |chunks|
    ensures var d := StreamedFrom(buffer, chunks, i);
      d.Some? ==> Annotates(d.value) && d.value.Keys == {"overview", "recommendations", "risks", "confidence", DisclaimerKey, ReviewKey}
    decreases |chunks| - i
  {
    if i < |chunks| {
      var fed := FeedSpec(buffer, DefaultMaxBuffer, chunks[i]);
      StreamedStep(buffer, chunks, i, fed.0, fed.1);
      if Accepted(fed.0).Some? {
        ApprovedAnnotates(fed.0.value);
      } else {
        StreamedApproved(fed.1, chunks, i + 1);
      }
    }
  }

  lemma ApprovedAnnotates(v: Json)
    requires Approved(v).Some?
    ensures Annotates(Approved(v).value)
    ensures Approved(v).value.Keys == {"overview", "recommendations", "risks", "confidence", DisclaimerKey, ReviewKey}
  {
    CheckedAnnotates(Validate(v).value);
  }

  /** Without `async_stream_generate`, exactly `analyze_async`. */
  lemma StreamUnsupported(client: Option<Client>, t: PromptTemplate, fs: FinancialStatement, docs: seq<string>,
                          stream: StreamReply, backend: nat -> Result<Json>)
    requires !Callable(client.GetOr(NoClient).streamGenerate)
    ensures AnalyzedStream(client, t, fs, docs, stream, backend) == AnalyzedAsync(client, t, fs, docs, backend)
  {
  }

  /** The retry after the stream never raises: at most one `async_generate`, and a checked result. */
  lemma StreamRetryOutcome(c: Client, fs: FinancialStatement, prompt: string, backend: nat -> Result<Json>)
    ensures var (r, log) := StreamRetry(c, fs, prompt, backend);
      && r.Ok? && Annotates(r.value)
      && |log| <= 1 && (|log| == 1 ==> log[0] == Invocation(AsyncGenerate, prompt))
  {
    var s := if Callable(c.asyncGenerate) then Invoke(c.asyncGenerate, true, AsyncGenerate, prompt, backend(0))
             else Step(Err(""), []);
    if s.raw.Ok? && Loads(RawText(s.raw.value)).Ok? && Approved(Loads(RawText(s.raw.value)).value).Some? {
      ApprovedAnnotates(Loads(RawText(s.raw.value)).value);
    } else {
      RuleFallbackReviewed(fs);
    }
  }

  /**
   * With streaming, `analyze_stream_async` never raises: it returns the first
   * accepted streamed value, or else the answer of one `async_generate`, or
   * else the rule-based fallback, always through the compliance step and
   * after at most one request beside the stream.
   */
  lemma StreamOutcome(client: Option<Client>, t: PromptTemplate, fs: FinancialStatement, docs: seq<string>,
                      stream: StreamReply, backend: nat -> Result<Json>)
    requires Callable(client.GetOr(NoClient).streamGenerate)
    ensures var (r, log) := AnalyzedStream(client, t, fs, docs, stream, backend);
      && r.Ok? && Annotates(r.value)
      && 1 <= |log| <= 2 && log[0] == Invocation(StreamGenerate, BuildPrompt(t, fs, docs))
      && (|log| == 2 ==> log[1] == Invocation(AsyncGenerate, BuildPrompt(t, fs, docs)))
  {
    NormaliseStrings(docs);
    if stream.Yields? {
      StreamedApproved("", stream.chunks, 0);
    }
    StreamRetryOutcome(client.GetOr(NoClient), fs, BuildPrompt(t, fs, docs), backend);
  }

  /** A stream whose values are all refused, or that yields nothing, leaves the choice to the retry. */
  lemma StreamSkipsRefused(buffer: string, chunks: seq<string>, i: nat)
    requires i < |chunks| && Accepted(FeedSpec(buffer, DefaultMaxBuffer, chunks[i]).0).None?
    ensures StreamedFrom(buffer, chunks, i) == StreamedFrom(FeedSpec(buffer, DefaultMaxBuffer, chunks[i]).1, chunks, i + 1)
  {
  }

  // ---------------------------------------------------------------- the offline model client

  /** `DummyModelClient.generate`: a fixed analysis in JSON, written with `json.dumps`. */
  function DummyAnalysis(): Json {
    JObject([
      ("overview", JString("基于输入的简要概述（模拟）")),
      ("recommendations", JArray([JString("优先还款"), JString("建立应急基金")])),
      ("risks", JArray([JString("高负债风险")])),
      ("confidence", JFloat(8, -1))])
  }

  function DummyText(): string {
    Dumps(DummyAnalysis(), true)
  }

  /** A backend that always answers `text`, as the offline clients do. */
  function Answers(text: string): nat -> Result<Json> {
    _ => Ok(JString(text))
  }

  /** The analysis of the offline client passes the schema. */
  lemma DummyAnalysisValid()
    ensures Validate(DummyAnalysis()).Ok?
  {
    assert NumValue(JFloat(8, -1)) == 0.8;
    ValidateFour(JString("基于输入的简要概述（模拟）"), JArray([JString("优先还款"), JString("建立应急基金")]),
                 JArray([JString("高负债风险")]), JFloat(8, -1));
  }

  /** The text of the offline client decodes to its analysis. */
  lemma DummyTextDecodes()
    ensures Interpreted(Received(JString(DummyText()))) == Validate(DummyAnalysis())
  {
    LoadsDumps(DummyAnalysis(), true);
  }

  /** The analysis of the default local client passes the schema. */
  lemma DummyLocalAnalysisValid()
    ensures Validate(DummyLocalAnalysis()).Ok?
  {
    assert NumValue(JFloat(75, -2)) == 0.75;
    ValidateFour(JString("（模拟）基于检索与输入的摘要"), JArray([JString("优先还款"), JString("检查利率并优化贷款结构")]),
                 JArray([JString("高利率风险")]), JFloat(75, -2));
  }

  /** The text of the default local client decodes to its analysis. */
  lemma DummyLocalTextDecodes()
    ensures Interpreted(Received(JString(DummyLocalText()))) == Validate(DummyLocalAnalysis())
  {
    LoadsDumps(DummyLocalAnalysis(), true);
  }

  /** A client that has only `generate`, always answering `x`: one `generate`, and `x`. */
  lemma SyncAnswering(loopRunning: bool, prompt: string, x: string)
    ensures SyncAnswer(DummyClient, loopRunning, prompt, Answers(x))
         == Step(Ok(Received(JString(x))), [Invocation(Generate, prompt)])
  {
  }

  /** The default local client, always answering `x`: the awaited coroutine unless a loop runs, else `generate`. */
  lemma LocalSyncAnswering(loopRunning: bool, prompt: string, x: string)
    ensures SyncAnswer(LocalDummyClient, loopRunning, prompt, Answers(x))
         == Step(Ok(Received(JString(x))), [Invocation(if loopRunning then Generate else AsyncGenerate, prompt)])
  {
  }

  /** With a client that has only `generate` and always answers `x`: one `generate`, and `x` settled. */
  lemma AnalyzeAnswering(t: PromptTemplate, fs: FinancialStatement, docs: seq<string>, loopRunning: bool, x: string)
    ensures Analyzed(Some(DummyClient), t, fs, docs, loopRunning, Answers(x))
         == (Settled(Received(JString(x))), [Invocation(Generate, BuildPrompt(t, fs, docs))])
  {
    NormaliseStrings(docs);
    SyncAnswering(loopRunning, BuildPrompt(t, fs, docs), x);
  }

  /** With the default local client always answering `x`: one request, and `x` settled. */
  lemma AnalyzeLocalAnswering(t: PromptTemplate, fs: FinancialStatement, docs: seq<string>, loopRunning: bool, x: string)
    ensures Analyzed(Some(LocalDummyClient), t, fs, docs, loopRunning, Answers(x))
         == (Settled(Received(JString(x))),
             [Invocation(if loopRunning then Generate else AsyncGenerate, BuildPrompt(t, fs, docs))])
  {
    NormaliseStrings(docs);
    LocalSyncAnswering(loopRunning, BuildPrompt(t, fs, docs), x);
  }

  /** `analyze` with `DummyModelClient`: one `generate`, and its analysis as the result. */
  lemma AnalyzeDummy(t: PromptTemplate, fs: FinancialStatement, docs: seq<string>, loopRunning: bool)
    ensures var (r, log) := Analyzed(Some(DummyClient), t, fs, docs, loopRunning, Answers(DummyText()));
      Validate(DummyAnalysis()) == Ok(r) && log == [Invocation(Generate, BuildPrompt(t, fs, docs))]
  {
    AnalyzeAnswering(t, fs, docs, loopRunning, DummyText());
    DummyAnalysisValid();
    DummyTextDecodes();
  }

  /** `analyze` with the default local client: one request, and its analysis as the result. */
  lemma AnalyzeLocalDummy(t: PromptTemplate, fs: FinancialStatement, docs: seq<string>, loopRunning: bool)
    ensures var (r, log) := Analyzed(Some(LocalDummyClient), t, fs, docs, loopRunning, Answers(DummyLocalText()));
      && Validate(DummyLocalAnalysis()) == Ok(r)
      && log == [Invocation(if loopRunning then Generate else AsyncGenerate, BuildPrompt(t, fs, docs))]
  {
    AnalyzeLocalAnswering(t, fs, docs, loopRunning, DummyLocalText());
    DummyLocalAnalysisValid();
    DummyLocalTextDecodes();
  }

  // ---------------------------------------------------------------- the agent

  const ExampleDocs: seq<string> := ["示例法规片段：消费者债务相关法律条款摘要", "示例金融建议：债务重组与利率优化最佳实践"]

  class Agent {
    var client: Option<Client>
    var retriever: InMemoryRetriever?
    const template: PromptTemplate

    /** Without a client the local dummy client; without a retriever one over the two example documents. */
    constructor(client: Option<Client>, retriever: InMemoryRetriever?)
      ensures this.client == Some(client.GetOr(LocalDummyClient))
      ensures retriever != null ==> this.retriever == retriever
      ensures retriever == null ==> this.retriever != null && fresh(this.retriever) && this.retriever.docs == ExampleDocs
      ensures template == DefaultTemplate
    {
      this.client := Some(client.GetOr(LocalDummyClient));
      template := DefaultTemplate;
      if retriever != null {
        this.retriever := retriever;
      } else {
        var examples := new InMemoryRetriever(Some(ExampleDocs));
        this.retriever := examples;
      }
    }

    /** `_retrieve(query)`: the five best documents, or none without a retriever. */
    function Retrieved(fs: FinancialStatement): (docs: seq<string>)
      reads this, retriever
      ensures |docs| <= 5
    {
      if retriever != null then retriever.Get(Query(fs), 5) else []
    }

    /** `analyze`: retrieval, the prompt, the model call with its retry, and the parsed answer or a fallback. */
    method Analyze(fs: FinancialStatement, loopRunning: bool, backend: nat -> Result<Json>)
      returns (r: Dict, log: seq<Invocation>)
      ensures (r, log) == Analyzed(client, template, fs, Retrieved(fs), loopRunning, backend)
    {
      var docs := NormaliseDocs(Strings(Retrieved(fs)));
      var prompt := BuildPrompt(template, fs, docs);
      if client.None? {
        return RuleFallback(fs), [];
      }
      var s := Answer(client.value, loopRunning, prompt, backend);
      log := s.log;
      if s.raw.Err? {
        r := RuleFallback(fs);
        return;
      }
      r := Settle(s.raw.value);
    }

    /** `analyze_async`: retrieval, the prompt, the awaited model call, and the checked answer. */
    method AnalyzeAsync(fs: FinancialStatement, backend: nat -> Result<Json>)
      returns (r: Result<Dict>, log: seq<Invocation>)
      ensures (r, log) == AnalyzedAsync(client, template, fs, Retrieved(fs), backend)
    {
      var docs := Retrieved(fs);
      var prompt := BuildPrompt(template, fs, docs);
      var s := AnswerAsync(client.GetOr(NoClient), prompt, backend);
      log := s.log;
      if s.raw.Err? {
        r := Err(s.raw.error);
        return;
      }
      r := Review(s.raw.value);
    }

    /** `analyze_stream_async`: the streamed value, else one `async_generate`, else the rule-based fallback. */
    method AnalyzeStreamAsync(fs: FinancialStatement, stream: StreamReply, backend: nat -> Result<Json>)
      returns (r: Result<Dict>, log: seq<Invocation>)
      ensures (r, log) == AnalyzedStream(client, template, fs, Retrieved(fs), stream, backend)
    {
      var docs := NormaliseDocs(Strings(Retrieved(fs)));
      var prompt := BuildPrompt(template, fs, docs);
      var c := client.GetOr(NoClient);
      if !Callable(c.streamGenerate) {
        r, log := AnalyzeAsync(fs, backend);
        return;
      }
      log := [Invocation(StreamGenerate, prompt)];
      if stream.Yields? {
        var found := StreamFirst(stream.chunks);
        if found.Some? {
          return Ok(found.value), log;
        }
      }
      var retried, more := RetryStream(c, fs, prompt, backend);
      r, log := retried, log + more;
    }
  }
}
