# XCGG Debt AI: a verified model of the analysis back end

This project models, in Dafny, the part of the debt-analysis back end that
turns a user's financial statement into a validated analysis report:

- the incremental JSON assembler `StreamJSONBuilder`, which collects
  event-stream fragments of a model's answer and takes complete JSON values
  out of its buffer;
- the agent `CFPAgent` with its three entry points `analyze`,
  `analyze_async` and `analyze_stream_async`:
  - the prompt they build;
  - the normalisation of the retrieved documents;
  - the chain of model calls with retries across the synchronous,
    asynchronous and streamed interfaces;
  - the parsing and schema validation of the answer;
  - the rule-based fallback;
  - the offline `DummyModelClient`;
- the model clients:
  - the response-envelope parser `_parse_response`;
  - the endpoint URL;
  - the three-attempt retry loop with exponential backoff;
  - the line filter of the streamed client;
  - the inherited `async_generate`;
- the output schema `AgentOutputModel`, the `FinancialStatement` model with
  its field constraints and `debt_ratio`, and the compliance step
  `check_compliance`;
- the in-memory retriever and vector store;
- the ingestion example: sentence chunking, the placeholder embedding and
  loading a store.

A model requires `json.loads`, `JSONDecoder.raw_decode` and `json.dumps`, so the
project also has its own model of those three (modules `JsonDecoder`,
`JsonEncoder`). As in Python's `json` module with its defaults, the decoder reads
the constants `NaN`, `Infinity` and `-Infinity` as the non-finite floats and the
encoder writes them back. It proves `loads(dumps(v)) == v`, and that a decode is
stable when more text is appended.

## Modules

- **`Wrappers`, `Slices`, `Text`:** Python's string and slice operations. These are
  `strip`, `lower` on ASCII letters, `splitlines`, `split`, `join`,
  `rstrip`, `startswith`, `in`, `str(int)` and `s[:k]`.
- **`JsonValues`, `JsonDecoder`, `JsonEncoder`, `JsonRoundTrip`, `JsonStability`:**
  JSON values, dictionary lookup, `str`/`repr`, the decoder, and the encoder with
  the round trip.
- **`StreamParser`, `StreamScenarios`:** the `StreamJSONBuilder` class. Its
  `Feed` method is proved against the function `FeedSpec`. The second module
  replays the repository's stream-parser tests.
- **`ModelClients`:** `_parse_response`, the URL, and the class `GeminiClient`.
  Its `Retry` method keeps a ghost log of the requests sent and of the backoff
  waits.
- **`AgentOutput`, `Financials`, `Compliance`:** the schema, the statement, and the
  compliance step. `CheckCompliance` is the nested keyword loop, proved
  against `Checked`.
- **`Retriever`, `VectorStore`, `Ingest`:** the in-memory stores as classes whose
  methods update their fields, and `simple_chunk` and `ingest_example` as loops.
- **`CfpAgent`:** the agent.

Each entry point is a method of class `Agent`, proved equal to a
specification function: `Analyzed`, `AnalyzedAsync` or `AnalyzedStream`.
Each specification function returns the result together with the log of
backend requests made. Lemmas then state what the source promises about
these functions.

The environment is modelled by parameters:

- **The model client:** its capabilities are the `Client` datatype. Each of
  `generate`, `async_generate` and `async_stream_generate` is missing, not
  callable, a plain function, or a coroutine function.
- **The event loop:** whether it is running is the flag `loopRunning`.
- **The backend:** an oracle `backend: nat -> Result<Json>` gives the
  outcome of the n-th non-streamed request. The stream is a `StreamReply`.
- **HTTP transport:** in the clients, an `Attempt` oracle.

## Model

| member | source | states |
|---|---|---|
| StreamParser.StreamJSONBuilder.constructor | backend/app/services/stream_parser.py:16-19 | a new assembler has an empty buffer and the given cap |
| StreamParser.StreamJSONBuilder.Feed | backend/app/services/stream_parser.py:25-69 | the value returned and the new buffer are exactly `FeedSpec` of the old buffer, the cap and the fragment; the cap is unchanged |
| StreamParser.StreamJSONBuilder.AppendLines | backend/app/services/stream_parser.py:34-42 | the loop appends the cleaned text of every line, in line order and with no separator |
| StreamParser.StreamJSONBuilder.ExtractValue | backend/app/services/stream_parser.py:53-69 | noise before the first `{`/`[` is dropped, and a decoded value is returned with the buffer set to the unconsumed rest |
| StreamParser.StreamJSONBuilder.Reset | backend/app/services/stream_parser.py:71-72 | the buffer becomes empty and the cap is unchanged |
| StreamParser.FindJsonStart | backend/app/services/stream_parser.py:21-23 | the index found holds `{` or `[` and no earlier index does; `None` exactly when neither occurs |
| StreamParser.SliceFrom | backend/app/services/stream_parser.py:51 | Python's `s[k:]` is a suffix of `s` for every integer `k` |
| StreamParser.StripDataPrefixSlice | backend/app/services/stream_parser.py:36 | removing `^\s*data:\s*` strips the leading whitespace, the label and the whitespace after it, and nothing else |
| StreamParser.DoneMarkerIff | backend/app/services/stream_parser.py:39 | the end-marker test holds exactly when the stripped line is `[DONE]` |
| StreamParser.CleanedNext | backend/app/services/stream_parser.py:35-42 | one more line adds its cleaned text, unless that text is empty or the `[DONE]` marker |
| StreamParser.StripDataLabel | backend/app/services/stream_parser.py:36 | whitespace, `data:` and whitespace in front of a payload are removed, leaving the payload |
| StreamParser.AppendedOneLine | backend/app/services/stream_parser.py:32-42 | a fragment without line breaks contributes its one cleaned line |
| StreamParser.AppendedOneTerminatedLine | backend/app/services/stream_parser.py:32-42 | a line ended by a line break contributes the same as the line alone |
| StreamParser.FeedEmpty | backend/app/services/stream_parser.py:44-46 | an empty buffer after appending gives `None` and stays empty |
| StreamParser.CapKeepsLatest | backend/app/services/stream_parser.py:48-51 | after the cap the buffer holds at most `max_buffer` characters, and they are the latest ones; a buffer within the cap, or a cap of 0, keeps the whole buffer |
| StreamParser.CapNegative | backend/app/services/stream_parser.py:49-51 | a negative cap cuts that many characters off the front, as Python's slice does |
| StreamParser.FeedNoOpening | backend/app/services/stream_parser.py:53-56 | with no `{` or `[`, `feed` returns `None` and the buffer is just the capped buffer |
| StreamParser.FeedDecodes | backend/app/services/stream_parser.py:58-69 | the text before the first opening bracket is discarded; a successful decode returns the value and leaves exactly the unconsumed suffix; a failed decode returns `None` with the buffer starting at the bracket |
| StreamParser.FeedRetryIdle | backend/app/services/stream_parser.py:28-30 | after a `feed` that returns `None`, calling `feed('')` again changes nothing and returns `None` |
| StreamParser.DumpsOpens | backend/app/services/stream_parser.py:22 | an encoded object or array starts with an opening bracket |
| StreamParser.ExtractWhole | backend/app/services/stream_parser.py:58-66 | a buffer that starts with a complete encoded object or array yields that value and keeps what follows |
| StreamParser.ExtractPartial | backend/app/services/stream_parser.py:62-69 | a buffer holding a proper, non-empty prefix of an encoded object or array yields nothing and is kept whole |
| StreamParser.FeedDrainsFirst | backend/app/services/stream_parser.py:28-30 | `feed('')` on an encoded object or array followed by more text, all within the cap, returns the value and keeps the rest |
| StreamScenarios.FeedEmptyShrinks | backend/app/services/stream_parser.py:62-66 | a `feed('')` that returns a value makes the buffer strictly shorter |
| StreamScenarios.AppendedContribution | backend/app/services/stream_parser.py:32-42 | what a fragment adds does not depend on the buffer it is appended to |
| StreamScenarios.DrainConcatenated | backend/tools/test_stream_parser.py:40-56 | repeated `feed('')` on concatenated encoded values returns them one per call, in order, and ends with an empty buffer |
| StreamScenarios.LabelledContribution | backend/app/services/stream_parser.py:36-42 | the fragment `data: <payload>` contributes exactly the payload |
| StreamScenarios.PlainContribution | backend/app/services/stream_parser.py:36-42 | a fragment without a label contributes the whole line |
| StreamScenarios.TerminatedContribution | backend/app/services/stream_parser.py:34-42 | `data: <payload>` ended by a line break contributes the payload |
| StreamScenarios.SkippedEmptyLine | backend/app/services/stream_parser.py:37-38 | `data: ` alone contributes nothing |
| StreamScenarios.SkippedDoneLine | backend/app/services/stream_parser.py:39-40 | `data: [DONE]` contributes nothing |
| StreamScenarios.SseSkipped | backend/tests/test_stream_parser_pytest.py:9-13 | the fragments `data: ` and `data: [DONE]` give nothing and leave an empty buffer empty |
| StreamScenarios.SseText | backend/tests/test_stream_parser_pytest.py:10-12 | the object `{"overview": "部分文本", "confidence": 0.9}`, encoded, is the three payloads of the test in order |
| StreamScenarios.SseFirst | backend/tests/test_stream_parser_pytest.py:10 | the opening fragment gives nothing and is buffered |
| StreamScenarios.SseSecond | backend/tests/test_stream_parser_pytest.py:11 | the middle fragment gives nothing and extends the buffer |
| StreamScenarios.SseLast | backend/tests/test_stream_parser_pytest.py:12-22 | the closing fragment completes the object, with overview `部分文本` and confidence 0.9; it is returned and the buffer is emptied |
| StreamScenarios.MultipleFirst | backend/tests/test_stream_parser_pytest.py:43 | `data: {"a": 1}` with a line break yields `{"a": 1}` and leaves nothing |
| StreamScenarios.MultipleSecond | backend/tests/test_stream_parser_pytest.py:44-57 | `data: {"b": 2}` yields `{"b": 2}`, and a later `feed('')` yields nothing |
| StreamScenarios.TwoInOneFeed | backend/tools/test_stream_parser.py:43-50 | the fragment `{"a": 1}{"b": 2}` yields `{"a": 1}` and keeps `{"b": 2}` |
| StreamScenarios.NaNObjectFeed | backend/app/services/stream_parser.py:62-69 | the fragment `{"x": NaN}` into an empty buffer yields the object with its `NaN` member and empties the buffer |
| StreamScenarios.TwoInOneDrain | backend/tools/test_stream_parser.py:48-55 | draining with `feed('')` then yields `{"b": 2}` and empties the buffer |
| StreamScenarios.FeedAll | backend/app/services/stream_parser.py:25-69 | feeding fragments one after another from an empty buffer gives exactly one result per fragment |
| StreamScenarios.FeedPrefixStep | backend/app/services/stream_parser.py:32-69 | a fragment after which the encoded object or array is still incomplete returns nothing and is appended to the buffer as it is |
| StreamScenarios.SplitPrefix | backend/app/services/stream_parser.py:25-69 | fragments that together spell a proper beginning of an encoded object or array each return nothing, and the buffer then holds exactly what they spell |
| StreamScenarios.SplitInvariant | backend/tests/test_stream_parser_pytest.py:25-36 | an encoded object or array cut into any fragments that the cleaning leaves unchanged, the last one non-empty, and no longer than the cap: every fragment but the last returns nothing, the last returns the value, and the buffer ends empty |
| JsonDecoder.RawDecode | backend/app/services/stream_parser.py:63 | the end index of a decode is positive and at most the length of the text |
| JsonDecoder.LoadsIff | backend/app/services/cfp_agent.py:153 | `json.loads` accepts a text exactly when it is one value with only whitespace after it and no byte-order mark, and then returns that value; the constants `NaN`, `Infinity` and `-Infinity` are values |
| JsonDecoder.LoadsNaN | backend/app/services/cfp_agent.py:153 | `json.loads("NaN")` is the float `nan` |
| JsonDecoder.LoadsInfinity | backend/app/services/cfp_agent.py:153 | `json.loads("Infinity")` is the float `inf` |
| JsonDecoder.LoadsNegInfinity | backend/app/services/cfp_agent.py:153 | `json.loads("-Infinity")` is the float `-inf` |
| JsonDecoder.LoadsNotConstant | backend/app/services/cfp_agent.py:153 | a cut-off constant (`-Inf`) or a lower-case one (`nan`) is refused |
| JsonRoundTrip.LoadsDumps | backend/app/services/cfp_agent.py:330-335 | `json.loads(json.dumps(v)) == v`, with or without `ensure_ascii` |
| JsonRoundTrip.RawDecodeDumps | backend/app/services/stream_parser.py:63 | `raw_decode` of an encoded object or array followed by any text returns that value and the index where its text ends |
| JsonRoundTrip.ParseDumps | backend/app/services/stream_parser.py:63 | the text of any value decodes back to that value wherever it occurs, provided a number is not followed by more digits |
| JsonStability.ParseValueStable | backend/app/services/stream_parser.py:62-69 | a decode that succeeds gives the same value and end index when text is appended; for a number this needs a character after it in the text that cannot continue it |
| JsonStability.ProperPrefixFails | backend/app/services/stream_parser.py:67-69 | a proper prefix of a decodable object or array does not decode, which is why an incomplete buffer waits |
| JsonStability.DecodeConcat | backend/app/services/stream_parser.py:62-66 | a text that is exactly one value (not a number) decodes the same with anything after it |
| JsonEncoder.Dumps | backend/app/services/cfp_agent.py:330-335 | the encoding of a value is never empty |
| JsonEncoder.QuotePlain | backend/app/services/model_clients.py:20-25 | without `ensure_ascii`, a plain string is written as itself between quotes |
| JsonValues.LookupBefore | backend/app/services/model_clients.py:73-87 | a dictionary lookup finds a key exactly when some pair has it, and then finds the last binding |
| JsonValues.LookupUnique | backend/app/schemas/agent_output.py:5-9 | a key bound exactly once is found with its value |
| JsonValues.Iterate | backend/app/services/compliance.py:18 | `for x in v` visits a list's items and a string's characters, and raises on numbers, booleans and `None` |
| JsonValues.Str | backend/app/services/cfp_agent.py:153 | `str` of a string is the string itself |
| ModelClients.ParseString | backend/app/services/model_clients.py:69-70 | a string body is returned as it is |
| ModelClients.ParseTextFirst | backend/app/services/model_clients.py:73-74 | a string `text` field wins over every later shape |
| ModelClients.ParseOutputAfterText | backend/app/services/model_clients.py:73-76 | a missing or non-string `text` falls through, so a string `output` is used |
| ModelClients.ParseCandidates | backend/app/services/model_clients.py:77-80 | with neither string field, `candidates[0]['content']` is returned |
| ModelClients.ParseChoiceText | backend/app/services/model_clients.py:81-85 | failing those, `choices[0]['text']` is taken before `message` |
| ModelClients.ParseChoiceMessage | backend/app/services/model_clients.py:86-87 | a message's `content` if truthy, or else `str(message)` |
| ModelClients.ParseFallback | backend/app/services/model_clients.py:88-89 | an envelope with none of the known keys is returned as `str(data)` |
| ModelClients.ParseStringUnlessNested | backend/app/services/model_clients.py:67-89 | the result is a string unless it is taken from a `candidates` or `choices` item |
| ModelClients.Url | backend/app/services/model_clients.py:98 | the URL is the base with its trailing `/` removed, followed by `/generate` |
| ModelClients.UrlTrailingSlash | backend/app/services/model_clients.py:98 | a trailing slash on the base makes no difference |
| ModelClients.UrlOneSlash | backend/app/services/model_clients.py:98 | the path is joined with exactly one slash |
| ModelClients.UrlPlain | backend/app/services/model_clients.py:98 | a base without a trailing slash is kept as it is |
| ModelClients.Backoffs | backend/app/services/model_clients.py:125-128 | the wait after failed attempt k is `0.5 * 2^(k-1)` |
| ModelClients.BackoffSchedule | backend/app/services/model_clients.py:102-103 | the three waits are 0.5, 1 and 2 seconds |
| ModelClients.Failures | backend/app/services/model_clients.py:105-128 | counts the failed attempts before the first reply, at most three; each counted attempt failed, and a count below three ends at a reply |
| ModelClients.Sent | backend/app/services/model_clients.py:105-124 | between one and three requests are sent |
| ModelClients.RetryFirstReply | backend/app/services/model_clients.py:105-124 | a first reply is returned parsed after one request and no wait |
| ModelClients.RetryLaterReply | backend/app/services/model_clients.py:105-128 | the first successful attempt's parsed reply is returned, after one wait per earlier failure and with no further attempts |
| ModelClients.RetryAllFail | backend/app/services/model_clients.py:125-132 | after three failures the last exception is raised, after three requests and waits of 0.5, 1 and 2 seconds |
| ModelClients.GeneratedNoKey | backend/app/services/model_clients.py:93-94 | without a key, the configuration error is raised before any attempt |
| ModelClients.GeminiClient.constructor | backend/app/services/model_clients.py:50-52 | the key is the given one if set, or else the environment's; likewise the base URL; the logs start empty |
| ModelClients.GeminiClient.Retry | backend/app/services/model_clients.py:102-132 | the loop returns `Retried`; it logs one wait per failed attempt and sends the same request `Sent` times |
| ModelClients.GeminiClient.Generate | backend/app/services/model_clients.py:91-132 | returns `Generated`, and `stream=True` returns the same; with a key it sends the URL-and-payload request; without one it sends nothing and waits for nothing |
| ModelClients.GeminiClient.AsyncGenerate | backend/app/services/model_clients.py:10-12 | for the asynchronous client, the same loop under its own library check; for other clients, the inherited delegation that returns exactly what `generate` returns |
| ModelClients.GeminiClient.AsyncStreamGenerate | backend/app/services/model_clients.py:174-214 | it yields the filtered lines and raises the transport error, if any; without a key or the library nothing is requested |
| ModelClients.FilterLines | backend/app/services/model_clients.py:197-211 | yields the payloads of the lines before the first `[DONE]`, in order; an error raised after `[DONE]` is not seen |
| ModelClients.StripLabel | backend/app/services/model_clients.py:200-203 | the line is stripped, and a leading `data:` label is removed with the whitespace after it |
| ModelClients.FirstDone | backend/app/services/model_clients.py:204-210 | finds the first line that ends the stream; no earlier line does |
| ModelClients.PayloadsAppend | backend/app/services/model_clients.py:197-211 | the payloads of two runs of lines are the payloads of each, in order |
| ModelClients.PayloadsBeforeDone | backend/app/services/model_clients.py:204-210 | `[DONE]` itself is never yielded |
| ModelClients.AfterDoneIgnored | backend/app/services/model_clients.py:204-210 | lines after the first `[DONE]` make no difference |
| AgentOutput.AsFloat | backend/app/schemas/agent_output.py:9 | a `float` field holds a float with the same value |
| AgentOutput.Validate | backend/app/schemas/agent_output.py:5-9 | validation succeeds exactly when the object has a string `overview`, string lists `recommendations` and `risks`, and a number `confidence` in [0, 1]; the result has exactly these four keys with their values |
| AgentOutput.MissingFieldRefused | backend/app/schemas/agent_output.py:6-9 | a value without one of the four fields is refused |
| AgentOutput.NonFiniteConfidenceRefused | backend/app/schemas/agent_output.py:9 | a confidence of `nan`, `inf` or `-inf` is refused: it is not in [0, 1] |
| AgentOutput.ConfidenceJustAboveOne | backend/app/schemas/agent_output.py:9 | the confidence `1.00000000000000001`, kept as an exact decimal, is refused |
| AgentOutput.ValidateFour | backend/app/schemas/agent_output.py:5-9 | four well-typed fields validate to exactly those fields |
| AgentOutput.ValidateOwnOutput | backend/app/services/cfp_agent.py:155-156 | a validated dictionary, written back as an object, validates to itself |
| Financials.ValueSign | backend/app/models/financials.py:7-10 | an amount is positive or zero exactly when its coefficient is |
| Financials.ValidateLiabilities | backend/app/models/financials.py:13-19 | liabilities above the assets are accepted, and the value is returned unchanged |
| Financials.Construct | backend/app/models/financials.py:5-19 | a statement is built exactly when assets and income are positive and liabilities and expenses are not negative |
| Financials.DebtRatio | backend/app/models/financials.py:21-25 | the ratio times the assets is the liabilities when the assets are nonzero, and 0.0 when they are zero |
| Financials.DebtRatioValid | backend/app/models/financials.py:7-8 | for a valid statement the ratio is not negative, and it exceeds 1 exactly when the liabilities exceed the assets |
| Financials.DecimalStrWhole | backend/app/services/cfp_agent.py:51 | a whole amount prints as its digits |
| Financials.DecimalStrCents | backend/app/services/cfp_agent.py:51 | an amount in cents prints with the point before the last two digits |
| Compliance.Annotated | backend/app/services/compliance.py:27-30 | only `_disclaimer` and `_needs_legal_review` are written; the disclaimer is the fixed text and every other key keeps its value |
| Compliance.CheckCompliance | backend/app/services/compliance.py:14-30 | the nested loop with its early exits returns `Checked`, including the `TypeError` for a recommendation that is not a string |
| Compliance.ScanStrings | backend/app/services/compliance.py:18-24 | for strings the scan answers whether some recommendation contains some keyword |
| Compliance.NeedsLegalIff | backend/app/services/compliance.py:11-24 | the review flag is set exactly when some recommendation contains one of the five keywords |
| Compliance.NoRecommendations | backend/app/services/compliance.py:17 | absent, `None` or empty recommendations give no review |
| Compliance.CheckedIdempotent | backend/app/services/compliance.py:14-30 | applying the check twice gives the same result as once |
| Compliance.ValidatedPasses | backend/app/services/compliance.py:18-20 | a validated output never makes the check raise |
| Retriever.Matching | backend/app/services/retriever.py:22 | the filter keeps at most as many documents as there are |
| Retriever.MatchingIff | backend/app/services/retriever.py:22 | a document is kept exactly when it is one of the documents and contains the query, ignoring case |
| Retriever.MatchingAppend | backend/app/services/retriever.py:22 | the filter keeps the original order |
| Retriever.MatchingEmptyQuery | backend/app/services/retriever.py:22 | every document matches the empty query |
| Retriever.InMemoryRetriever.constructor | backend/app/services/retriever.py:14-15 | with no list, or an empty one, the retriever starts empty; otherwise it holds the list |
| Retriever.InMemoryRetriever.Add | backend/app/services/retriever.py:17-18 | the text is appended at the end and earlier documents stay in place |
| Retriever.InMemoryRetriever.Get | backend/app/services/retriever.py:20-23 | at most `top_k` results for `top_k >= 0`; the results are the front of the matches in document order when there are any, else the front of the documents, as many as the slice `[:top_k]` keeps for any integer `top_k` |
| Retriever.GetMatches | backend/app/services/retriever.py:22-23 | when something matches, every result is a document that matches |
| Retriever.GetNoMatch | backend/app/services/retriever.py:23 | when nothing matches, the first `top_k` documents come back |
| Retriever.GetEmptyQuery | backend/app/services/retriever.py:22-23 | the empty query returns the first `top_k` documents |
| Retriever.FreshRetrieverFindsAdded | backend/app/services/retriever.py:14-23 | a retriever built with no documents finds a document added afterwards, for any query |
| VectorStore.SquaredDistance | backend/app/services/vectorstore.py:24-25 | the distance is never negative |
| VectorStore.DistanceZipPrefix | backend/app/services/vectorstore.py:25 | only the common-length prefix counts, as with `zip` |
| VectorStore.DistanceSelf | backend/app/services/vectorstore.py:24-25 | a vector is at distance zero from itself |
| VectorStore.Entries | backend/app/services/vectorstore.py:17-18 | entry i is `(ids[i], embeddings[i], metadatas[i])` |
| VectorStore.Appendable | backend/app/services/vectorstore.py:17-18 | counts the entries appended before an index error; short `ids` or `metadatas` stop the loop there |
| VectorStore.InMemoryVectorStore.constructor | backend/app/services/vectorstore.py:13-14 | a new store is empty |
| VectorStore.InMemoryVectorStore.Upsert | backend/app/services/vectorstore.py:16-18 | the entries are appended in order after the existing ones; an `IndexError` is raised exactly when `ids` or `metadatas` is shorter than `embeddings` |
| VectorStore.InMemoryVectorStore.Query | backend/app/services/vectorstore.py:20-29 | returns `top_k` entries, or the whole store when it is smaller, in ascending distance and each a scored entry of the store; reading the store does not change it |
| VectorStore.Scores | backend/app/services/vectorstore.py:27 | one scored entry per stored entry, in store order |
| VectorStore.Insert | backend/app/services/vectorstore.py:28 | insertion adds exactly the one element |
| VectorStore.SortSorted | backend/app/services/vectorstore.py:28 | the sort orders by distance |
| VectorStore.SortPermutes | backend/app/services/vectorstore.py:28 | the sort is a permutation |
| VectorStore.SortStable | backend/app/services/vectorstore.py:28 | the sort is stable: entries at equal distance keep their order |
| VectorStore.HeadOfSorted | backend/app/services/vectorstore.py:28-29 | the first `top_k` of a sorted permutation are sorted and come from the store |
| VectorStore.QueryAll | backend/app/services/vectorstore.py:27-29 | a full query returns every entry once, and ties come in insertion order |
| VectorStore.QueryNearest | backend/app/services/vectorstore.py:27-29 | a query cut to `top_k` is a prefix of the full ranking: the entries it keeps and those it drops make up the store, none dropped is nearer than one kept, and at each distance the kept entries are the first ones in insertion order |
| VectorStore.QueryNearestFirst | backend/app/services/vectorstore.py:27-29 | the first result is no farther than any stored entry |
| Ingest.Sentences | backend/tools/ingest_example.py:17 | no sentence is empty |
| Ingest.SimpleChunk | backend/tools/ingest_example.py:15-29 | the loop over the sentences returns `ChunksOf` |
| Ingest.ChunksNonEmpty | backend/tools/ingest_example.py:17-29 | no chunk is empty |
| Ingest.ChunksNoSentences | backend/tools/ingest_example.py:17-29 | a text without non-blank sentences gives no chunks |
| Ingest.ChunksJoin | backend/tools/ingest_example.py:17-29 | joining the chunks with `。` gives the sentences joined with `。`: order is kept and nothing is lost |
| Ingest.LongSentenceAlone | backend/tools/ingest_example.py:21-26 | a sentence longer than `max_len` forms a chunk of its own, unsplit |
| Ingest.ChunksBound | backend/tools/ingest_example.py:21-26 | a chunk of two or more sentences has at most `max_len + 1` characters |
| Ingest.PackBound | backend/tools/ingest_example.py:21-26 | at every step of the packing loop, each closed chunk and the open one, when made of two or more sentences, is at most `max_len + 1` characters long |
| Ingest.ChunksGreedy | backend/tools/ingest_example.py:21-24 | packing is greedy: a chunk's length plus the first sentence of the next chunk exceeds `max_len` |
| Ingest.GroupMember | backend/tools/ingest_example.py:17-29 | every chunk is made of sentences of the text |
| Ingest.FakeEmbed | backend/tools/ingest_example.py:32-34 | eight equal components, each the sum of the code points mod 100, in [0, 100) |
| Ingest.DocEntries | backend/tools/ingest_example.py:41-43 | one entry per chunk, with id `doc{i}_chunk{j}`, the chunk's embedding and the metadata `{source, text}` |
| Ingest.IngestExample | backend/tools/ingest_example.py:37-45 | a new store holding each document's entries, document after document |
| Ingest.IngestAll | backend/tools/ingest_example.py:39-44 | starting empty, the loop leaves the store holding every document's entries in document order |
| Ingest.IngestDoc | backend/tools/ingest_example.py:40-44 | one document chunked, its lists built and upserted after the earlier documents |
| Ingest.DocLists | backend/tools/ingest_example.py:41-43 | the three lists make `upsert` append exactly the document's entries |
| Ingest.ChunkedDoc | backend/tools/ingest_example.py:39-40 | document i is chunked with the default bound of 500 |
| Ingest.IngestedPrefix | backend/tools/ingest_example.py:39-44 | loading more documents keeps the earlier entries as a prefix |
| Ingest.IngestedEntry | backend/tools/ingest_example.py:39-45 | chunk j of document i sits right after the earlier documents' entries, with its id and metadata |
| Text.Strip | backend/tools/ingest_example.py:17 | `strip` leaves no whitespace at either end and never lengthens |
| Text.Lower | backend/app/services/retriever.py:22 | `lower` maps each character and keeps the length |
| Text.ContainsIff | backend/app/services/retriever.py:22 | `p in s` holds exactly when `p` occurs as a slice of `s` |
| Text.StartsWithIff | backend/app/services/model_clients.py:202 | `startswith` compares the prefix |
| Text.JoinSplit | backend/tools/ingest_example.py:17 | joining a split with the same separator gives the text back |
| Text.RStripChar | backend/app/services/model_clients.py:98 | `rstrip('/')` removes exactly the trailing slashes |
| Text.NatToString | backend/app/services/cfp_agent.py:51 | `str(n)` has no leading zero |
| Text.SplitLinesNoBreak | backend/app/services/stream_parser.py:34 | a text without line breaks is one line, or no lines when empty |
| Text.SplitLinesTerminated | backend/app/services/stream_parser.py:34 | a final line break opens no empty line |
| Slices.Head | backend/app/services/retriever.py:23 | `s[:k]` is a prefix of `s`; it has `k` elements, or all of them when `s` is shorter, and for negative `k` all but the last `-k` |
| CfpAgent.PromptLayout | backend/app/services/cfp_agent.py:41-54 | the prompt starts with the template's head and the input summary, and ends with the template's tail |
| CfpAgent.PromptContext | backend/app/services/cfp_agent.py:53-54 | no documents give an empty context; one document is the context as it is |
| CfpAgent.ContextAppend | backend/app/services/cfp_agent.py:53 | each further document adds `\n---\n` and that document |
| CfpAgent.PromptIncludesDocs | backend/app/services/cfp_agent.py:49-54 | every retrieved document occurs in the prompt |
| CfpAgent.JoinContains | backend/app/services/cfp_agent.py:53 | each joined document occurs in the joined text |
| CfpAgent.Strings | backend/app/services/cfp_agent.py:59 | a retriever's list of texts, as a value with one item per text |
| CfpAgent.NormaliseDocs | backend/app/services/cfp_agent.py:68-72 | a list keeps its length; anything else gives at most one document |
| CfpAgent.NormaliseStrings | backend/app/services/cfp_agent.py:72 | a list of texts is left as it is |
| CfpAgent.NormaliseIdempotent | backend/app/services/cfp_agent.py:68-72 | normalising twice changes nothing |
| CfpAgent.NormaliseSingle | backend/app/services/cfp_agent.py:69-70 | a single text becomes a one-document list; an empty text or `None` gives no documents |
| CfpAgent.RoundHalfEven | backend/app/services/cfp_agent.py:79 | the rounded value is within one half of the number |
| CfpAgent.TwoDigits | backend/app/services/cfp_agent.py:79 | the cents are written with two digits |
| CfpAgent.RatioAboveIff | backend/app/services/cfp_agent.py:80 | for a valid statement the exact ratio exceeds 0.6 exactly when the liabilities exceed 60% of the assets |
| CfpAgent.RatioJustAboveThreshold | backend/app/services/cfp_agent.py:78-81 | liabilities of 60000000000000000001 against assets of 10^20 get the repayment advice, because the exact ratio is above 0.6 |
| CfpAgent.RuleFallbackAdvice | backend/app/services/cfp_agent.py:78-81 | the fallback has the four keys, one recommendation (the high-interest text exactly when the ratio exceeds 0.6, the budget text otherwise), no risks and confidence 0.6 |
| CfpAgent.RuleFallbackConforms | backend/app/services/cfp_agent.py:143-146 | the fallback passes the output schema unchanged |
| CfpAgent.RuleFallbackReviewed | backend/app/services/cfp_agent.py:313-319 | the compliance step never flags the fallback |
| CfpAgent.NotLegal | backend/app/services/compliance.py:11 | a text without the keywords' first characters mentions no keyword |
| CfpAgent.HighInterestAdviceLacks | backend/app/services/cfp_agent.py:80 | the high-interest advice holds none of the keywords' first characters |
| CfpAgent.BudgetAdviceLacks | backend/app/services/cfp_agent.py:80 | the budget advice holds none of the keywords' first characters |
| CfpAgent.Invoke | backend/app/services/cfp_agent.py:98-134 | a call runs a request exactly for a plain function or an awaited coroutine function, and then it gives the backend's reply; a coroutine that is not awaited gives a pending object and no request |
| CfpAgent.Answer | backend/app/services/cfp_agent.py:84-141 | the first attempt and, after an exception, one more `generate`: exactly `SyncAnswer` |
| CfpAgent.Settle | backend/app/services/cfp_agent.py:148-159 | the parsed and validated answer, or the error result: exactly `Settled` |
| CfpAgent.SyncRequests | backend/app/services/cfp_agent.py:98-141 | at most two requests, each with the prompt; a second request is `generate`; with a running loop only `generate` is called, never `async_generate` |
| CfpAgent.AnalyzeRequests | backend/app/services/cfp_agent.py:73-141 | as `SyncRequests` with the built prompt, and no request without a client |
| CfpAgent.AnalyzeOutcome | backend/app/services/cfp_agent.py:76-159 | no client, or an exception from both attempts, gives the rule fallback; otherwise the answer is settled |
| CfpAgent.ErrorResultFields | backend/app/services/cfp_agent.py:159 | the error result has `overview = str(raw)`, empty lists, confidence 0.0 and the error text |
| CfpAgent.SettledError | backend/app/services/cfp_agent.py:149-159 | `_error` is present exactly when parsing or validation fails, and then the result is the error result |
| CfpAgent.SettledShaped | backend/app/services/cfp_agent.py:149-159 | either outcome of the parse step has the four fields with their types |
| CfpAgent.AnalyzeShape | backend/app/services/cfp_agent.py:62-159 | every result of `analyze` has the four fields with their types and no compliance keys |
| CfpAgent.AnswerAsync | backend/app/services/cfp_agent.py:183-204 | `async_generate` awaited, or `generate` after it raises or in its place: exactly `AsyncAnswer` |
| CfpAgent.Review | backend/app/services/cfp_agent.py:206-224 | the parsed answer or the error result, each through the compliance step: exactly `Reviewed` |
| CfpAgent.Reviewed | backend/app/services/cfp_agent.py:206-224 | the parse step of `analyze_async` never raises |
| CfpAgent.CheckedAnnotates | backend/app/services/compliance.py:27-30 | a checked result carries the disclaimer and the review flag, and keeps its other keys |
| CfpAgent.AsyncRequests | backend/app/services/cfp_agent.py:183-204 | at most two requests, each with the prompt; an exception can only escape when `generate` exists |
| CfpAgent.ErrorResultChecked | backend/app/services/cfp_agent.py:218-222 | the error result passes the compliance step unflagged |
| CfpAgent.ReviewedAnnotates | backend/app/services/cfp_agent.py:213-222 | both outcomes go through the compliance step |
| CfpAgent.ReviewedError | backend/app/services/cfp_agent.py:218-224 | an answer that fails to parse or validate gives the error result, checked and unflagged |
| CfpAgent.AnalyzeAsyncOutcome | backend/app/services/cfp_agent.py:161-224 | at most two requests with the built prompt; an exception only when `generate` exists; every result carries the compliance keys |
| CfpAgent.Offer | backend/app/services/cfp_agent.py:270-284 | a fed value validated and then checked; `None` when either step raises |
| CfpAgent.StreamedStep | backend/app/services/cfp_agent.py:269-284 | each chunk either gives an accepted value or passes the assembler's new buffer to the next chunk |
| CfpAgent.StreamFirst | backend/app/services/cfp_agent.py:256-287 | one assembler fed chunk after chunk, returning the first value that passes: exactly `StreamedFrom` |
| CfpAgent.StreamedApproved | backend/app/services/cfp_agent.py:269-281 | whatever the stream loop returns passed the schema and the compliance step, and has the six keys |
| CfpAgent.StreamSkipsRefused | backend/app/services/cfp_agent.py:282-284 | a refused or incomplete value is skipped and the loop goes on with the next chunk |
| CfpAgent.ApprovedAnnotates | backend/app/services/cfp_agent.py:274-279 | an approved value carries the disclaimer and the review flag, with the six keys |
| CfpAgent.RetryStream | backend/app/services/cfp_agent.py:289-321 | `async_generate` once more, then the rule fallback, each through the compliance step: exactly `StreamRetry` |
| CfpAgent.StreamRetryOutcome | backend/app/services/cfp_agent.py:289-321 | the retry never raises, makes at most one `async_generate` request with the prompt, and checks its result |
| CfpAgent.StreamUnsupported | backend/app/services/cfp_agent.py:251-254 | without a callable `async_stream_generate`, the result is exactly that of `analyze_async` |
| CfpAgent.StreamOutcome | backend/app/services/cfp_agent.py:249-321 | with a streaming client the result is always checked; the stream request comes first, followed by at most one `async_generate` |
| CfpAgent.DummyAnalysisValid | backend/app/services/cfp_agent.py:330-335 | the offline client's analysis passes the schema |
| CfpAgent.DummyTextDecodes | backend/app/services/cfp_agent.py:327-335 | the offline client's text decodes and validates to its analysis |
| CfpAgent.DummyLocalAnalysisValid | backend/app/services/model_clients.py:20-25 | the default local client's analysis passes the schema |
| CfpAgent.DummyLocalTextDecodes | backend/app/services/model_clients.py:18-25 | the default local client's text decodes and validates to its analysis |
| CfpAgent.SyncAnswering | backend/app/services/cfp_agent.py:116-134 | a client with only `generate` makes one `generate` request and gets its text |
| CfpAgent.LocalSyncAnswering | backend/app/services/cfp_agent.py:98-115 | the default local client's coroutine is awaited unless a loop runs; with a running loop `generate` is used |
| CfpAgent.AnalyzeAnswering | backend/app/services/cfp_agent.py:62-159 | with a client that has only `generate`: one request with the prompt, and the answer settled |
| CfpAgent.AnalyzeLocalAnswering | backend/app/services/cfp_agent.py:62-159 | with the default local client: one request, and the answer settled |
| CfpAgent.AnalyzeDummy | backend/app/services/cfp_agent.py:324-335 | `analyze` with the offline client returns exactly its validated analysis after one `generate` |
| CfpAgent.AnalyzeLocalDummy | backend/app/services/model_clients.py:15-25 | `analyze` with the default local client returns exactly its validated analysis after one request |
| CfpAgent.Agent.constructor | backend/app/services/cfp_agent.py:33-38 | no client gives the local dummy client; no retriever gives a fresh one over the two example documents |
| CfpAgent.Agent.Retrieved | backend/app/services/cfp_agent.py:56-60 | retrieval asks the retriever for five documents and gets at most five |
| CfpAgent.Agent.Analyze | backend/app/services/cfp_agent.py:62-159 | retrieval, prompt, call chain and parse: exactly `Analyzed` on the agent's client, template and retrieved documents |
| CfpAgent.Agent.AnalyzeAsync | backend/app/services/cfp_agent.py:161-224 | exactly `AnalyzedAsync` on the agent's client, template and retrieved documents |
| CfpAgent.Agent.AnalyzeStreamAsync | backend/app/services/cfp_agent.py:226-321 | exactly `AnalyzedStream` on the agent's client, template, retrieved documents and stream |

## Left out

- HTTP transport: `_select_http_client`, the `post`/`stream` calls, `raise_for_status` and `resp.json()`. An `Attempt` oracle gives each attempt's decoded body or exception.
- Timeouts and the `GEMINI_TIMEOUT` variable. Environment reading is passed to the client constructor as parameters. `create_gemini_client_from_env` and `GeminiClientSkeleton` are not part of this model.
- Sleeping and awaiting: `time.sleep` and `asyncio.sleep` are a ghost log of waits. `asyncio.run`, `run_in_executor` and `inspect.isawaitable` are decided by the `Attr` of each client method.
- `loop.is_running()` is the parameter `loopRunning`. A coroutine that is created but not awaited makes no request. Its text in `str(raw)` is the fixed `<coroutine object>`; the qualified name and address are left out.
- The backend oracle counts only the non-streamed requests. The stream request appears in the log, but its chunks come from the `StreamReply` parameter.
- An exception raised in the middle of a stream is not modelled. A stream is a finite list of chunks that ends normally.
- `audit_record`: the calls write to the filesystem and are left out.
- The retriever protocol in the asynchronous entry points is left out. This covers an `aget` method, an awaitable result, a raising `get`, and a result that is not a list. The agent holds an `InMemoryRetriever`, whose `get` returns a list of strings.
- Aliasing between a caller's list and the retriever's documents is not modelled. The model takes the list by value. The source keeps a non-empty list shared with its caller, so the caller's later changes to that list reach the retriever; only an empty list is replaced by a fresh one (`docs or []`).
- `PROMPT_TEMPLATE` is a class constant in the source. Here it is the `template` field of each agent, fixed by the constructor to `DefaultTemplate`, which holds the source's text. It is a parameter of the prompt functions so that its long literal does not enter every proof.
- Financials.DebtRatio: the ratio is the exact quotient of the two amounts. The source rounds the `Decimal` quotient to the nearest double with `float(...)`, and that double is what `ratio > 0.6` compares (cfp_agent.py lines 80, 145 and 315). Near the threshold the two can disagree: for liabilities 60000000000000000001 and assets 10^20 the model picks the repayment advice (RatioJustAboveThreshold), while Python's double is 0.6 and picks the budget advice. CfpAgent.RatioAboveIff and CfpAgent.RuleFallbackAdvice state the exact comparison. Two more cases differ at the extremes. A quotient too large for the default `Decimal` context raises `decimal.Overflow`, and the `except Exception` of `debt_ratio` (backend/app/models/financials.py lines 22-25) then gives the ratio 0.0 where the model keeps the exact quotient (liabilities `1E+999999` against assets `1E-10`). A quotient above the largest double becomes `inf` under `float(...)`, and the overview then shows `inf`.
- JsonValues.Str: for a value that is not a string, `str()` is this model's `repr`, which differs from Python's in three ways. A float is always written in positional notation, where Python switches to exponent notation below 10^-4 or from 10^16 on (`1e+16`, `1e-05`). An object with a repeated key prints every pair, where the dict Python builds keeps one entry per key, with the last value given for it. Only C0 control characters and DEL are escaped, where Python also escapes other non-printable characters (`\xa0`, `\u2028`). The difference shows in the `str(data)` and `str(message)` fallbacks of `_parse_response` and in the overview `str(raw)` of the error result.
- JsonDecoder.ParseValue: there is no nesting limit. CPython's decoder raises `RecursionError` at about a thousand levels of nested arrays or objects. The agent's `except Exception` turns that into the error result, or skips the chunk in the stream. The model decodes such a value.
- CfpAgent.Fixed2: `f"{debt_ratio:.2f}"` is modelled as exact decimal rounding, half to even, of the real ratio. The binary double and its rounding are left out.
- VectorStore.SquaredDistance: the square root is not taken. It is increasing, so the order of results is the same, but the distance reported is the squared one.
- JsonDecoder.ParseNumber: a decoded float is kept as its exact decimal. Python rounds it to the nearest double, so the `[0, 1]` check on the confidence in AgentOutput.Validate can decide differently at the bounds: `1.00000000000000001` is refused here (ConfidenceJustAboveOne) and accepted by Python. An integer literal of more than 4300 digits is decoded here; CPython 3.11 and later raise `ValueError` for it, which is not a `JSONDecodeError`, so `feed` (stream_parser.py line 67) lets it through and the agent's `except Exception` gives the error result in `analyze` or skips the chunk in the stream.
- JsonEncoder.Dumps: a float is written exactly as its decimal `mantissa * 10^exponent`, not as Python's shortest `repr` of the nearest double. The outputs agree only on the analysis literals (0.6, 0.75, 0.8, 0.9).
- Pydantic coercion: `AgentOutputModel` and `FinancialStatement` accept only the declared types; coercion such as int to str and numeric strings to float is left out. `ValidationError` texts are short forms of pydantic's. Exception texts in general are short forms.
- Text.Lower: only ASCII letters are lowered. `strip`, `\s` and `splitlines` use Python's whitespace and line-break sets, but other Unicode behaviour (case folding, combining characters) is left out.
- Lone surrogates cannot be Dafny characters. The decoder therefore refuses a `\u` escape that would produce one.
- Dead branches of the source are not modelled: the `last_exc is None` raise after the retry loop, and the `elif inspect.isawaitable` branches for awaitables that are not coroutines.
- The split-token scenario of the stream tests (`confidence == 0.85`) is not stated for its three literal fragments. StreamScenarios.SplitInvariant states it for every value and every cut.
- StreamScenarios.SplitInvariant: holds only for fragments that the cleaning of stream_parser.py lines 36-40 leaves unchanged, and the source itself is not split-invariant for the others. A fragment that starts, after optional whitespace, with `data:` loses that label and the whitespace after it: `{"k": "meta` then `data: x"}` buffers `{"k": "metax"}`. A fragment that is only `data:`, or whose stripped text is `[DONE]`, is dropped.
- The web application, the routes, the mini-program front end, the command-line scripts and the library-availability examples are outside the modelled core.
