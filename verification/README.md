# wp-chat request core, modelled in Dafny

wp-chat answers questions about the WordPress documentation. Its server embeds the question,
retrieves the most similar pre-embedded chunks ("bits") of the corpus within a fixed token
budget, asks a completion model, and logs each served ask. A separate script filters unwanted
bits out of a corpus file.

This project models the two pure decision cores of that system:

- the `/ask` handler of `host/server.py`: query validation, the per-identity quota and its
  bypass key, the context token budget, prompt assembly, and the rule that a record is
  appended to the log only after the answer exists; plus the default-merge of the raw search
  endpoint `POST /`;
- the corpus filter of `filter_out_lib.py`.

The log of asks is a sequence of records and the datastore's quota query is `CountSince`
over it. The embedding, retrieval and completion calls are function-valued inputs
(`AskFlow.Upstream`); the embedding call yields a vector, `None` (answered with 403), or an
exception (answered by the route's handler). The IP hash, the two clock readings and the
identifier the datastore assigns are inputs too (`AskFlow.Env`). Strings are sequences of
Unicode scalar values, as Python's `len` counts them for every string without lone
surrogates. `Text.Strip` is Python's `str.strip()` over the whitespace set of `str.isspace`.

Modules: `Wrappers` (Option), `Text` (strip, substring), `Budget`, `QueryLog`, `RateGate`,
`Prompt`, `AskFlow`, `QueryEndpoint`, `CorpusFilter`. `AskFlow.Ask` runs the two gates
(`Validate`, then `RateGate.Check`) and hands an accepted request to `AskFlow.Serve`, the
upstream stage.

Behaviour of the code that is easy to misread:

- The quota admits seven asks per identity per trailing day and refuses the eighth: the
  handler refuses only when strictly more than 6 asks were logged since now − 1 day
  (`AskFlow.SevenPerWindow`).
- An embedding or completion call that raises is not turned into 403. It reaches the route's
  exception handler, which answers `{"error": ...}` with Flask's default status 200
  (`Response.Failed`). The same happens to a `query` field that is not a string, because
  `.strip()` raises on it.
- server.py divides 200 by 4 with Python's true division; the quotient is exactly 50, so
  flooring it changes nothing here (`Budget.QueryAllowanceExact`).
- No start-up check keeps the context budget non-negative. It is 1586 for the fixed
  constants (`Budget.ContextCountValue`).

## Model

| member | source | states |
|---|---|---|
| Text.Strip | host/server.py:54-58 | the stripped query is the infix of the raw one between maximal runs of whitespace; it neither starts nor ends with whitespace |
| Text.StripIdempotent | host/server.py:58 | stripping the already stripped query changes nothing |
| Text.StripEmptyIffBlank | host/server.py:54 | `not query.strip()` fires exactly for queries made only of whitespace |
| Text.ContainsAt | filter_out_lib.py:16 | the substring test holds exactly when the needle occurs at some offset of the url |
| Budget.QueryAllowance | host/server.py:27 | the query allowance is the number of whole 4-character tokens in the maximum query length: that many tokens fit in it and one more does not |
| Budget.ContextBudget | host/server.py:26-27 | the context budget leaves room, within the window, for the prompt, the answer and the token estimate of every query up to the maximum length |
| Budget.QueryAllowanceExact | host/server.py:22-27 | the query allowance 200/4 is exactly 50 tokens, so the float quotient, floor and ceiling agree |
| Budget.ContextCountValue | host/server.py:19-27 | the context budget is 2000 − 108 − 50 − 256 = 1586, a non-negative constant |
| Budget.AnswerReservationShift | host/server.py:26-27 | raising the answer reservation by k lowers the context budget by exactly k |
| Budget.EveryAcceptedQueryFits | host/server.py:19-27 | for any query of at most 200 characters, full context + prompt + the query's token estimate + answer fit the 2000-token window |
| QueryLog.CountSince | host/server.py:69-74 | the quota count is 0 exactly when no record of the identity falls in the window, and equals the log length exactly when all do |
| QueryLog.CountAppend | host/server.py:69-74 | appending a record raises the count by one exactly when the record has the identity's hash and lies in the window |
| QueryLog.CountSinceAntitone | host/server.py:71-72 | a later window start never raises the count |
| QueryLog.CountIgnoresOthers | host/server.py:70 | records of other identities never count towards an identity's quota |
| RateGate.Check | host/server.py:64-78 | a bypass key always passes; otherwise the gate denies exactly when at least 7 prior asks of the identity lie in the trailing day; an identity with no logged asks always passes |
| RateGate.WindowLowerBoundInclusive | host/server.py:71-72 | a record created exactly one day before now is counted, one a second older is not |
| RateGate.CallerKeyLeaksIntoLaterRequest | host/server.py:64-67 | a request without a key that follows one with a key runs on the earlier caller's key under the global key, but on the service key under the per-request credential |
| Prompt.AssembleLayout | host/server.py:100 | the prompt is exactly as long as its parts, opens with the instruction and optional directive, holds the context right after its header at a fixed offset, and ends with the question, the query and the answer cue |
| Prompt.DirectiveIffMarkdown | host/server.py:80-85 | the code-block directive follows the instruction exactly for markdown answers; otherwise the context header follows it directly |
| Prompt.AnswerCueIffMarkdown | host/server.py:80-85 | the prompt ends with "\n\nAnswer in Markdown:" exactly for markdown answers and with "\n\nAnswer:" exactly otherwise |
| Prompt.AssembleInjective | host/server.py:100 | given the query's length, the prompt determines the format, the context and the query: no segment can bleed into another |
| AskFlow.Validate | host/server.py:54-58 | a missing query, a non-string query and a string query whose trimmed length lies outside [10, 200] are told apart, and an accepted query is used trimmed |
| AskFlow.Serve | host/server.py:87-118 | past the gates: 403 exactly when the embedding call returns no vector; an exception exactly when the embedding raises or the completion of the prompt built from the trimmed query fails; every non-answer leaves the log unchanged; an answer returns the completion and the retrieved sources and appends exactly one record holding them, the query, the identity and rating 0 |
| AskFlow.Ask | host/server.py:48-118 | 400 exactly for a missing query or a string query of trimmed length outside [10, 200]; 429 exactly without bypass and with at least 7 asks in the window; a non-string query raises; neither gate logs anything; past both gates the upstream stage runs on the trimmed query, the requested format, the hashed identity and the per-request credential |
| AskFlow.AskStatus | host/server.py:54-91 | the response status is 400 exactly for an invalid query, 429 exactly over quota without bypass, and 403 exactly when the gates pass and the embedding returns no vector |
| AskFlow.BadRequestReadsNothing | host/server.py:54-57 | the 400 outcome is the same against any log and whatever the upstream capabilities return |
| AskFlow.QuotaRefusalCallsNothing | host/server.py:64-78 | the 429 outcome, log included, is the same whatever the upstream capabilities return |
| AskFlow.IdentityFromHeader | host/server.py:61-62 | two requests with the same App Engine header share one identity and one quota count whatever their socket addresses; without the header the socket address decides |
| AskFlow.PromptFollowsFormatField | host/server.py:80-85 | the prompt sent carries the code-block directive after the instruction, and ends with "\n\nAnswer in Markdown:", exactly when the body's `format` field is the string "markdown" |
| AskFlow.ServeOnServiceKey | host/server.py:87-101 | for a service-key request, the upstream stage has the same outcome when every call is forced onto the service key |
| AskFlow.NoKeyRequestUsesServiceKey | host/server.py:64-101 | a request without a bypass key has the same outcome as when every embedding and completion call is made with the service key, whatever requests came before it |
| AskFlow.BypassNeverLimited | host/server.py:64-66 | a request with a bypass key is never answered with 429 |
| AskFlow.Burst | host/server.py:104-116 | over repeated asks the log only grows, keeping its earlier records, by exactly one record per answered ask |
| AskFlow.AskAppendsOnAnswer | host/server.py:103-118 | from any log, an ask keeps every earlier record and adds exactly one record when it answers and none otherwise |
| AskFlow.AnsweredBelowQuota | host/server.py:68-116 | below the quota an accepted request with working upstream calls is answered and raises the identity's count by one |
| AskFlow.LimitedAtQuota | host/server.py:68-78 | at or above the quota a request without bypass gets 429 and logs nothing |
| AskFlow.AskIsQuotaStep | host/server.py:64-116 | without bypass and with working upstream calls, from any log an ask is answered and adds one record to the window while at most 6 lie in it, and is refused with the log untouched otherwise |
| AskFlow.QuotaBurst | host/server.py:68-116 | with k asks already in the window, the i-th of a burst of identical asks is answered exactly when k + i ≤ 6, and is a 429 otherwise |
| AskFlow.SevenPerWindow | host/server.py:68-78 | from a window empty for the identity, seven asks are answered and the eighth is refused with 429 |
| QueryEndpoint.MergeArgs | host/server.py:125-128 | the merged arguments hold every form field unchanged plus `count`, which is the integer 2000 only when the caller sent none |
| QueryEndpoint.CallerCountWins | host/server.py:125-128 | a caller's `count` replaces the default and is passed on as the string sent |
| CorpusFilter.Kept | filter_out_lib.py:15-17 | the filtered bits are input bits whose url lacks "/reference/files/", and every such input bit is among them |
| CorpusFilter.FilterBits | filter_out_lib.py:15-17 | the script's loop computes exactly the reference filter `Kept`, so its output has every property proved of `Kept` |
| CorpusFilter.FilterLibrary | filter_out_lib.py:9-17 | the output header is version 1 with the ada-002 embedding model whatever the input header, over the filtered bits |
| CorpusFilter.KeptAppend | filter_out_lib.py:15-17 | one more input bit extends the output by that bit exactly when it is not excluded |
| CorpusFilter.KeptAtIndices | filter_out_lib.py:15-17 | the j-th output bit is the input bit at the j-th kept position, unchanged |
| CorpusFilter.KeptIndicesAscend | filter_out_lib.py:15-17 | the kept positions ascend, so the relative order of the kept bits is preserved |
| CorpusFilter.KeptIndicesExact | filter_out_lib.py:15-17 | the kept positions are exactly the positions of bits whose url lacks the excluded path |
| CorpusFilter.KeptLength | filter_out_lib.py:15-17 | of N bits with M excluded, exactly N − M are output |
| CorpusFilter.KeptIdempotent | filter_out_lib.py:16-17 | filtering the filter's output changes nothing |

## Left out

- Flask plumbing: routing, CORS, compression, the GET redirect, and the choice between the
  form and the JSON body. The handler's input is the parsed body as a map from field names
  to string or non-string values.
- The datastore client, its indexes and its write. A failing write would raise after the
  completion and reach the route's exception handler; the model assumes the write succeeds.
- SHA-256: the identity hash is an opaque function from address to hash (`Env.hash`).
- The embedding, similarity ranking, slicing and completion calls: their results are inputs.
  Source deduplication by url happens inside the retrieval library and cannot be proved
  here.
- The count-then-append race between concurrent requests of one identity: the model is
  sequential, each ask sees the whole log.
- Wall-clock time: the quota query's clock reading and the record's creation time are inputs.
- The route's exception message: `Response.Failed` carries no text.
- The error messages interpolate `MAX_QUERY_LENGTH`; the model writes the resulting text.
- `context_count` is a Python float (1586.0); the model uses the equal integer.
- A corpus bit without `info` or `url` makes the script raise `KeyError`; the model's bits
  always carry both. The JSON file reading and writing is not modelled.
- The three crawler spiders, which only wrap Scrapy's link extraction and HTML-to-text.
- Budget.QueryAllowance: floors where server.py divides with Python's true division. The two
  differ when the maximum length is not a multiple of 4 (201 characters give 50 against
  50.25); the fixed constant 200 never meets that case.
- Strings with lone surrogates: a Python `str` may hold one (`"\ud800"`), a Dafny `char`
  cannot, so such queries, keys and urls are outside the model.
- A retrieval call that raises: `Upstream.retrieve` always yields a slice. Such an exception
  would end in the route's handler like a raising completion.
- Prompt.DirectiveIffMarkdown: states the directive's presence at its fixed place after the
  instruction, not "anywhere in the prompt", because the context and the query are arbitrary
  text that may itself contain the directive's wording.
- Prompt.AnswerCueIffMarkdown: likewise states the cue as the prompt's ending, not as a
  substring anywhere in it.

## Findings

| source | as written | input that shows it | evidently intended | confidence | as-written member | corrected member |
|---|---|---|---|---|---|---|
| host/server.py:64-67 | a bypass key is stored in the process-global `openai.api_key` and never reset | request A sends a 25-character key; request B from another caller then sends none: B's embedding and completion run on A's key while B is still rate-limited as a service-key user | each request's upstream calls use its own credential: the caller's key with a bypass, the service key without | high (not executed) | RateGate.CallerKeyLeaksIntoLaterRequest | AskFlow.NoKeyRequestUsesServiceKey |

The rest of the model uses the corrected per-request credential `RateGate.RequestCredential`:
`AskFlow.Ask` hands it to every upstream call, so a request without a bypass key runs on
the service key whatever came before it.
