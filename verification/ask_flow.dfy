/**
 The decision core of `Endpoint.ask` (host/server.py lines 48-118): validate the query, gate
 the request on the quota, embed the query, retrieve context, assemble the prompt, complete it,
 and only then append one record to the log.

 The HTTP layer is reduced to the parsed body and the three headers the handler reads. The
 upstream calls (embedding, retrieval, completion), the identity hash, the two clock readings
 and the identifier the datastore assigns are inputs.
 */
module AskFlow {
  import opened Wrappers
  import opened Text
  import opened Budget
  import opened QueryLog
  import opened RateGate
  import opened Prompt

  /** A field of the parsed body: a string, or any other JSON value (number, list, ...). */
  datatype Field = Str(s: string) | NonStr

  type Args = map<string, Field>

  /** What the handler reads from one request. */
  datatype Request = Request(
    args: Args,
    appengineIp: Option<string>,  // the `X-Appengine-User-IP` header
    remoteAddr: string,
    apiKey: Option<string>)       // the `x-openai-api-key` header

  type Embedding = seq<real>

  /** What the embedding call yields: a vector, `None` (the key was rejected), or an exception. */
  datatype Embedded = Vector(e: Embedding) | NoVector | EmbedRaised

  /** The retrieved context and the provenance of its chunks, best match first. */
  datatype Slice = Slice(context: string, sources: seq<Source>)

  /** The upstream capabilities, as functions of their arguments. */
  datatype Upstream = Upstream(
    embed: (string, Credential) -> Embedded,
    retrieve: (Embedding, int) -> Slice,                   // ranked slice within a token budget
    complete: (string, nat, Credential) -> Option<string>) // None: the call raised

  /** Everything outside the handler that it consults. `now` is the clock reading of the quota
      query, `loggedAt` the later reading stored in the record. */
  datatype Env = Env(
    hash: string -> string,
    up: Upstream,
    now: Time,
    loggedAt: Time,
    newId: int)

  datatype Response =
    | BadRequest(message: string)                          // 400
    | TooManyRequests(message: string)                     // 429
    | Forbidden(message: string)                           // 403
    | Answered(answer: string, sources: seq<Source>, id: int)
    | Failed                                               // exception caught by the route

  datatype Outcome = Outcome(response: Response, log: Log)

  /** The HTTP status of a response; an exception caught by the route is answered with Flask's
      default status. */
  function Status(r: Response): int {
    match r
    case BadRequest(_) => 400
    case TooManyRequests(_) => 429
    case Forbidden(_) => 403
    case Answered(_, _, _) => 200
    case Failed => 200
  }

  const InvalidQueryMessage: string :=
    "Missing or invalid 'query' parameter. Must be between 10 and 200 characters."
  const QuotaMessage: string :=
    "Too many requests. Please try again later or include your OpenAI API key."
  const InvalidKeyMessage: string := "OpenAI API key is invalid."

  /** A trimmed query the handler accepts. */
  predicate ValidQuery(q: string) {
    10 <= |q| <= MaxQueryLength
  }

  /** The request carries a string query whose trimmed form is accepted. */
  predicate Accepted(req: Request) {
    "query" in req.args && req.args["query"].Str? && ValidQuery(Strip(req.args["query"].s))
  }

  /** The query as used after validation. */
  function TrimmedQuery(req: Request): string
    requires "query" in req.args && req.args["query"].Str?
  {
    Strip(req.args["query"].s)
  }

  /** The result of validating the `query` field. */
  datatype Validation = Missing | NotText | OutOfRange | Valid(query: string)

  /** The guard of lines 54-58. It tests emptiness, `< 10` and `> 200` on the stripped query;
      the emptiness test is subsumed, so a query is valid exactly when its stripped length lies
      in [10, 200], and the query used from then on is the stripped one. */
  function Validate(args: Args): (v: Validation)
    ensures v.Missing? <==> "query" !in args
    ensures v.NotText? <==> "query" in args && args["query"].NonStr?
    ensures v.Valid? <==> "query" in args && args["query"].Str? && ValidQuery(Strip(args["query"].s))
    ensures v.Valid? ==> v.query == Strip(args["query"].s)
  {
    if "query" !in args then Missing
    else match args["query"]
      case NonStr => NotText
      case Str(raw) =>
        if Strip(raw) == [] || |Strip(raw)| < 10 || |Strip(raw)| > MaxQueryLength then OutOfRange
        else Valid(Strip(raw))
  }

  /** The caller's address: the App Engine header if present, else the socket's address. */
  function ClientIp(req: Request): string {
    req.appengineIp.GetOr(req.remoteAddr)
  }

  function IpHash(req: Request, env: Env): string {
    env.hash(ClientIp(req))
  }

  /** `args.get('format', 'text') == 'markdown'`. */
  function FormatOf(args: Args): AnswerFormat {
    if "format" in args && args["format"] == Str("markdown") then Markdown else PlainText
  }

  /** The prompt the handler sends for a trimmed query whose embedding is `e`. */
  function PromptFor(query: string, e: Embedding, f: AnswerFormat, up: Upstream): string {
    Assemble(Instruction, query, up.retrieve(e, ContextCount).context, f)
  }

  /** Lines 87-118, once both gates have passed: embed, retrieve, prompt, complete, log. */
  function Serve(query: string, f: AnswerFormat, iphash: string, cred: Credential, log: Log, env: Env)
    : (o: Outcome)
    // past the gates only the upstream stage decides: 403, an exception, or an answer
    ensures o.response.Forbidden? || o.response.Failed? || o.response.Answered?
    // 403 exactly when the embedding call returns no vector
    ensures o.response.Forbidden? <==> env.up.embed(query, cred).NoVector?
    ensures o.response.Forbidden? ==> o.response.message == InvalidKeyMessage
    // an exception from either upstream call ends the request
    ensures o.response.Failed? <==>
      || env.up.embed(query, cred).EmbedRaised?
      || (&& env.up.embed(query, cred).Vector?
          && env.up.complete(PromptFor(query, env.up.embed(query, cred).e, f, env.up),
                             AnswerLength, cred).None?)
    // every exit other than success leaves the log alone
    ensures !o.response.Answered? ==> o.log == log
    // success returns the completion and the retrieved sources, and appends exactly one record
    // holding them, the query, the identity and rating 0
    ensures o.response.Answered? ==>
      && env.up.embed(query, cred).Vector?
      && var e := env.up.embed(query, cred).e;
      && env.up.complete(PromptFor(query, e, f, env.up), AnswerLength, cred) == Some(o.response.answer)
      && o.response.sources == env.up.retrieve(e, ContextCount).sources
      && o.response.id == env.newId
      && o.log == log + [AskRecord(env.loggedAt, query, iphash, o.response.answer, o.response.sources, 0)]
  {
    match env.up.embed(query, cred)
    case NoVector => Outcome(Forbidden(InvalidKeyMessage), log)
    case EmbedRaised => Outcome(Failed, log)
    case Vector(e) =>
      var slice := env.up.retrieve(e, ContextCount);
      match env.up.complete(PromptFor(query, e, f, env.up), AnswerLength, cred)
      case None => Outcome(Failed, log)
      case Some(result) =>
        var record := AskRecord(env.loggedAt, query, iphash, result, slice.sources, 0);
        Outcome(Answered(result, slice.sources, env.newId), log + [record])
  }

  /** One /ask request against the current log. */
  function Ask(req: Request, log: Log, env: Env): (o: Outcome)
    // 400 exactly for a missing query or a string query of the wrong trimmed length
    ensures o.response.BadRequest? <==>
      "query" !in req.args || (req.args["query"].Str? && !ValidQuery(Strip(req.args["query"].s)))
    // the quota applies only without a bypass key, and denies from the 7th prior ask on
    ensures o.response.TooManyRequests? <==>
      Accepted(req) && !Bypass(req.apiKey) && CountSince(log, IpHash(req, env), env.now - Day) >= 7
    // the refusals carry the handler's fixed messages
    ensures o.response.BadRequest? ==> o.response.message == InvalidQueryMessage
    ensures o.response.TooManyRequests? ==> o.response.message == QuotaMessage
    // a query that is not a string raises inside the handler
    ensures "query" in req.args && req.args["query"].NonStr? ==> o.response.Failed?
    // neither gate logs anything
    ensures !(Accepted(req) && Check(log, IpHash(req, env), req.apiKey, env.now) == Allow) ==> o.log == log
    // past both gates the upstream stage runs on the trimmed query, the requested format, the
    // caller's identity and the credential the key selects
    ensures Accepted(req) && Check(log, IpHash(req, env), req.apiKey, env.now) == Allow ==>
      o == Serve(TrimmedQuery(req), FormatOf(req.args), IpHash(req, env), RequestCredential(req.apiKey),
                 log, env)
  {
    match Validate(req.args)
    case Missing => Outcome(BadRequest(InvalidQueryMessage), log)
    case OutOfRange => Outcome(BadRequest(InvalidQueryMessage), log)
    case NotText => Outcome(Failed, log)
    case Valid(query) =>
      var iphash := IpHash(req, env);
      if Check(log, iphash, req.apiKey, env.now) == Deny then
        Outcome(TooManyRequests(QuotaMessage), log)
      else
        Serve(query, FormatOf(req.args), iphash, RequestCredential(req.apiKey), log, env)
  }

  /** The status codes of /ask: 400 for an invalid query, 429 over quota, 403 for a rejected
      key; answers and exceptions caught by the route both carry 200. */
  lemma AskStatus(req: Request, log: Log, env: Env)
    ensures Status(Ask(req, log, env).response) == 400 <==>
      "query" !in req.args || (req.args["query"].Str? && !ValidQuery(Strip(req.args["query"].s)))
    ensures Status(Ask(req, log, env).response) == 429 <==>
      Accepted(req) && !Bypass(req.apiKey) && CountSince(log, IpHash(req, env), env.now - Day) >= 7
    ensures Status(Ask(req, log, env).response) == 403 <==>
      && Accepted(req)
      && Check(log, IpHash(req, env), req.apiKey, env.now) == Allow
      && env.up.embed(TrimmedQuery(req), RequestCredential(req.apiKey)).NoVector?
  {
  }

  /** The 400 exit reads neither the log nor any upstream capability: the same request gets
      the same 400 against any log and any upstream. */
  lemma BadRequestReadsNothing(req: Request, log: Log, env: Env, up2: Upstream, log2: Log)
    ensures Ask(req, log, env).response.BadRequest? ==>
      Ask(req, log2, env.(up := up2)).response == Ask(req, log, env).response
  {
  }

  /** The 429 exit makes no upstream call: the same request gets the same 429, and the log is
      left as it was, whatever the upstream capabilities would have returned. */
  lemma QuotaRefusalCallsNothing(req: Request, log: Log, env: Env, up2: Upstream)
    ensures Ask(req, log, env).response.TooManyRequests? ==>
      Ask(req, log, env.(up := up2)) == Ask(req, log, env)
  {
    assert IpHash(req, env.(up := up2)) == IpHash(req, env);
  }

  /** A request with a bypass key is never rate-limited, however full the log. */
  lemma BypassNeverLimited(req: Request, log: Log, env: Env)
    requires Bypass(req.apiKey)
    ensures !Ask(req, log, env).response.TooManyRequests?
  {
  }

  /** Behind App Engine the identity comes from the header: two requests with the same header
      share one quota whatever their socket addresses. Without the header, the socket address
      decides. */
  lemma IdentityFromHeader(r1: Request, r2: Request, env: Env, log: Log)
    ensures r1.appengineIp.Some? && r1.appengineIp == r2.appengineIp ==>
      && IpHash(r1, env) == IpHash(r2, env)
      && CountSince(log, IpHash(r1, env), env.now - Day) == CountSince(log, IpHash(r2, env), env.now - Day)
    ensures r1.appengineIp.None? && r2.appengineIp.None? && r1.remoteAddr == r2.remoteAddr ==>
      IpHash(r1, env) == IpHash(r2, env)
  {
  }

  /** The prompt sent carries the code-block directive after the instruction, and ends with the
      markdown answer cue, exactly when the body's `format` field is the string "markdown";
      an absent field or any other value gives the plain prompt. */
  lemma PromptFollowsFormatField(query: string, e: Embedding, args: Args, up: Upstream)
    ensures HasPrefix(PromptFor(query, e, FormatOf(args), up), Instruction + CodeDirective)
            <==> "format" in args && args["format"] == Str("markdown")
    ensures HasSuffix(PromptFor(query, e, FormatOf(args), up), AnswerCue(Markdown))
            <==> "format" in args && args["format"] == Str("markdown")
  {
    var context := up.retrieve(e, ContextCount).context;
    DirectiveIffMarkdown(Instruction, query, context, FormatOf(args));
    AnswerCueIffMarkdown(Instruction, query, context, FormatOf(args));
  }

  /** The upstream capabilities as the service key sees them: every call is answered as if it
      carried the service's own key, whatever key it was given. */
  function ServiceOnly(up: Upstream): Upstream {
    Upstream(
      (q: string, c: Credential) => up.embed(q, ServiceKey),
      up.retrieve,
      (p: string, n: nat, c: Credential) => up.complete(p, n, ServiceKey))
  }

  /** Past the gates, the upstream stage of a service-key request is the same whether the
      capabilities are called as given or through `ServiceOnly`. */
  lemma ServeOnServiceKey(query: string, f: AnswerFormat, iphash: string, log: Log, env: Env)
    ensures Serve(query, f, iphash, ServiceKey, log, env)
         == Serve(query, f, iphash, ServiceKey, log, env.(up := ServiceOnly(env.up)))
  {
    var up2 := ServiceOnly(env.up);
    assert up2.embed(query, ServiceKey) == env.up.embed(query, ServiceKey);
    forall e: Embedding
      ensures PromptFor(query, e, f, up2) == PromptFor(query, e, f, env.up)
      ensures up2.complete(PromptFor(query, e, f, up2), AnswerLength, ServiceKey)
           == env.up.complete(PromptFor(query, e, f, env.up), AnswerLength, ServiceKey)
    {
      assert up2.retrieve == env.up.retrieve;
    }
  }

  /** A request without a bypass key runs entirely on the service key, whatever requests came
      before it: its outcome is the one it gets when every upstream call is made with the
      service key. */
  lemma NoKeyRequestUsesServiceKey(req: Request, log: Log, env: Env)
    requires !Bypass(req.apiKey)
    ensures Ask(req, log, env) == Ask(req, log, env.(up := ServiceOnly(env.up)))
  {
    var env2 := env.(up := ServiceOnly(env.up));
    assert IpHash(req, env2) == IpHash(req, env);
    assert RequestCredential(req.apiKey) == ServiceKey;
    if Accepted(req) && Check(log, IpHash(req, env), req.apiKey, env.now) == Allow {
      ServeOnServiceKey(TrimmedQuery(req), FormatOf(req.args), IpHash(req, env), log, env);
    } else {
      var v := Validate(req.args);
      if v.Missing? || v.OutOfRange? {
        assert Ask(req, log, env) == Ask(req, log, env2) == Outcome(BadRequest(InvalidQueryMessage), log);
      } else if v.NotText? {
        assert Ask(req, log, env) == Ask(req, log, env2) == Outcome(Failed, log);
      } else {
        assert Ask(req, log, env) == Ask(req, log, env2) == Outcome(TooManyRequests(QuotaMessage), log);
      }
    }
  }

  /** The upstream calls of an accepted request all succeed. */
  predicate UpstreamSucceeds(req: Request, env: Env)
    requires Accepted(req)
  {
    var q := TrimmedQuery(req);
    var cred := RequestCredential(req.apiKey);
    && env.up.embed(q, cred).Vector?
    && env.up.complete(PromptFor(q, env.up.embed(q, cred).e, FormatOf(req.args), env.up),
                       AnswerLength, cred).Some?
  }

  /** How many of `rs` are successful answers. */
  function AnsweredCount(rs: seq<Response>): nat
    decreases |rs|
  {
    if rs == [] then 0 else (if rs[0].Answered? then 1 else 0) + AnsweredCount(rs[1..])
  }

  /** From log `l`, the step only appends, and appends one record exactly when it answers. */
  ghost predicate AppendsOnAnswerAt(step: Log -> Outcome, l: Log) {
    var o := step(l);
    |l| <= |o.log| && o.log[..|l|] == l && |o.log| == |l| + (if o.response.Answered? then 1 else 0)
  }

  /** A log step that only ever appends, and appends one record exactly when it answers. */
  ghost predicate AppendsOnAnswer(step: Log -> Outcome) {
    forall l: Log :: AppendsOnAnswerAt(step, l)
  }

  /** `n` steps in a row, each against the log the previous one left. */
  function Repeat(step: Log -> Outcome, log: Log, n: nat): (r: (seq<Response>, Log))
    ensures |r.0| == n
    ensures AppendsOnAnswer(step) ==>
      |log| <= |r.1| && r.1[..|log|] == log && |r.1| == |log| + AnsweredCount(r.0)
    decreases n
  {
    if n == 0 then ([], log)
    else
      var o := step(log);
      var rest := Repeat(step, o.log, n - 1);
      var rs := [o.response] + rest.0;
      assert rs[1..] == rest.0;
      assert AppendsOnAnswer(step) ==> AppendsOnAnswerAt(step, log) && rest.1[..|log|] == o.log[..|log|];
      (rs, rest.1)
  }

  /** The same request again and again, at the same clock readings, against whatever log the
      previous request left. */
  function AskStep(req: Request, env: Env): Log -> Outcome {
    l => Ask(req, l, env)
  }

  /** `Ask` is a step that appends one record exactly when it answers. */
  lemma AskAppendsOnAnswer(req: Request, env: Env)
    ensures AppendsOnAnswer(AskStep(req, env))
  {
    var step := AskStep(req, env);
    forall l: Log
      ensures AppendsOnAnswerAt(step, l)
    {
      var o := Ask(req, l, env);
      assert step(l) == o;
      if o.response.Answered? {
        var r := o.log[|l|];
        assert o.log == l + [r];
        assert (l + [r])[..|l|] == l;
      }
    }
  }

  /** The same request sent `n` times in a row at the same clock readings. The log only grows,
      keeping its earlier records, by one record per answer. */
  function Burst(req: Request, log: Log, env: Env, n: nat): (r: (seq<Response>, Log))
    ensures |r.0| == n
    ensures |log| <= |r.1| && r.1[..|log|] == log
    ensures |r.1| == |log| + AnsweredCount(r.0)
  {
    AskAppendsOnAnswer(req, env);
    Repeat(AskStep(req, env), log, n)
  }

  /** Below the quota, an accepted request with working upstream calls is answered and its
      record, created inside the window, raises the identity's count by one. */
  lemma AnsweredBelowQuota(req: Request, log: Log, env: Env)
    requires Accepted(req) && !Bypass(req.apiKey) && UpstreamSucceeds(req, env)
    requires env.now - Day <= env.loggedAt
    requires CountSince(log, IpHash(req, env), env.now - Day) <= QuotaThreshold
    ensures Ask(req, log, env).response.Answered?
    ensures CountSince(Ask(req, log, env).log, IpHash(req, env), env.now - Day)
         == CountSince(log, IpHash(req, env), env.now - Day) + 1
  {
    var h := IpHash(req, env);
    assert Check(log, h, req.apiKey, env.now) == Allow;
    var o := Serve(TrimmedQuery(req), FormatOf(req.args), h, RequestCredential(req.apiKey), log, env);
    assert Ask(req, log, env) == o;
    assert o.response.Answered?;
    CountAppend(log, o.log[|log|], h, env.now - Day);
  }

  /** At or above the quota, a request without a bypass key is rate-limited and logs nothing. */
  lemma LimitedAtQuota(req: Request, log: Log, env: Env)
    requires Accepted(req) && !Bypass(req.apiKey)
    requires CountSince(log, IpHash(req, env), env.now - Day) > QuotaThreshold
    ensures Ask(req, log, env).response.TooManyRequests?
    ensures Ask(req, log, env).log == log
  {
  }

  /** A log step that behaves as the quota prescribes for identity `h` and window start `since`:
      within the quota it answers and adds one record to the window, beyond it it refuses with
      429 and leaves the log alone. */
  ghost predicate QuotaStep(step: Log -> Outcome, h: string, since: Time) {
    forall l: Log :: QuotaStepAt(step, h, since, l)
  }

  /** `QuotaStep` from one log `l`. */
  ghost predicate QuotaStepAt(step: Log -> Outcome, h: string, since: Time, l: Log) {
    var o := step(l);
    && (CountSince(l, h, since) <= QuotaThreshold ==>
          o.response.Answered? && CountSince(o.log, h, since) == CountSince(l, h, since) + 1)
    && (CountSince(l, h, since) > QuotaThreshold ==> o.response.TooManyRequests? && o.log == l)
  }

  /** The responses of a burst, when `k` asks of the identity already sit in the window: answers
      while the count stays within the quota, rate limits after. */
  predicate QuotaShape(rs: seq<Response>, k: nat) {
    forall i :: 0 <= i < |rs| ==>
      && (rs[i].Answered? <==> k + i <= QuotaThreshold)
      && (!rs[i].Answered? ==> rs[i].TooManyRequests?)
  }

  lemma QuotaShapeCons(x: Response, rest: seq<Response>, k: nat)
    requires x.Answered? <==> k <= QuotaThreshold
    requires !x.Answered? ==> x.TooManyRequests?
    requires QuotaShape(rest, if k <= QuotaThreshold then k + 1 else k)
    ensures QuotaShape([x] + rest, k)
  {
    var rs := [x] + rest;
    forall i | 1 <= i < |rs|
      ensures rs[i].Answered? <==> k + i <= QuotaThreshold
    {
      assert rs[i] == rest[i - 1];
    }
  }

  /** Repeating a quota step from a window holding `k` asks answers while fewer than 7 asks
      precede in the window and refuses from then on. */
  lemma {:induction false} RepeatQuota(step: Log -> Outcome, h: string, since: Time, log: Log, n: nat, k: nat)
    requires QuotaStep(step, h, since)
    requires CountSince(log, h, since) == k
    ensures QuotaShape(Repeat(step, log, n).0, k)
    decreases n
  {
    if n > 0 {
      assert QuotaStepAt(step, h, since, log);
      var o := step(log);
      var rest := Repeat(step, o.log, n - 1).0;
      assert Repeat(step, log, n).0 == [o.response] + rest;
      if k <= QuotaThreshold {
        RepeatQuota(step, h, since, o.log, n - 1, k + 1);
      } else {
        RepeatQuota(step, h, since, o.log, n - 1, k);
      }
      QuotaShapeCons(o.response, rest, k);
    }
  }

  /** Without a bypass key, with working upstream calls and with its record stamped inside the
      window, `Ask` is a quota step for the caller's identity. */
  lemma AskIsQuotaStep(req: Request, env: Env)
    requires Accepted(req) && !Bypass(req.apiKey) && UpstreamSucceeds(req, env)
    requires env.now - Day <= env.loggedAt
    ensures QuotaStep(AskStep(req, env), IpHash(req, env), env.now - Day)
  {
    var step := AskStep(req, env);
    var h := IpHash(req, env);
    var since := env.now - Day;
    forall l: Log
      ensures QuotaStepAt(step, h, since, l)
    {
      assert step(l) == Ask(req, l, env);
      if CountSince(l, h, since) <= QuotaThreshold {
        AnsweredBelowQuota(req, l, env);
      } else {
        LimitedAtQuota(req, l, env);
      }
    }
  }

  /** Without a bypass key and with working upstream calls, a burst of identical asks within one
      window is answered while fewer than 7 asks of the identity precede it in the window, and
      rate-limited from then on. `k` is the number already in the window. */
  lemma QuotaBurst(req: Request, log: Log, env: Env, n: nat, k: nat)
    requires Accepted(req) && !Bypass(req.apiKey) && UpstreamSucceeds(req, env)
    requires env.now - Day <= env.loggedAt
    requires CountSince(log, IpHash(req, env), env.now - Day) == k
    ensures QuotaShape(Burst(req, log, env, n).0, k)
  {
    AskIsQuotaStep(req, env);
    RepeatQuota(AskStep(req, env), IpHash(req, env), env.now - Day, log, n, k);
  }

  /** The boundary of the quota: from a window holding no ask of the identity, seven identical
      asks are answered and the eighth is rate-limited. */
  lemma SevenPerWindow(req: Request, log: Log, env: Env)
    requires Accepted(req) && !Bypass(req.apiKey) && UpstreamSucceeds(req, env)
    requires env.now - Day <= env.loggedAt
    requires forall i :: 0 <= i < |log| ==> !InWindow(log[i], IpHash(req, env), env.now - Day)
    ensures forall i :: 0 <= i < 7 ==> Burst(req, log, env, 8).0[i].Answered?
    ensures Burst(req, log, env, 8).0[7].TooManyRequests?
  {
    assert CountSince(log, IpHash(req, env), env.now - Day) == 0;
    QuotaBurst(req, log, env, 8, 0);
    var rs := Burst(req, log, env, 8).0;
    assert QuotaShape(rs, 0);
    assert forall i :: 0 <= i < 7 ==> rs[i].Answered?;
    assert !rs[7].Answered?;
  }
}
