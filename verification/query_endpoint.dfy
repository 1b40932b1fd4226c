/**
 The raw search endpoint `POST /` (host/server.py lines 121-134): the form fields, merged over a
 default result count, are handed to the library's own query. It reads no log, applies no quota
 and builds no prompt; the library query is an input.
 */
module QueryEndpoint {
  import opened Budget

  /** A merged argument: the integer default, or a form field (always a string). */
  datatype ArgValue = IntArg(n: int) | StrArg(s: string)

  /** What the library query yields: serialised results, or the message of the exception it raised. */
  datatype SearchResult = Found(json: string) | Raised(message: string)

  datatype QueryResponse = Results(json: string) | ErrorBody(message: string)

  /** `{'count': DEFAULT_TOKEN_COUNT, **form}`: every form field is kept as sent, and `count`
      defaults to the token count only when the caller did not send one. */
  function MergeArgs(form: map<string, string>): (args: map<string, ArgValue>)
    ensures args.Keys == form.Keys + {"count"}
    ensures forall k :: k in form ==> args[k] == StrArg(form[k])
    ensures "count" !in form ==> args["count"] == IntArg(DefaultTokenCount)
  {
    map["count" := IntArg(DefaultTokenCount)] + map k | k in form :: StrArg(form[k])
  }

  /** The endpoint: the library's results for the merged arguments, or an error body carrying
      the exception's message (with the default status). */
  function Query(form: map<string, string>, search: map<string, ArgValue> -> SearchResult)
    : (r: QueryResponse)
    ensures r.Results? <==> search(MergeArgs(form)).Found?
    ensures r.Results? ==> r.json == search(MergeArgs(form)).json
    ensures r.ErrorBody? ==> r.message == search(MergeArgs(form)).message
  {
    match search(MergeArgs(form))
    case Found(json) => Results(json)
    case Raised(message) => ErrorBody(message)
  }

  /** A caller-supplied `count` replaces the default; it arrives as the form's string, so it
      never equals the integer default even when it spells the same number. */
  lemma CallerCountWins(form: map<string, string>)
    requires "count" in form
    ensures MergeArgs(form)["count"] == StrArg(form["count"])
    ensures MergeArgs(form)["count"] != IntArg(DefaultTokenCount)
  {
  }
}
