/**
 The token budget of the /ask endpoint (host/server.py lines 19-27): how many tokens of
 retrieved context fit in one completion request. It is a process-wide constant, computed
 from fixed constants only and never per request.
 */
module Budget {

  /** Token window of the completion model, fixed in place of a model lookup. */
  const DefaultTokenCount: nat := 2000
  /** Tokens reserved for the generated answer. */
  const AnswerLength: nat := 256
  /** Tokens taken by the prompt template itself, markdown directive included. */
  const PromptLength: nat := 108
  /** Longest accepted query, in characters (not tokens). */
  const MaxQueryLength: nat := 200
  /** Characters-per-token heuristic used to reserve room for the query. */
  const CharsPerToken: nat := 4

  /** Tokens reserved for the query: the worst-case query, at the heuristic rate. */
  function QueryAllowance(maxQueryChars: nat): (r: nat)
    ensures r * CharsPerToken <= maxQueryChars < (r + 1) * CharsPerToken
  {
    maxQueryChars / CharsPerToken
  }

  /** What remains of `window` once the prompt, the query allowance and the answer are reserved.
      Any query up to the maximum, estimated at the same rate, fits beside a full context. */
  function ContextBudget(window: int, prompt: int, maxQueryChars: nat, answer: int): (r: int)
    ensures forall n: nat :: n <= maxQueryChars ==> r + prompt + QueryAllowance(n) + answer <= window
  {
    window - prompt - QueryAllowance(maxQueryChars) - answer
  }

  /** server.py's `context_count`. Python's true division makes it the float 1586.0; the
      division is exact, so the integer is the same number. */
  const ContextCount: int := ContextBudget(DefaultTokenCount, PromptLength, MaxQueryLength, AnswerLength)

  /** The query allowance is exact: 200 characters are exactly 50 tokens at 4 per token, so
      Python's float quotient, its floor and its ceiling all agree. */
  lemma QueryAllowanceExact()
    ensures QueryAllowance(MaxQueryLength) * CharsPerToken == MaxQueryLength
    ensures QueryAllowance(MaxQueryLength) == 50
  {
  }

  /** The budget is 1586 tokens and therefore non-negative: the configuration is consistent. */
  lemma ContextCountValue()
    ensures ContextCount == 1586
    ensures ContextCount >= 0
  {
  }

  /** Enlarging the answer reservation by `k` shrinks the context budget by exactly `k`. */
  lemma AnswerReservationShift(window: int, prompt: int, maxQueryChars: nat, answer: int, k: int)
    ensures ContextBudget(window, prompt, maxQueryChars, answer + k)
         == ContextBudget(window, prompt, maxQueryChars, answer) - k
  {
  }

  /** Ceiling of `a / b` for the query-size estimate of an actual query. */
  function CeilDiv(a: nat, b: nat): (r: nat)
    requires b > 0
    ensures (r - 1) * b < a <= r * b
  {
    (a + b - 1) / b
  }

  /** Whatever the accepted query, a full context, the prompt template, the query's own
      token estimate and the answer together fit the model's window. */
  lemma EveryAcceptedQueryFits(queryChars: nat)
    requires queryChars <= MaxQueryLength
    ensures ContextCount + PromptLength + CeilDiv(queryChars, CharsPerToken) + AnswerLength
            <= DefaultTokenCount
  {
    var t := CeilDiv(queryChars, CharsPerToken);
    assert (t - 1) * 4 < queryChars <= 200;
  }
}
