/**
 The rate gate of the /ask endpoint (host/server.py lines 64-78): a caller-supplied OpenAI key
 longer than 20 characters skips the quota; otherwise the caller's identity hash may have at
 most 6 asks logged in the trailing day before this one. The log is the counter: the gate keeps
 no state of its own.
 */
module RateGate {
  import opened Wrappers
  import opened Text
  import opened QueryLog

  /** A bypass key must be strictly longer than this many characters. */
  const BypassMinLength: nat := 20
  /** A request is denied when strictly more prior asks than this fall in the window. */
  const QuotaThreshold: nat := 6

  /** Whose OpenAI key the upstream calls of one request use. */
  datatype Credential = ServiceKey | CallerKey(key: string)

  datatype Decision = Allow | Deny

  /** The `x-openai-api-key` header is present and long enough. server.py also tests the
      header's truthiness, which only excludes the empty string and is implied by the length. */
  predicate Bypass(apiKey: Option<string>) {
    apiKey.Some? && |apiKey.value| > BypassMinLength
  }

  /** The credential of one request, threaded through to the upstream calls: the caller's
      stripped key when it bypasses the quota, the service's own key otherwise. */
  function RequestCredential(apiKey: Option<string>): (c: Credential)
    ensures c.CallerKey? <==> Bypass(apiKey)
    ensures c.CallerKey? ==> c.key == Strip(apiKey.value)
    ensures !Bypass(apiKey) ==> c == ServiceKey
  {
    if Bypass(apiKey) then CallerKey(Strip(apiKey.value)) else ServiceKey
  }

  /** The decision of the gate at time `now` over the current log. */
  function Check(log: Log, iphash: string, apiKey: Option<string>, now: Time): (d: Decision)
    ensures Bypass(apiKey) ==> d == Allow
    ensures !Bypass(apiKey) ==> (d == Deny <==> CountSince(log, iphash, now - Day) >= QuotaThreshold + 1)
    ensures (forall i :: 0 <= i < |log| ==> log[i].iphash != iphash) ==> d == Allow
  {
    if Bypass(apiKey) then Allow
    else if CountSince(log, iphash, now - Day) > QuotaThreshold then Deny
    else Allow
  }

  /** A record created exactly one day before `now` still counts: the window's lower bound is
      inclusive. A record one second older does not. */
  lemma WindowLowerBoundInclusive(log: Log, r: AskRecord, now: Time)
    ensures r.created == now - Day ==>
      CountSince(log + [r], r.iphash, now - Day) == CountSince(log, r.iphash, now - Day) + 1
    ensures r.created == now - Day - 1 ==>
      CountSince(log + [r], r.iphash, now - Day) == CountSince(log, r.iphash, now - Day)
  {
    CountAppend(log, r, r.iphash, now - Day);
  }

  /** The process-global `openai.api_key` as server.py leaves it after a request: overwritten
      by a bypass key, otherwise still whatever an earlier request set it to. */
  function GlobalKeyAfter(current: Credential, apiKey: Option<string>): (c: Credential)
    ensures Bypass(apiKey) ==> c == RequestCredential(apiKey)
    ensures !Bypass(apiKey) ==> c == current
  {
    if Bypass(apiKey) then CallerKey(Strip(apiKey.value)) else current
  }

  /** With the global key, a request without a bypass key that follows one with a bypass key
      makes its upstream calls with the earlier caller's key, and is still rate-limited as if
      it used the service's key. The per-request credential does not leak. */
  lemma CallerKeyLeaksIntoLaterRequest()
    ensures var keyA := "sk-" + seq(22, i => 'x');
            var afterA := GlobalKeyAfter(ServiceKey, Some(keyA));
            && Bypass(Some(keyA))
            && !Bypass(None)
            && GlobalKeyAfter(afterA, None) == CallerKey(keyA)
            && RequestCredential(None) == ServiceKey
  {
    var keyA := "sk-" + seq(22, i => 'x');
    assert keyA[0] == 's' && keyA[|keyA| - 1] == 'x';
    StripFixedPoint(keyA);
  }
}
