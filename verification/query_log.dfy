/**
 The persisted log of served asks (the datastore kind "Ask" in host/server.py) and the one
 query the rate gate runs over it. The log is a sequence of records in insertion order; the
 datastore client, its indexes and its keys are not modelled beyond the identifier a write
 returns.
 */
module QueryLog {

  /** Seconds on the UTC clock. */
  type Time = int

  /** `datetime.timedelta(days=1)`, in seconds. */
  const Day: int := 86400

  /** Provenance of one retrieved chunk, as returned to the caller and stored. */
  datatype Source = Source(url: string, title: string)

  /** One served ask. `rating` starts at 0 and is changed only outside the request path. */
  datatype AskRecord = AskRecord(
    created: Time,
    query: string,
    iphash: string,
    result: string,
    sources: seq<Source>,
    rating: int)

  type Log = seq<AskRecord>

  /** The filter of the quota query: same identity hash, created at or after `since`. */
  predicate InWindow(r: AskRecord, iphash: string, since: Time) {
    r.iphash == iphash && r.created >= since
  }

  /** Number of records the quota query fetches (`len(list(dsquery.fetch()))`). */
  function CountSince(log: Log, iphash: string, since: Time): (n: nat)
    ensures n <= |log|
    ensures n == 0 <==> forall i :: 0 <= i < |log| ==> !InWindow(log[i], iphash, since)
    ensures n == |log| <==> forall i :: 0 <= i < |log| ==> InWindow(log[i], iphash, since)
    decreases |log|
  {
    if log == [] then 0
    else
      var rest := CountSince(log[..|log| - 1], iphash, since);
      if InWindow(log[|log| - 1], iphash, since) then rest + 1 else rest
  }

  /** Appending a record raises the count by one exactly when the record is in the window. */
  lemma CountAppend(log: Log, r: AskRecord, iphash: string, since: Time)
    ensures CountSince(log + [r], iphash, since)
         == CountSince(log, iphash, since) + (if InWindow(r, iphash, since) then 1 else 0)
  {
    assert (log + [r])[..|log|] == log;
  }

  /** Narrowing the window (a later lower bound) never raises the count. */
  lemma {:induction false} CountSinceAntitone(log: Log, iphash: string, early: Time, late: Time)
    requires early <= late
    ensures CountSince(log, iphash, late) <= CountSince(log, iphash, early)
    decreases |log|
  {
    if log != [] {
      CountSinceAntitone(log[..|log| - 1], iphash, early, late);
    }
  }

  /** Records of other identities do not count towards an identity's quota. */
  lemma {:induction false} CountIgnoresOthers(log: Log, others: Log, iphash: string, since: Time)
    requires forall i :: 0 <= i < |others| ==> others[i].iphash != iphash
    ensures CountSince(log + others, iphash, since) == CountSince(log, iphash, since)
    decreases |others|
  {
    if others != [] {
      var front := others[..|others| - 1];
      CountIgnoresOthers(log, front, iphash, since);
      assert log + others == (log + front) + [others[|others| - 1]];
      CountAppend(log + front, others[|others| - 1], iphash, since);
    } else {
      assert log + others == log;
    }
  }
}
