/**
 * The per-API-key fixed-window rate limiter (RateLimitingService).
 *
 * The service keeps, for every API key it has seen, a record of how many
 * requests arrived in the key's current window and when that window began.
 * A window lasts 60000 ms from its first request; a request arriving later
 * than that starts a new window. A request is admitted when the key's count,
 * after this request has been counted, is at most the configured limit.
 *
 * The clock is a parameter: `currentTime` is the value the service reads
 * from the system clock, in milliseconds.
 */
module RateLimiting {
  import opened Wrappers

  /** Length of a window, in milliseconds. */
  const WindowMillis: nat := 60000

  /** The value held by one RequestData object: its count and the start of its window. */
  datatype Entry = Entry(count: nat, firstRequestTime: nat)

  /** The window that began at `firstRequestTime` is over at `currentTime`; the comparison is strict. */
  function IsWindowExpired(firstRequestTime: nat, currentTime: nat): (b: bool)
    // expiry needs strictly more than a full window past the first request,
    // so a clock reading before the window's start never expires it
    ensures b <==> currentTime > firstRequestTime + WindowMillis
  {
    currentTime - firstRequestTime > WindowMillis
  }

  /** The record for `apiKey`, or None when the key has none (the null the map returns). */
  function Lookup(counts: map<string, Entry>, apiKey: string): Option<Entry>
  {
    if apiKey in counts then Some(counts[apiKey]) else None
  }

  /** Every record a running service holds has counted at least one request. */
  predicate WellFormed(counts: map<string, Entry>)
  {
    forall k :: k in counts ==> counts[k].count >= 1
  }

  /** The value the remapping function passed to `compute` produces for the key's old record. */
  function Recompute(data: Option<Entry>, currentTime: nat): (r: Entry)
    // the record handed back always has an open window at `currentTime` and has counted this request
    ensures !IsWindowExpired(r.firstRequestTime, currentTime) && r.count >= 1
    // a missing or expired record is replaced, its old count discarded
    ensures data.None? || IsWindowExpired(data.value.firstRequestTime, currentTime) ==> r == Entry(1, currentTime)
    // otherwise the same window goes on with one more request
    ensures data.Some? && !IsWindowExpired(data.value.firstRequestTime, currentTime) ==>
      r == Entry(data.value.count + 1, data.value.firstRequestTime)
  {
    if data.None? || IsWindowExpired(data.value.firstRequestTime, currentTime) then
      Entry(1, currentTime)
    else
      Entry(data.value.count + 1, data.value.firstRequestTime)
  }

  /** The new map and the answer of one call of isAllowed. */
  datatype Admission = Admission(counts: map<string, Entry>, allowed: bool)

  /** One call of isAllowed on the abstract state `counts` with limit `limit`. */
  function Admit(counts: map<string, Entry>, limit: int, apiKey: string, currentTime: nat): (a: Admission)
    // the caller's key always has a record afterwards, and no other key is added
    ensures a.counts.Keys == counts.Keys + {apiKey}
    // every other key's record is untouched
    ensures forall k :: k in counts && k != apiKey ==> a.counts[k] == counts[k]
    // a key with no record gets a fresh one
    ensures apiKey !in counts ==> a.counts[apiKey] == Entry(1, currentTime)
    // an expired window is replaced, its old count discarded
    ensures apiKey in counts && IsWindowExpired(counts[apiKey].firstRequestTime, currentTime) ==>
      a.counts[apiKey] == Entry(1, currentTime)
    // inside the window the count grows by exactly one and the window start stays
    ensures apiKey in counts && !IsWindowExpired(counts[apiKey].firstRequestTime, currentTime) ==>
      a.counts[apiKey] == Entry(counts[apiKey].count + 1, counts[apiKey].firstRequestTime)
    // the limit is inclusive and applies to the count after this request
    ensures a.allowed <==> a.counts[apiKey].count <= limit
    ensures WellFormed(counts) ==> WellFormed(a.counts)
  {
    var e := Recompute(Lookup(counts, apiKey), currentTime);
    Admission(counts[apiKey := e], e.count <= limit)
  }

  /**
   * The window boundary: a request exactly 60000 ms after the first one is still
   * inside the window and is counted there, one a millisecond later starts a new
   * window.
   */
  lemma WindowBoundary(counts: map<string, Entry>, limit: int, apiKey: string)
    requires apiKey in counts
    ensures var e := counts[apiKey];
            && Admit(counts, limit, apiKey, e.firstRequestTime + WindowMillis).counts[apiKey]
               == Entry(e.count + 1, e.firstRequestTime)
            && Admit(counts, limit, apiKey, e.firstRequestTime + WindowMillis + 1).counts[apiKey]
               == Entry(1, e.firstRequestTime + WindowMillis + 1)
  {
  }

  /** One call of isAllowed as seen from outside: the key and the clock reading. */
  datatype Call = Call(apiKey: string, currentTime: nat)

  /** The map after a sequence of calls, and the answer to each call in order. */
  datatype Trace = Trace(counts: map<string, Entry>, answers: seq<bool>)

  /** The calls of `calls`, one after the other, starting from `counts`. */
  function Run(counts: map<string, Entry>, limit: int, calls: seq<Call>): (t: Trace)
    ensures |t.answers| == |calls|
    ensures WellFormed(counts) ==> WellFormed(t.counts)
    decreases |calls|
  {
    if calls == [] then Trace(counts, [])
    else
      var a := Admit(counts, limit, calls[0].apiKey, calls[0].currentTime);
      var rest := Run(a.counts, limit, calls[1..]);
      Trace(rest.counts, [a.allowed] + rest.answers)
  }

  /** `n` copies of the call `c`. */
  function Repeat(c: Call, n: nat): (s: seq<Call>)
    ensures |s| == n
    ensures forall i :: 0 <= i < n ==> s[i] == c
  {
    if n == 0 then [] else [c] + Repeat(c, n - 1)
  }

  /** The calls of `calls` made with `apiKey`, in order. */
  function CallsFor(calls: seq<Call>, apiKey: string): (s: seq<Call>)
    ensures |s| <= |calls|
    ensures forall i :: 0 <= i < |s| ==> s[i].apiKey == apiKey
  {
    if calls == [] then []
    else if calls[0].apiKey == apiKey then [calls[0]] + CallsFor(calls[1..], apiKey)
    else CallsFor(calls[1..], apiKey)
  }

  /** The answers to the calls of `calls` made with `apiKey`, in order. */
  function AnswersFor(calls: seq<Call>, answers: seq<bool>, apiKey: string): (s: seq<bool>)
    requires |answers| == |calls|
    ensures |s| == |CallsFor(calls, apiKey)|
  {
    if calls == [] then []
    else if calls[0].apiKey == apiKey then [answers[0]] + AnswersFor(calls[1..], answers[1..], apiKey)
    else AnswersFor(calls[1..], answers[1..], apiKey)
  }

  /** How many of `answers` are true. */
  function CountAdmitted(answers: seq<bool>): nat
  {
    if answers == [] then 0 else (if answers[0] then 1 else 0) + CountAdmitted(answers[1..])
  }

  /**
   * Inside one window, calls with the same key (at any clock readings at which
   * that window has not expired, whatever order they come in) are admitted while
   * the running count stays within the limit, and each of them, admitted or
   * refused, adds one to the count.
   */
  lemma {:induction false} BurstWithinWindow(counts: map<string, Entry>, limit: int, apiKey: string, calls: seq<Call>)
    requires apiKey in counts
    requires forall i :: 0 <= i < |calls| ==>
      calls[i].apiKey == apiKey && !IsWindowExpired(counts[apiKey].firstRequestTime, calls[i].currentTime)
    ensures var t := Run(counts, limit, calls);
            && t.counts.Keys == counts.Keys
            && t.counts[apiKey] == Entry(counts[apiKey].count + |calls|, counts[apiKey].firstRequestTime)
            && forall i :: 0 <= i < |calls| ==> (t.answers[i] <==> counts[apiKey].count + i + 1 <= limit)
    decreases |calls|
  {
    if calls != [] {
      var step := Admit(counts, limit, apiKey, calls[0].currentTime);
      var rest := Run(step.counts, limit, calls[1..]);
      assert Run(counts, limit, calls) == Trace(rest.counts, [step.allowed] + rest.answers);
      assert step.counts[apiKey] == Entry(counts[apiKey].count + 1, counts[apiKey].firstRequestTime);
      forall i | 0 <= i < |calls[1..]|
        ensures calls[1..][i].apiKey == apiKey
        ensures !IsWindowExpired(step.counts[apiKey].firstRequestTime, calls[1..][i].currentTime)
      {
        assert calls[1..][i] == calls[i + 1];
      }
      BurstWithinWindow(step.counts, limit, apiKey, calls[1..]);
      PrependAnswer(step.allowed, rest.answers, counts[apiKey].count, limit);
    }
  }

  /** The answer for the running count `base + 1`, followed by the answers for the counts after it. */
  lemma PrependAnswer(first: bool, rest: seq<bool>, base: int, limit: int)
    requires first <==> base + 1 <= limit
    requires forall i :: 0 <= i < |rest| ==> (rest[i] <==> base + 1 + i + 1 <= limit)
    ensures forall i :: 0 <= i < |rest| + 1 ==> (([first] + rest)[i] <==> base + i + 1 <= limit)
  {
    forall i | 0 <= i < |rest| + 1 ensures ([first] + rest)[i] <==> base + i + 1 <= limit {
      if i > 0 { assert ([first] + rest)[i] == rest[i - 1]; }
    }
  }

  /** Among `answers` whose first `m` entries are exactly the true ones, `min(|answers|, m)` are true. */
  lemma {:induction false} CountPrefixAdmitted(answers: seq<bool>, m: int)
    requires forall i :: 0 <= i < |answers| ==> (answers[i] <==> i < m)
    ensures CountAdmitted(answers) == if m <= 0 then 0 else if |answers| < m then |answers| else m
  {
    if answers != [] {
      forall i | 0 <= i < |answers[1..]| ensures answers[1..][i] <==> i < m - 1 {
        assert answers[1..][i] == answers[i + 1];
      }
      CountPrefixAdmitted(answers[1..], m - 1);
    }
  }

  /**
   * `n` calls with a key that has no record, all at the same clock reading:
   * the i-th of them is admitted exactly when `i < requestsPerMinute` (none at
   * all when the limit is below 1), and the key ends with the record
   * `(n, currentTime)`.
   */
  lemma {:induction false} BurstFromNoRecord(counts: map<string, Entry>, limit: int, apiKey: string, currentTime: nat, n: nat)
    requires apiKey !in counts
    ensures var t := Run(counts, limit, Repeat(Call(apiKey, currentTime), n));
            && (forall i :: 0 <= i < n ==> (t.answers[i] <==> i < limit))
            && (n > 0 ==> t.counts.Keys == counts.Keys + {apiKey} && t.counts[apiKey] == Entry(n, currentTime))
  {
    if n > 0 {
      var step := Admit(counts, limit, apiKey, currentTime);
      var rest := Run(step.counts, limit, Repeat(Call(apiKey, currentTime), n - 1));
      assert Repeat(Call(apiKey, currentTime), n)[1..] == Repeat(Call(apiKey, currentTime), n - 1);
      assert Run(counts, limit, Repeat(Call(apiKey, currentTime), n)) == Trace(rest.counts, [step.allowed] + rest.answers);
      assert step.counts[apiKey] == Entry(1, currentTime);
      BurstWithinWindow(step.counts, limit, apiKey, Repeat(Call(apiKey, currentTime), n - 1));
      assert forall i :: 0 <= i < |rest.answers| ==> (rest.answers[i] <==> 1 + i + 1 <= limit);
      PrependAnswer(step.allowed, rest.answers, 0, limit);
    }
  }

  /** Of `n` such calls, exactly `min(n, requestsPerMinute)` are admitted, and none when the limit is below 1. */
  lemma BurstAdmitsUpToLimit(counts: map<string, Entry>, limit: int, apiKey: string, currentTime: nat, n: nat)
    requires apiKey !in counts
    ensures var t := Run(counts, limit, Repeat(Call(apiKey, currentTime), n));
            CountAdmitted(t.answers) == if limit <= 0 then 0 else if n < limit then n else limit
  {
    BurstFromNoRecord(counts, limit, apiKey, currentTime, n);
    CountPrefixAdmitted(Run(counts, limit, Repeat(Call(apiKey, currentTime), n)).answers, limit);
  }

  /**
   * Denied requests still count: once a key's count has reached the limit, every
   * later call with that key is refused for as long as its window has not expired,
   * whatever calls with other keys are interleaved.
   */
  lemma {:induction false} DeniedUntilWindowExpires(counts: map<string, Entry>, limit: int, apiKey: string, calls: seq<Call>)
    requires apiKey in counts && limit <= counts[apiKey].count
    requires forall i :: 0 <= i < |calls| && calls[i].apiKey == apiKey ==>
      !IsWindowExpired(counts[apiKey].firstRequestTime, calls[i].currentTime)
    ensures var t := Run(counts, limit, calls);
            forall i :: 0 <= i < |calls| && calls[i].apiKey == apiKey ==> !t.answers[i]
    decreases |calls|
  {
    if calls != [] {
      var step := Admit(counts, limit, calls[0].apiKey, calls[0].currentTime);
      assert step.counts[apiKey].firstRequestTime == counts[apiKey].firstRequestTime;
      assert limit <= step.counts[apiKey].count;
      forall i | 0 <= i < |calls[1..]| && calls[1..][i].apiKey == apiKey
        ensures !IsWindowExpired(step.counts[apiKey].firstRequestTime, calls[1..][i].currentTime)
      {
        assert calls[1..][i] == calls[i + 1];
      }
      DeniedUntilWindowExpires(step.counts, limit, apiKey, calls[1..]);
      var t := Run(counts, limit, calls);
      var rest := Run(step.counts, limit, calls[1..]);
      forall i | 0 <= i < |calls| && calls[i].apiKey == apiKey ensures !t.answers[i] {
        if i > 0 {
          assert calls[1..][i - 1] == calls[i];
          assert t.answers[i] == rest.answers[i - 1];
        }
      }
    }
  }

  /**
   * Keys are independent: the record a key ends with, and the answers its own
   * calls get, depend only on the key's own record and its own calls, not on the
   * calls made with other keys.
   */
  lemma {:induction false} KeysAreIndependent(counts: map<string, Entry>, alone: map<string, Entry>, limit: int, apiKey: string, calls: seq<Call>)
    requires Lookup(counts, apiKey) == Lookup(alone, apiKey)
    ensures var t := Run(counts, limit, calls);
            var u := Run(alone, limit, CallsFor(calls, apiKey));
            && Lookup(t.counts, apiKey) == Lookup(u.counts, apiKey)
            && AnswersFor(calls, t.answers, apiKey) == u.answers
    decreases |calls|
  {
    if calls != [] {
      var c := calls[0];
      var t := Run(counts, limit, calls);
      var step := Admit(counts, limit, c.apiKey, c.currentTime);
      var rest := Run(step.counts, limit, calls[1..]);
      assert t.answers[1..] == rest.answers;
      if c.apiKey == apiKey {
        var step' := Admit(alone, limit, c.apiKey, c.currentTime);
        var only := CallsFor(calls, apiKey);
        assert only == [c] + CallsFor(calls[1..], apiKey);
        assert only[0] == c && only[1..] == CallsFor(calls[1..], apiKey);
        KeysAreIndependent(step.counts, step'.counts, limit, apiKey, calls[1..]);
      } else {
        assert Lookup(step.counts, apiKey) == Lookup(counts, apiKey);
        KeysAreIndependent(step.counts, alone, limit, apiKey, calls[1..]);
      }
    }
  }

  /**
   * With a limit of 5: five requests at the same instant are admitted, a sixth at
   * that instant is refused, and a request 61 seconds later opens a new window
   * with count 1 and is admitted.
   */
  lemma FiveAdmittedSixthRefusedThenReset(apiKey: string, start: nat)
    ensures var t := Run(map[], 5, Repeat(Call(apiKey, start), 6));
            && t.answers == [true, true, true, true, true, false]
            && Admit(t.counts, 5, apiKey, start + 61000) == Admission(map[apiKey := Entry(1, start + 61000)], true)
  {
    BurstFromNoRecord(map[], 5, apiKey, start, 6);
    var t := Run(map[], 5, Repeat(Call(apiKey, start), 6));
    assert t.counts.Keys == {apiKey};
  }

  /** An API key's stored record: a request count and the instant its window began. */
  class RequestData {
    var count: nat
    const firstRequestTime: nat

    constructor (count: nat, firstRequestTime: nat)
      ensures this.count == count && this.firstRequestTime == firstRequestTime
    {
      this.count := count;
      this.firstRequestTime := firstRequestTime;
    }

    method IncrementCount()
      modifies this
      ensures count == old(count) + 1
    {
      count := count + 1;
    }
  }

  /** The limiter: one RequestData per API key, never evicted. */
  class RateLimitingService {
    var requestCounts: map<string, RequestData>
    const requestsPerMinute: int
    /** The value of every key's record. */
    ghost var entries: map<string, Entry>
    /** For every record the service has allocated, the key it was created for. */
    ghost var owner: map<RequestData, string>

    /**
     * Each key's record was created for that key (so distinct keys own distinct
     * records), `entries` holds the value of every stored record, and every
     * record has counted a request.
     */
    ghost predicate Valid()
      reads this, owner.Keys
    {
      && (forall k :: k in requestCounts ==> requestCounts[k] in owner && owner[requestCounts[k]] == k)
      && entries.Keys == requestCounts.Keys
      && (forall k :: k in requestCounts ==>
            requestCounts[k].count == entries[k].count && requestCounts[k].firstRequestTime == entries[k].firstRequestTime)
      && WellFormed(entries)
    }

    constructor (requestsPerMinute: int)
      ensures Valid() && fresh(owner.Keys)
      ensures this.requestsPerMinute == requestsPerMinute
      ensures entries == map[]
    {
      this.requestsPerMinute := requestsPerMinute;
      requestCounts := map[];
      entries := map[];
      owner := map[];
    }

    /**
     * The remapping function that isAllowed hands to `compute`: given the key's
     * current record, or null when it has none, it returns the record to store.
     * A missing or expired record is replaced by a fresh one; otherwise the
     * record is incremented in place and returned.
     */
    static method Remap(data: RequestData?, currentTime: nat) returns (r: RequestData)
      modifies data
      ensures data == null || IsWindowExpired(data.firstRequestTime, currentTime) ==>
        fresh(r) && r.count == 1 && r.firstRequestTime == currentTime
      ensures data != null && !IsWindowExpired(data.firstRequestTime, currentTime) ==>
        r == data && r.count == old(data.count) + 1
      // a record that is replaced is left as it was
      ensures data != null && IsWindowExpired(data.firstRequestTime, currentTime) ==>
        data.count == old(data.count)
    {
      if data == null || IsWindowExpired(data.firstRequestTime, currentTime) {
        r := new RequestData(1, currentTime);
      } else {
        data.IncrementCount();
        r := data;
      }
    }

    /**
     * `requestCounts.compute(apiKey, Remap)`: stores and returns the record Remap
     * produces for the key's current record (or for null when there is none).
     */
    method Compute(apiKey: string, currentTime: nat) returns (data: RequestData)
      requires Valid()
      modifies this, owner.Keys
      ensures Valid() && fresh(owner.Keys - old(owner.Keys))
      ensures entries == old(entries)[apiKey := Recompute(Lookup(old(entries), apiKey), currentTime)]
      // the record returned is the very object now stored under the key
      ensures apiKey in requestCounts && data == requestCounts[apiKey]
      ensures data.count == entries[apiKey].count
    {
      var current := if apiKey in requestCounts then requestCounts[apiKey] else null;
      ghost var next := Recompute(Lookup(entries, apiKey), currentTime);
      data := Remap(current, currentTime);
      var counts := requestCounts[apiKey := data];
      ghost var values := entries[apiKey := next];
      // the other keys' records are not the one Remap may have incremented
      forall k | k in counts
        ensures counts[k].count == values[k].count && counts[k].firstRequestTime == values[k].firstRequestTime
      {
        if k != apiKey { assert requestCounts[k] != current; }
      }
      assert WellFormed(values);
      requestCounts, entries, owner := counts, values, owner[data := apiKey];
    }

    /**
     * Counts one request for `apiKey` at `currentTime` and says whether it is
     * admitted. Only the record of `apiKey` is created, replaced or incremented.
     */
    method IsAllowed(apiKey: string, currentTime: nat) returns (allowed: bool)
      requires Valid()
      modifies this, owner.Keys
      ensures Valid() && fresh(owner.Keys - old(owner.Keys))
      ensures var a := Admit(old(entries), requestsPerMinute, apiKey, currentTime);
              entries == a.counts && allowed == a.allowed
    {
      var data := Compute(apiKey, currentTime);
      allowed := data.count <= requestsPerMinute;
    }
  }
}
