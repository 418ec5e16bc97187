/** The shared counter store behind the rate limiter's single atomic call.

    The middleware sends one script call with one key and the arguments
    (window, limit) and reads back the triple [allowed, currentCount, ttl]. The
    script itself is not part of this model: its behaviour here is an ASSUMED
    conventional fixed-window script. The counter for a key is
    incremented (created at 0 first when absent or lapsed), its expiry is set to
    `window` seconds from now only when this call created it, and the call
    answers allowed = 1 exactly when the new count is at most the limit. The whole
    call is one atomic step. */
module WindowStore {
  import opened Wrappers
  import opened JsValues

  /** One key's record: the number of calls in its window and the instant the
      window lapses (in seconds). */
  datatype Counter = Counter(count: nat, expiresAt: int)

  /** The triple the script returns. */
  datatype Reply = Reply(allowed: int, currentCount: int, ttl: int)

  /** Why the call threw: the connection is down, or the script rejected its
      arguments (assumed for arguments that are not integers, such as NaN). */
  datatype StoreError = ConnectionLost | ScriptError

  type Counters = map<string, Counter>

  /** The store's state together with the outcome of one call. */
  datatype Step = Step(counters: Counters, outcome: Result<Reply, StoreError>)

  /** A record is live while its expiry lies in the future; a lapsed record is
      as good as absent. */
  predicate Live(m: Counters, key: string, now: int)
  {
    key in m && now < m[key].expiresAt
  }

  /** The count a key has before the next call at `now`. */
  function CountAt(m: Counters, key: string, now: int): nat
  {
    if Live(m, key, now) then m[key].count else 0
  }

  /** One atomic evaluation at instant `now`; `connected` says whether the
      store can be reached at all. */
  function Evaluate(m: Counters, key: string, window: Num, limit: Num, now: int, connected: bool): (s: Step)
    ensures !connected ==> s == Step(m, Err(ConnectionLost))
    ensures connected && (window.NaN? || limit.NaN?) ==> s == Step(m, Err(ScriptError))
    ensures s.outcome.Err? ==> s.counters == m
    ensures s.outcome.Ok? ==> connected && window.Int? && limit.Int?
    ensures s.outcome.Ok? ==>
      var r := s.outcome.value;
      && (r.allowed == 0 || r.allowed == 1)
      && r.currentCount == CountAt(m, key, now) + 1
      && (r.allowed == 1 <==> r.currentCount <= limit.i)
      && key in s.counters && s.counters[key].count == r.currentCount
      && r.ttl == s.counters[key].expiresAt - now
      && (Live(m, key, now) ==> s.counters[key].expiresAt == m[key].expiresAt)
      && (!Live(m, key, now) ==> r.ttl == window.i)
      && s.counters == m[key := s.counters[key]]
  {
    if !connected then Step(m, Err(ConnectionLost))
    else if window.NaN? || limit.NaN? then Step(m, Err(ScriptError))
    else
      var c := if Live(m, key, now) then m[key] else Counter(0, now + window.i);
      var c' := Counter(c.count + 1, c.expiresAt);
      var allowed := if c'.count <= limit.i then 1 else 0;
      Step(m[key := c'], Ok(Reply(allowed, c'.count, c'.expiresAt - now)))
  }

  /** The store as the process sees it: a map it updates in place, one call at a time. */
  class CounterStore {
    var counters: Counters

    constructor ()
      ensures counters == map[]
    {
      counters := map[];
    }

    /** The script call: `eval(script, 1, key, window, limit)`. */
    method Eval(key: string, window: Num, limit: Num, now: int, connected: bool)
      returns (outcome: Result<Reply, StoreError>)
      modifies this
      ensures Step(counters, outcome) == Evaluate(old(counters), key, window, limit, now, connected)
    {
      if !connected {
        return Err(ConnectionLost);
      }
      if window.NaN? || limit.NaN? {
        return Err(ScriptError);
      }
      var record := Counter(0, now + window.i);
      if key in counters && now < counters[key].expiresAt {
        record := counters[key];
      }
      record := record.(count := record.count + 1);
      counters := counters[key := record];
      var allowed := if record.count <= limit.i then 1 else 0;
      outcome := Ok(Reply(allowed, record.count, record.expiresAt - now));
    }
  }

  // ---------------------------------------------------------------------------
  // A burst of calls on one key
  // ---------------------------------------------------------------------------

  /** Evaluate the calls made at the instants `times`, in order, on one key with
      a fixed (window, limit); gives the final state and every outcome. */
  function Run(m: Counters, key: string, window: Num, limit: Num, times: seq<int>): (r: (Counters, seq<Result<Reply, StoreError>>))
    ensures |r.1| == |times|
    decreases |times|
  {
    if |times| == 0 then (m, [])
    else
      var prev := Run(m, key, window, limit, times[..|times| - 1]);
      var s := Evaluate(prev.0, key, window, limit, times[|times| - 1], true);
      (s.counters, prev.1 + [s.outcome])
  }

  /** The calls all land in the window the first of them opens. */
  predicate OneWindow(times: seq<int>, w: int)
  {
    && |times| > 0
    && (forall k :: 0 < k < |times| ==> times[k - 1] <= times[k])
    && times[|times| - 1] < times[0] + w
  }

  /** Within one window opened by a fresh key, the k-th call (counting from 1)
      sees count k, is allowed exactly when k is at most the limit, and reports
      the time left until the one window's end. The limit is inclusive. */
  lemma {:induction false} BurstInOneWindow(m: Counters, key: string, w: int, limit: int, times: seq<int>)
    requires w > 0 && OneWindow(times, w) && !Live(m, key, times[0])
    ensures var r := Run(m, key, Int(w), Int(limit), times);
      && key in r.0 && r.0[key] == Counter(|times|, times[0] + w)
      && forall k :: 0 <= k < |times| ==>
           r.1[k] == Ok(Reply(if k + 1 <= limit then 1 else 0, k + 1, times[0] + w - times[k]))
    decreases |times|
  {
    var n := |times|;
    var r := Run(m, key, Int(w), Int(limit), times);
    if n == 1 {
      assert times[..0] == [];
    } else {
      var front := times[..n - 1];
      FrontOneWindow(times, w);
      BurstInOneWindow(m, key, w, limit, front);
      var prev := Run(m, key, Int(w), Int(limit), front);
      assert times[0] <= times[n - 1] by {
        TimesAscend(times, n - 1);
      }
      LiveStep(prev.0, key, w, limit, times[n - 1], n - 1, times[0] + w);
      var last := Evaluate(prev.0, key, Int(w), Int(limit), times[n - 1], true);
      assert r.1 == prev.1 + [last.outcome];
      forall k | 0 <= k < n
        ensures r.1[k] == Ok(Reply(if k + 1 <= limit then 1 else 0, k + 1, times[0] + w - times[k]))
      {
        if k < n - 1 {
          assert r.1[k] == prev.1[k];
          assert times[k] == front[k];
        }
      }
    }
  }

  lemma FrontOneWindow(times: seq<int>, w: int)
    requires OneWindow(times, w) && |times| > 1
    ensures OneWindow(times[..|times| - 1], w)
  {
    var front := times[..|times| - 1];
    assert front[|front| - 1] == times[|times| - 2] <= times[|times| - 1];
  }

  /** A call on a live record adds one to its count and keeps its window end. */
  lemma LiveStep(m: Counters, key: string, w: int, limit: int, now: int, c: nat, end: int)
    requires key in m && m[key] == Counter(c, end) && now < end
    ensures Evaluate(m, key, Int(w), Int(limit), now, true)
      == Step(m[key := Counter(c + 1, end)], Ok(Reply(if c + 1 <= limit then 1 else 0, c + 1, end - now)))
  {
  }

  lemma {:induction false} TimesAscend(times: seq<int>, j: nat)
    requires j < |times|
    requires forall k :: 0 < k < |times| ==> times[k - 1] <= times[k]
    ensures times[0] <= times[j]
    decreases j
  {
    if j > 0 {
      TimesAscend(times, j - 1);
    }
  }

  /** How many of the outcomes are admissions. */
  function AllowedCount(rs: seq<Result<Reply, StoreError>>): (n: nat)
    ensures n <= |rs|
  {
    if |rs| == 0 then 0
    else AllowedCount(rs[..|rs| - 1]) + (if rs[|rs| - 1].Ok? && rs[|rs| - 1].value.allowed == 1 then 1 else 0)
  }

  /** Exactness: K calls in one window on a fresh key admit exactly min(K, L)
      of them, and the count ends at K. */
  lemma ExactlyLimitAdmitted(m: Counters, key: string, w: int, limit: nat, times: seq<int>)
    requires w > 0 && OneWindow(times, w) && !Live(m, key, times[0])
    ensures var r := Run(m, key, Int(w), Int(limit), times);
      && AllowedCount(r.1) == (if |times| <= limit then |times| else limit)
      && r.0[key].count == |times|
  {
    BurstInOneWindow(m, key, w, limit, times);
    var rs := Run(m, key, Int(w), Int(limit), times).1;
    AllowedPrefix(rs, limit, |rs|);
    assert rs[..|rs|] == rs;
  }

  lemma {:induction false} AllowedPrefix(rs: seq<Result<Reply, StoreError>>, limit: nat, j: nat)
    requires j <= |rs|
    requires forall k :: 0 <= k < |rs| ==> rs[k].Ok? && rs[k].value.allowed == (if k + 1 <= limit then 1 else 0)
    ensures AllowedCount(rs[..j]) == (if j <= limit then j else limit)
    decreases j
  {
    if j > 0 {
      AllowedPrefix(rs, limit, j - 1);
      assert rs[..j][..j - 1] == rs[..j - 1];
    }
  }

  /** Window reset: once the window has lapsed, the next call starts a fresh
      window, counting 1, admitted for any limit of at least 1, whatever the
      previous window held. */
  lemma WindowReset(m: Counters, key: string, w: int, limit: int, now: int)
    requires key in m && m[key].expiresAt <= now && limit >= 1
    ensures Evaluate(m, key, Int(w), Int(limit), now, true).outcome == Ok(Reply(1, 1, w))
  {
  }

  /** A full window followed by a wait past its end: the next call is admitted
      again with count 1. */
  lemma {:induction false} FullWindowThenReset(m: Counters, key: string, w: int, limit: int, times: seq<int>, later: int)
    requires w > 0 && limit >= 1 && OneWindow(times, w) && !Live(m, key, times[0])
    requires later >= times[0] + w
    ensures var r := Run(m, key, Int(w), Int(limit), times + [later]);
      r.1[|times|] == Ok(Reply(1, 1, w))
  {
    BurstInOneWindow(m, key, w, limit, times);
    var ts := times + [later];
    assert ts[..|ts| - 1] == times;
  }

  /** A call on one key leaves every other key's record as it was. */
  lemma OtherKeysUntouched(m: Counters, key: string, other: string, window: Num, limit: Num, now: int, connected: bool)
    requires other != key
    ensures var s := Evaluate(m, key, window, limit, now, connected);
      (other in s.counters <==> other in m) && (other in m ==> s.counters[other] == m[other])
  {
  }
}
