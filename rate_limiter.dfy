/** The rate-limiting middleware: key construction, per-request resolution of
    the limit and window, the single store call, the quota headers, the
    allow / 429 branch and the fail-open path taken when the store call throws. */
module RateLimiter {
  import opened Wrappers
  import opened JsValues
  import opened WindowStore

  /** What the middleware reads of a request: `req.ip` and the socket's
      `remoteAddress`, either of which may be undefined. */
  datatype Request = Request(ip: Option<string>, remoteAddress: Option<string>)

  /** A limit or window given to the factory: a constant, or a callback that is
      called on every request and reads the current configuration `E`. */
  datatype Setting<!E> = Fixed(value: Num) | Callback(read: E -> Num)

  /** A response header value: Node keeps numbers as numbers until it sends them. */
  datatype HeaderValue = NumberHeader(n: Num) | TextHeader(s: string)

  /** The JSON body of a 429 answer. */
  datatype ErrorBody = ErrorBody(error: string, message: string)

  /** What the middleware does with the response for one store outcome: the
      headers it sets, the 429 body it sends if any, and whether it calls `next()`. */
  datatype Verdict = Verdict(headers: map<string, HeaderValue>, rejection: Option<ErrorBody>, proceed: bool)

  const LimitHeader := "X-RateLimit-Limit"
  const WindowHeader := "X-RateLimit-Window"
  const RemainingHeader := "X-RateLimit-Remaining"
  const ResetHeader := "X-RateLimit-Reset"
  const StatusHeader := "X-RateLimit-Status"
  const TooManyRequests := 429

  /** `req.ip || req.connection.remoteAddress` as it appears inside the key's
      template string: an empty or missing `req.ip` falls back to the socket
      address, and a missing address is rendered as "undefined". */
  function ClientId(req: Request): (id: string)
    ensures req.ip.Some? && req.ip.value != "" ==> id == req.ip.value
    ensures (req.ip.None? || req.ip.value == "") && req.remoteAddress.Some? ==> id == req.remoteAddress.value
    ensures (req.ip.None? || req.ip.value == "") && req.remoteAddress.None? ==> id == "undefined"
  {
    if req.ip.Some? && req.ip.value != "" then req.ip.value
    else if req.remoteAddress.Some? then req.remoteAddress.value
    else "undefined"
  }

  const KeyPrefix := "ratelimit:"

  /** The store key of a (rule, client) pair. */
  function Key(ruleName: string, ip: string): (k: string)
    ensures |k| == |KeyPrefix| + |ruleName| + 1 + |ip|
    ensures k[..|KeyPrefix|] == KeyPrefix
    ensures k[|KeyPrefix| + |ruleName|] == ':'
    ensures k[|KeyPrefix|..|KeyPrefix| + |ruleName|] == ruleName
    ensures k[|KeyPrefix| + |ruleName| + 1..] == ip
  {
    KeyPrefix + ruleName + ":" + ip
  }

  /** Under one rule, different clients never share a key. */
  lemma KeySeparatesClients(ruleName: string, ip1: string, ip2: string)
    requires ip1 != ip2
    ensures Key(ruleName, ip1) != Key(ruleName, ip2)
  {
  }

  /** When rule names contain no ':', the key determines both the rule and the
      client: the first ':' after the prefix ends the rule name. */
  lemma KeyInjective(r1: string, ip1: string, r2: string, ip2: string)
    requires ':' !in r1 && ':' !in r2
    requires Key(r1, ip1) == Key(r2, ip2)
    ensures r1 == r2 && ip1 == ip2
  {
  }

  /** Rule names that contain ':' can collide, so the rule name is not recoverable in general. */
  lemma KeyAmbiguousWithColon()
    ensures Key("a:b", "c") == Key("a", "b:c")
  {
  }

  /** The value used for a setting on this request: a constant as given, a
      callback applied to the configuration as it is now. */
  function Resolve<E>(s: Setting<E>, current: E): (v: Num)
  {
    match s
    case Fixed(value) => value
    case Callback(read) => read(current)
  }

  /** `Math.max(0, finalLimit - currentCount)`; NaN propagates through both. */
  function Remaining(limit: Num, count: int): (r: Num)
    ensures r.NaN? <==> limit.NaN?
    ensures r.Int? ==> r.i >= 0
    ensures r.Int? ==> (r.i == 0 <==> count >= limit.i)
    ensures r.Int? && count <= limit.i ==> r.i == limit.i - count
  {
    match limit
    case NaN => NaN
    case Int(l) => Int(if l - count > 0 then l - count else 0)
  }

  /** The message of a 429 answer, naming the seconds until the window resets. */
  function RetryMessage(ttl: int): (m: string)
    ensures var d := DecimalString(ttl);
      |m| > 34 + |d| && m[34..34 + |d|] == d && ParseIntText(m[34..]) == Int(ttl)
  {
    var d := DecimalString(ttl);
    var m := "Rate limit exceeded. Try again in " + d + " seconds.";
    assert m[34..] == d + " seconds.";
    ParseIntDecimalPrefix(ttl, " seconds.");
    m
  }

  /** What the middleware does once the store call has settled. */
  function Respond(outcome: Result<Reply, StoreError>, finalLimit: Num, finalWindow: Num): (v: Verdict)
    // Fail-open: a store call that throws admits the request, marks it, and sets no quota header.
    ensures outcome.Err? ==> v.proceed && v.rejection.None? && v.headers == map[StatusHeader := TextHeader("Fail-Open")]
    // A reply sets the four quota headers, on the admit and the deny path alike.
    ensures outcome.Ok? ==> v.headers == map[
      LimitHeader := NumberHeader(finalLimit),
      WindowHeader := NumberHeader(finalWindow),
      RemainingHeader := NumberHeader(Remaining(finalLimit, outcome.value.currentCount)),
      ResetHeader := NumberHeader(Int(outcome.value.ttl))]
    // `next()` is called exactly when the store threw or answered allowed === 1.
    ensures v.proceed <==> outcome.Err? || outcome.value.allowed == 1
    ensures v.rejection.Some? <==> !v.proceed
    ensures v.rejection.Some? ==>
      v.rejection.value == ErrorBody("Too Many Requests", RetryMessage(outcome.value.ttl))
  {
    match outcome
    case Err(_) =>
      Verdict(map[StatusHeader := TextHeader("Fail-Open")], None, true)
    case Ok(Reply(allowed, currentCount, ttl)) =>
      var headers := map[
        LimitHeader := NumberHeader(finalLimit),
        WindowHeader := NumberHeader(finalWindow),
        RemainingHeader := NumberHeader(Remaining(finalLimit, currentCount)),
        ResetHeader := NumberHeader(Int(ttl))];
      if allowed == 1 then Verdict(headers, None, true)
      else Verdict(headers, Some(ErrorBody("Too Many Requests", RetryMessage(ttl))), false)
  }

  /** The response object as far as the middleware touches it. */
  class Response {
    var headers: map<string, HeaderValue>
    var statusCode: int
    var body: Option<ErrorBody>

    constructor ()
      ensures headers == map[] && statusCode == 200 && body == None
    {
      headers, statusCode, body := map[], 200, None;
    }

    /** `res.setHeader(name, value)`. */
    method SetHeader(name: string, value: HeaderValue)
      modifies this
      ensures headers == old(headers)[name := value]
      ensures statusCode == old(statusCode) && body == old(body)
    {
      headers := headers[name := value];
    }

    /** `res.status(code).json(body)`. */
    method SendError(code: int, b: ErrorBody)
      modifies this
      ensures statusCode == code && body == Some(b) && headers == old(headers)
    {
      statusCode := code;
      body := Some(b);
    }
  }

  /** The middleware returned by `rateLimiter(ruleName, windowSeconds, limit)`,
      run on one request. `current` is the configuration the callbacks read at
      this moment, `now` the store's clock and `connected` whether the store is
      reachable. Returns whether `next()` was called. */
  method Handle<E>(ruleName: string, windowSeconds: Setting<E>, limit: Setting<E>, current: E,
                   req: Request, res: Response, store: CounterStore, now: int, connected: bool)
    returns (next: bool)
    modifies res, store
    ensures var finalWindow := Resolve(windowSeconds, current);
      var finalLimit := Resolve(limit, current);
      var s := Evaluate(old(store.counters), Key(ruleName, ClientId(req)), finalWindow, finalLimit, now, connected);
      var v := Respond(s.outcome, finalLimit, finalWindow);
      && store.counters == s.counters
      && next == v.proceed
      && res.headers == old(res.headers) + v.headers
      && res.statusCode == (if v.rejection.Some? then TooManyRequests else old(res.statusCode))
      && res.body == (if v.rejection.Some? then v.rejection else old(res.body))
  {
    var ip := ClientId(req);
    var finalWindow := Resolve(windowSeconds, current);
    var finalLimit := Resolve(limit, current);
    var key := Key(ruleName, ip);
    var outcome := store.Eval(key, finalWindow, finalLimit, now, connected);
    next := Settle(res, outcome, finalLimit, finalWindow);
  }

  /** The part of the middleware after the store call has settled: set the
      headers, then call `next()` or answer 429. */
  method Settle(res: Response, outcome: Result<Reply, StoreError>, finalLimit: Num, finalWindow: Num)
    returns (next: bool)
    modifies res
    ensures var v := Respond(outcome, finalLimit, finalWindow);
      && next == v.proceed
      && res.headers == old(res.headers) + v.headers
      && res.statusCode == (if v.rejection.Some? then TooManyRequests else old(res.statusCode))
      && res.body == (if v.rejection.Some? then v.rejection else old(res.body))
  {
    ghost var v := Respond(outcome, finalLimit, finalWindow);
    ghost var before := res.headers;
    match outcome {
      case Ok(Reply(allowed, currentCount, ttl)) =>
        res.SetHeader(LimitHeader, NumberHeader(finalLimit));
        res.SetHeader(WindowHeader, NumberHeader(finalWindow));
        res.SetHeader(RemainingHeader, NumberHeader(Remaining(finalLimit, currentCount)));
        res.SetHeader(ResetHeader, NumberHeader(Int(ttl)));
        SetHeadersInTurn(before, NumberHeader(finalLimit), NumberHeader(finalWindow),
                         NumberHeader(Remaining(finalLimit, currentCount)), NumberHeader(Int(ttl)));
        if allowed == 1 {
          next := true;
        } else {
          res.SendError(TooManyRequests, ErrorBody("Too Many Requests", RetryMessage(ttl)));
          next := false;
        }
      case Err(_) =>
        res.SetHeader(StatusHeader, TextHeader("Fail-Open"));
        next := true;
    }
  }

  /** Setting the four quota headers one after the other adds them to what was there. */
  lemma SetHeadersInTurn(h: map<string, HeaderValue>, limit: HeaderValue, window: HeaderValue,
                          remaining: HeaderValue, reset: HeaderValue)
    ensures h[LimitHeader := limit][WindowHeader := window][RemainingHeader := remaining][ResetHeader := reset]
      == h + map[LimitHeader := limit, WindowHeader := window, RemainingHeader := remaining, ResetHeader := reset]
  {
  }

  // ---------------------------------------------------------------------------
  // The limiter over the store
  // ---------------------------------------------------------------------------

  /** End to end: a request is admitted exactly when the store is unreachable,
      when a resolved value is not a number (the script call fails and the
      request fails open), or when the count this call reaches is within the limit. */
  lemma AdmittedIff(m: Counters, key: string, finalWindow: Num, finalLimit: Num, now: int, connected: bool)
    ensures var s := Evaluate(m, key, finalWindow, finalLimit, now, connected);
      Respond(s.outcome, finalLimit, finalWindow).proceed <==>
        (!connected || finalWindow.NaN? || finalLimit.NaN? || CountAt(m, key, now) + 1 <= finalLimit.i)
  {
  }

  /** The headers of a burst in one window on a fresh key: call k (from 0) is
      admitted exactly when k < L, its Remaining header counts down to 0 and stays
      there, and every call reports the same window end. */
  lemma BurstHeaders(m: Counters, key: string, w: int, limit: int, times: seq<int>, k: nat)
    requires w > 0 && OneWindow(times, w) && !Live(m, key, times[0]) && k < |times|
    ensures var o := Run(m, key, Int(w), Int(limit), times).1[k];
      var v := Respond(o, Int(limit), Int(w));
      && o.Ok?
      && (v.proceed <==> k < limit)
      && v.headers[RemainingHeader] == NumberHeader(Int(if limit - (k + 1) > 0 then limit - (k + 1) else 0))
      && v.headers[ResetHeader] == NumberHeader(Int(times[0] + w - times[k]))
  {
    BurstInOneWindow(m, key, w, limit, times);
  }

  /** Fifteen requests in the same second under a limit of 10 per 60 seconds:
      the first ten pass with Remaining 9, 8, ..., 0, the last five are refused
      with Remaining 0, and all report a reset in 60 seconds. */
  lemma FifteenRequestsUnderTenPerMinute(m: Counters, key: string, t: int, k: nat)
    requires !Live(m, key, t) && k < 15
    ensures var o := Run(m, key, Int(60), Int(10), seq(15, _ => t)).1[k];
      var v := Respond(o, Int(10), Int(60));
      && o.Ok?
      && (k < 10 ==> v.proceed && v.headers[RemainingHeader] == NumberHeader(Int(9 - k)))
      && (k >= 10 ==> !v.proceed && v.rejection.Some? && v.headers[RemainingHeader] == NumberHeader(Int(0)))
      && v.headers[ResetHeader] == NumberHeader(Int(60))
  {
    BurstHeaders(m, key, 60, 10, seq(15, _ => t), k);
  }
}
