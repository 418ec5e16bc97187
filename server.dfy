/** The server's in-process state around the limiter: the operator-updatable
    global rule and its update handler, the traffic tallies kept per finished
    response, the per-country counts, the bounded history of snapshots, the
    status report, and the rate-limited `/api` pipeline that ties them together. */
module Server {
  import opened Wrappers
  import opened JsValues
  import opened WindowStore
  import opened RateLimiter

  // ---------------------------------------------------------------------------
  // The global rule
  // ---------------------------------------------------------------------------

  /** `activeRules.global`. */
  datatype Rule = Rule(limit: Num, window: Num)

  const InitialRule := Rule(Int(10), Int(60))
  const GlobalRuleName := "global"

  /** The callbacks the `/api` pipeline gives the limiter: they read the rule
      as it is when the request is evaluated. */
  const WindowCallback: Setting<Rule> := Callback((r: Rule) => r.window)
  const LimitCallback: Setting<Rule> := Callback((r: Rule) => r.limit)

  /** The answer of `POST /api/rules`: 200 with the new rule, or 400. */
  datatype UpdateReply = Updated(rule: Rule) | MissingLimitOrWindow

  function UpdateStatus(reply: UpdateReply): (code: int)
    ensures code == 200 || code == 400
    ensures code == 200 <==> reply.Updated?
  {
    if reply.Updated? then 200 else 400
  }

  /** The effect of `POST /api/rules` with body fields `limit` and `window`. */
  function ApplyUpdate(rule: Rule, limit: JsonValue, window: JsonValue): (r: (Rule, UpdateReply))
    ensures r.1.Updated? <==> Truthy(limit) && Truthy(window)
    ensures r.1.Updated? ==> r.0 == Rule(ParseInt(limit), ParseInt(window)) && r.1.rule == r.0
    ensures r.1.MissingLimitOrWindow? ==> r.0 == rule
  {
    if Truthy(limit) && Truthy(window) then
      var updated := Rule(ParseInt(limit), ParseInt(window));
      (updated, Updated(updated))
    else (rule, MissingLimitOrWindow)
  }

  /** The `activeRules` object. */
  class ActiveRules {
    var global: Rule

    constructor ()
      ensures global == InitialRule
    {
      global := InitialRule;
    }

    /** The `POST /api/rules` handler: both fields truthy, or nothing changes. */
    method Update(limit: JsonValue, window: JsonValue) returns (status: int, reply: UpdateReply)
      modifies this
      ensures (global, reply) == ApplyUpdate(old(global), limit, window)
      ensures status == UpdateStatus(reply)
    {
      if Truthy(limit) && Truthy(window) {
        global := global.(limit := ParseInt(limit));
        global := global.(window := ParseInt(window));
        status, reply := 200, Updated(global);
      } else {
        status, reply := 400, MissingLimitOrWindow;
      }
    }
  }

  /** Non-zero numbers are stored as sent. */
  lemma UpdateWithNumbers(rule: Rule, limit: int, window: int)
    requires limit != 0 && window != 0
    ensures ApplyUpdate(rule, Number(limit), Number(window)).0 == Rule(Int(limit), Int(window))
  {
  }

  /** Numbers sent as the strings a form field holds are stored as the numbers
      they spell. */
  lemma UpdateWithDecimalText(rule: Rule, limit: int, window: int)
    ensures ApplyUpdate(rule, Text(DecimalString(limit)), Text(DecimalString(window))).0 == Rule(Int(limit), Int(window))
  {
    var l, w := Text(DecimalString(limit)), Text(DecimalString(window));
    assert Truthy(l) && Truthy(w);
    assert ParseInt(l) == Int(limit) by {
      ParseIntDecimalString(limit);
    }
    assert ParseInt(w) == Int(window) by {
      ParseIntDecimalString(window);
    }
  }

  /** The check is truthiness only: the string "0" passes it and is stored as
      a limit of 0. */
  lemma UpdateAcceptsZeroText(rule: Rule)
    ensures ApplyUpdate(rule, Text("0"), Number(60)).0 == Rule(Int(0), Int(60))
  {
    ParseIntZeroText();
  }

  /** Negative numbers pass the truthiness check and are stored. */
  lemma UpdateAcceptsNegative(rule: Rule, limit: int, window: int)
    requires limit < 0 && window < 0
    ensures ApplyUpdate(rule, Number(limit), Number(window)).0 == Rule(Int(limit), Int(window))
  {
  }

  /** The number 0 fails the truthiness check: the update is refused. */
  lemma UpdateRefusesZeroNumber(rule: Rule, window: JsonValue)
    ensures ApplyUpdate(rule, Number(0), window) == (rule, MissingLimitOrWindow)
  {
  }

  /** A non-empty limit string with no number after its leading white space
      and sign (such as "abc", " -abc" or "0x") is accepted and stored as NaN. */
  lemma UpdateStoresNaN(rule: Rule, s: string, window: JsonValue)
    requires s != ""
    requires var t := TrimStart(s);
      var u := if |t| > 0 && (t[0] == '-' || t[0] == '+') then t[1..] else t;
      !StartsNumber(u)
    requires Truthy(window)
    ensures ApplyUpdate(rule, Text(s), window).0 == Rule(NaN, ParseInt(window))
  {
  }

  /** An accepted update is what the next evaluation sees: the callbacks resolve
      to the parsed values. */
  lemma UpdateReachesNextEvaluation(rule: Rule, limit: JsonValue, window: JsonValue)
    requires Truthy(limit) && Truthy(window)
    ensures var r := ApplyUpdate(rule, limit, window).0;
      Resolve(LimitCallback, r) == ParseInt(limit) && Resolve(WindowCallback, r) == ParseInt(window)
  {
  }

  /** A refused update leaves what the next evaluation sees as it was. */
  lemma RefusedUpdateChangesNothing(rule: Rule, limit: JsonValue, window: JsonValue)
    requires !Truthy(limit) || !Truthy(window)
    ensures var r := ApplyUpdate(rule, limit, window).0;
      Resolve(LimitCallback, r) == rule.limit && Resolve(WindowCallback, r) == rule.window
  {
  }

  /** With a NaN limit or window in the rule, under the assumed script the store
      call fails and every request is let through, marked Fail-Open: rate limiting is off. */
  lemma NaNRuleAdmitsEverything(rule: Rule, m: Counters, key: string, now: int, connected: bool)
    requires rule.limit.NaN? || rule.window.NaN?
    ensures var finalLimit := Resolve(LimitCallback, rule);
      var finalWindow := Resolve(WindowCallback, rule);
      var s := Evaluate(m, key, finalWindow, finalLimit, now, connected);
      var v := Respond(s.outcome, finalLimit, finalWindow);
      v.proceed && v.headers == map[StatusHeader := TextHeader("Fail-Open")] && s.counters == m
  {
  }

  /** A limit of 0 refuses every request while the store answers. */
  lemma ZeroLimitRefusesEverything(w: int, m: Counters, key: string, now: int)
    ensures var rule := Rule(Int(0), Int(w));
      var s := Evaluate(m, key, Resolve(WindowCallback, rule), Resolve(LimitCallback, rule), now, true);
      !Respond(s.outcome, Int(0), Int(w)).proceed
  {
  }

  // ---------------------------------------------------------------------------
  // Traffic tallies
  // ---------------------------------------------------------------------------

  /** `metrics.total`, `metrics.allowed` and `metrics.blocked`. */
  datatype Tallies = Tallies(total: nat, allowed: nat, blocked: nat)

  predicate Consistent(t: Tallies)
  {
    t.allowed + t.blocked <= t.total
  }

  /** The tally made when a response ends with `status`. */
  function Tally(t: Tallies, status: int): (r: Tallies)
    ensures r.total == t.total + 1
    ensures status == TooManyRequests ==> r.blocked == t.blocked + 1 && r.allowed == t.allowed
    ensures status != TooManyRequests && status < 400 ==> r.allowed == t.allowed + 1 && r.blocked == t.blocked
    ensures status != TooManyRequests && status >= 400 ==> r.allowed == t.allowed && r.blocked == t.blocked
    ensures Consistent(t) ==> Consistent(r)
  {
    if status == TooManyRequests then Tallies(t.total + 1, t.allowed, t.blocked + 1)
    else if status < 400 then Tallies(t.total + 1, t.allowed + 1, t.blocked)
    else Tallies(t.total + 1, t.allowed, t.blocked)
  }

  /** The tallies after responses ending with `statuses`, in order. */
  function TallyAll(t: Tallies, statuses: seq<int>): Tallies
    decreases |statuses|
  {
    if |statuses| == 0 then t
    else Tally(TallyAll(t, statuses[..|statuses| - 1]), statuses[|statuses| - 1])
  }

  /** How many of `statuses` are 429. */
  function CountBlocked(statuses: seq<int>): nat
  {
    if |statuses| == 0 then 0
    else CountBlocked(statuses[..|statuses| - 1]) + (if statuses[|statuses| - 1] == TooManyRequests then 1 else 0)
  }

  /** How many of `statuses` are below 400. */
  function CountSuccessful(statuses: seq<int>): nat
  {
    if |statuses| == 0 then 0
    else CountSuccessful(statuses[..|statuses| - 1]) + (if statuses[|statuses| - 1] < 400 then 1 else 0)
  }

  /** The tallies count exactly the responses: every one in total, the 429s as
      blocked, those below 400 as allowed; so allowed + blocked never exceeds total. */
  lemma {:induction false} TallyAllCounts(t: Tallies, statuses: seq<int>)
    ensures var r := TallyAll(t, statuses);
      && r.total == t.total + |statuses|
      && r.blocked == t.blocked + CountBlocked(statuses)
      && r.allowed == t.allowed + CountSuccessful(statuses)
      && (Consistent(t) ==> Consistent(r))
    decreases |statuses|
  {
    if |statuses| > 0 {
      TallyAllCounts(t, statuses[..|statuses| - 1]);
    }
  }

  // ---------------------------------------------------------------------------
  // Per-country counts
  // ---------------------------------------------------------------------------

  /** The count a dictionary holds for `country`, 0 when absent. */
  function CountOf(geo: map<string, nat>, country: string): nat
  {
    if country in geo then geo[country] else 0
  }

  /** The per-country increment: created at 0 when absent, then one more. */
  function Bump(geo: map<string, nat>, country: string): (r: map<string, nat>)
    ensures r.Keys == geo.Keys + {country}
    ensures r[country] == CountOf(geo, country) + 1
    ensures forall c :: c in geo && c != country ==> r[c] == geo[c]
  {
    geo[country := CountOf(geo, country) + 1]
  }

  /** The dictionary after requests from `countries`, in order. */
  function BumpAll(geo: map<string, nat>, countries: seq<string>): map<string, nat>
    decreases |countries|
  {
    if |countries| == 0 then geo
    else Bump(BumpAll(geo, countries[..|countries| - 1]), countries[|countries| - 1])
  }

  /** How often `country` occurs in `countries`. */
  function Occurrences(countries: seq<string>, country: string): nat
  {
    if |countries| == 0 then 0
    else Occurrences(countries[..|countries| - 1], country) + (if countries[|countries| - 1] == country then 1 else 0)
  }

  /** Each country's count grows by exactly the number of its requests, and the
      dictionary holds exactly the countries seen before or since. */
  lemma {:induction false} BumpAllCounts(geo: map<string, nat>, countries: seq<string>, country: string)
    ensures CountOf(BumpAll(geo, countries), country) == CountOf(geo, country) + Occurrences(countries, country)
    ensures country in BumpAll(geo, countries) <==> country in geo || country in countries
    decreases |countries|
  {
    if |countries| > 0 {
      var front := countries[..|countries| - 1];
      BumpAllCounts(geo, front, country);
      assert country in countries <==> country in front || country == countries[|countries| - 1];
    }
  }

  // ---------------------------------------------------------------------------
  // History
  // ---------------------------------------------------------------------------

  /** One history entry: the time label and the cumulative allowed count. */
  datatype Snapshot = Snapshot(time: string, allowed: nat)

  const MaxHistory := 20

  /** `history.push(e)`, then one `shift()` when the length exceeds 20. */
  function Push(h: seq<Snapshot>, e: Snapshot): (r: seq<Snapshot>)
    ensures |r| == (if |h| + 1 > MaxHistory then |h| else |h| + 1)
    ensures |h| <= MaxHistory ==> |r| <= MaxHistory
    ensures r == (h + [e])[|h| + 1 - |r|..]
    ensures r[|r| - 1] == e
  {
    var pushed := h + [e];
    if |pushed| > MaxHistory then pushed[1..] else pushed
  }

  /** The last (at most) 20 entries of `s`. */
  function Latest(s: seq<Snapshot>): (r: seq<Snapshot>)
    ensures |r| <= MaxHistory
  {
    if |s| <= MaxHistory then s else s[|s| - MaxHistory..]
  }

  /** The history after ticks that pushed `es`, in order. */
  function PushAll(h: seq<Snapshot>, es: seq<Snapshot>): seq<Snapshot>
    decreases |es|
  {
    if |es| == 0 then h
    else Push(PushAll(h, es[..|es| - 1]), es[|es| - 1])
  }

  lemma PushLatest(s: seq<Snapshot>, e: Snapshot)
    ensures Push(Latest(s), e) == Latest(s + [e])
  {
    if |s| > MaxHistory {
      assert (Latest(s) + [e])[1..] == (s + [e])[|s| + 1 - MaxHistory..];
    }
  }

  /** However many ticks happen, the history is the latest 20 snapshots of all
      that were pushed, oldest first. */
  lemma {:induction false} HistoryIsLatest(h: seq<Snapshot>, es: seq<Snapshot>)
    requires |h| <= MaxHistory
    ensures PushAll(h, es) == Latest(h + es)
    decreases |es|
  {
    if |es| == 0 {
      assert h + es == h;
    } else {
      var front, last := es[..|es| - 1], es[|es| - 1];
      HistoryIsLatest(h, front);
      PushLatest(h + front, last);
      AppendLast(h, es);
    }
  }

  lemma AppendLast(h: seq<Snapshot>, es: seq<Snapshot>)
    requires |es| > 0
    ensures h + es[..|es| - 1] + [es[|es| - 1]] == h + es
  {
    assert es[..|es| - 1] + [es[|es| - 1]] == es;
  }

  // ---------------------------------------------------------------------------
  // The metrics object
  // ---------------------------------------------------------------------------

  /** `metrics`: tallies, per-country counts and history, updated in place. */
  class Metrics {
    var total: nat
    var allowed: nat
    var blocked: nat
    var history: seq<Snapshot>
    var geo: map<string, nat>

    /** Each finished response is tallied at most once as allowed or blocked,
        and the history holds at most `MaxHistory` snapshots. */
    ghost predicate Valid()
      reads this
      ensures Valid() ==> Consistent(Counts())
    {
      allowed + blocked <= total && |history| <= MaxHistory
    }

    function Counts(): (t: Tallies)
      reads this
      ensures t.total == total && t.allowed == allowed && t.blocked == blocked
    {
      Tallies(total, allowed, blocked)
    }

    constructor ()
      ensures Valid()
      ensures Counts() == Tallies(0, 0, 0) && history == [] && geo == map[]
    {
      total, allowed, blocked := 0, 0, 0;
      history := [];
      geo := map[];
    }

    /** The geo counter increment for one `/api` request. */
    method RecordCountry(country: string)
      requires Valid()
      modifies this
      ensures Valid()
      ensures geo == Bump(old(geo), country)
      ensures Counts() == old(Counts()) && history == old(history)
    {
      if country !in geo || geo[country] == 0 {
        geo := geo[country := 0];
      }
      geo := geo[country := geo[country] + 1];
    }

    /** The wrapped `res.end`: tally the finished response by its status. */
    method RecordEnd(status: int)
      requires Valid()
      modifies this
      ensures Valid()
      ensures Counts() == Tally(old(Counts()), status)
      ensures history == old(history) && geo == old(geo)
    {
      if status == TooManyRequests {
        blocked := blocked + 1;
      } else if status < 400 {
        allowed := allowed + 1;
      }
      total := total + 1;
    }

    /** The periodic history tick, with the time label supplied by the caller. */
    method Tick(timeLabel: string)
      requires Valid()
      modifies this
      ensures Valid()
      ensures history == Push(old(history), Snapshot(timeLabel, allowed))
      ensures Counts() == old(Counts()) && geo == old(geo)
    {
      history := history + [Snapshot(timeLabel, allowed)];
      if |history| > MaxHistory {
        history := history[1..];
      }
    }
  }

  // ---------------------------------------------------------------------------
  // The status report
  // ---------------------------------------------------------------------------

  /** A pass or block rate: the literal default, or `part / whole * 100` before
      it is formatted. */
  datatype Rate = Whole(n: nat) | Fraction(part: nat, whole: nat)

  function Percent(r: Rate): real
  {
    match r
    case Whole(n) => n as real
    case Fraction(part, whole) => if whole == 0 then 0.0 else (part as real) * 100.0 / (whole as real)
  }

  /** `passRate` and `blockRate` of `/api/status`. */
  function Rates(t: Tallies): (r: (Rate, Rate))
    ensures t.total == 0 ==> r == (Whole(100), Whole(0))
    ensures t.total > 0 ==> r.0 == Fraction(t.allowed, t.total) && r.1 == Fraction(t.blocked, t.total)
  {
    if t.total > 0 then (Fraction(t.allowed, t.total), Fraction(t.blocked, t.total))
    else (Whole(100), Whole(0))
  }

  /** With consistent tallies both rates lie in [0, 100] and add up to at most 100. */
  lemma RatesArePercentages(t: Tallies)
    requires Consistent(t)
    ensures var r := Rates(t);
      && 0.0 <= Percent(r.0) <= 100.0 && 0.0 <= Percent(r.1) <= 100.0
      && Percent(r.0) + Percent(r.1) <= 100.0
  {
    if t.total > 0 {
      var w := t.total as real;
      var a := (t.allowed as real) * 100.0;
      var b := (t.blocked as real) * 100.0;
      assert a + b <= w * 100.0;
      ShareOfWhole(a, b, w);
    }
  }

  lemma ShareOfWhole(a: real, b: real, w: real)
    requires w > 0.0 && 0.0 <= a && 0.0 <= b && a + b <= w * 100.0
    ensures 0.0 <= a / w <= 100.0 && 0.0 <= b / w <= 100.0 && a / w + b / w <= 100.0
  {
    assert a / w + b / w == (a + b) / w;
    assert (a + b) / w <= (w * 100.0) / w;
  }

  /** The `metrics`, `rules` and `history` parts of the `/api/status` answer. */
  datatype StatusReport = StatusReport(
    total: nat, allowed: nat, blocked: nat, passRate: Rate, blockRate: Rate,
    geo: map<string, nat>, rule: Rule, history: seq<Snapshot>)

  /** `GET /api/status`, without the uptime, connectivity and latency figures. */
  method Status(metrics: Metrics, rules: ActiveRules) returns (report: StatusReport)
    requires metrics.Valid()
    ensures 0.0 <= Percent(report.passRate) <= 100.0 && 0.0 <= Percent(report.blockRate) <= 100.0
    ensures Percent(report.passRate) + Percent(report.blockRate) <= 100.0
    ensures report.total == metrics.total && report.allowed == metrics.allowed && report.blocked == metrics.blocked
    ensures metrics.total == 0 ==> report.passRate == Whole(100) && report.blockRate == Whole(0)
    ensures metrics.total > 0 ==>
      report.passRate == Fraction(metrics.allowed, metrics.total) && report.blockRate == Fraction(metrics.blocked, metrics.total)
    ensures report.geo == metrics.geo && report.rule == rules.global && report.history == metrics.history
  {
    var rates := Rates(metrics.Counts());
    RatesArePercentages(metrics.Counts());
    report := StatusReport(metrics.total, metrics.allowed, metrics.blocked, rates.0, rates.1,
                           metrics.geo, rules.global, metrics.history);
  }

  // ---------------------------------------------------------------------------
  // The rate-limited `/api` pipeline
  // ---------------------------------------------------------------------------

  /** One request through `app.use('/api', ...)`: count its country, hook the
      tally onto the end of the response, and run the limiter with the rule's
      callbacks. `country` stands for the GeoIP lookup, `routeStatus` for the
      status the downstream route answers with when the request gets through. */
  method HandleApi(metrics: Metrics, rules: ActiveRules, store: CounterStore, req: Request, res: Response,
                   country: string, routeStatus: int, now: int, connected: bool)
    returns (next: bool)
    requires metrics.Valid()
    modifies metrics, store, res
    ensures metrics.Valid()
    ensures var finalWindow := rules.global.window;
      var finalLimit := rules.global.limit;
      var s := Evaluate(old(store.counters), Key(GlobalRuleName, ClientId(req)), finalWindow, finalLimit, now, connected);
      var v := Respond(s.outcome, finalLimit, finalWindow);
      && store.counters == s.counters
      && next == v.proceed
      && res.headers == old(res.headers) + v.headers
      && res.statusCode == (if next then routeStatus else TooManyRequests)
      && (!next ==> res.body == v.rejection)
      && metrics.Counts() == Tally(old(metrics.Counts()), res.statusCode)
    ensures metrics.geo == Bump(old(metrics.geo), country)
    ensures metrics.history == old(metrics.history)
  {
    metrics.RecordCountry(country);
    next := Handle(GlobalRuleName, WindowCallback, LimitCallback, rules.global, req, res, store, now, connected);
    if next {
      res.statusCode := routeStatus;
    }
    metrics.RecordEnd(res.statusCode);
  }

  /** An accepted `POST /api/rules` followed by one `/api` request: the limiter
      resolves its callbacks when the request arrives, so the store call already
      uses the newly parsed limit and window. */
  method UpdateThenApi(rules: ActiveRules, metrics: Metrics, store: CounterStore, req: Request, res: Response,
                       limit: JsonValue, window: JsonValue, country: string, routeStatus: int, now: int, connected: bool)
    returns (next: bool)
    requires metrics.Valid() && Truthy(limit) && Truthy(window)
    modifies rules, metrics, store, res
    ensures rules.global == Rule(ParseInt(limit), ParseInt(window))
    ensures var s := Evaluate(old(store.counters), Key(GlobalRuleName, ClientId(req)), ParseInt(window), ParseInt(limit), now, connected);
      var v := Respond(s.outcome, ParseInt(limit), ParseInt(window));
      && store.counters == s.counters
      && next == v.proceed
      && res.headers == old(res.headers) + v.headers
  {
    var status, reply := rules.Update(limit, window);
    next := HandleApi(metrics, rules, store, req, res, country, routeStatus, now, connected);
  }
}
