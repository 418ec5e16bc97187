# LimitGuard rate limiter — a verified Dafny model

LimitGuard is an Express service that caps how many requests one client may
make under a named rule within a time window. It keeps the count in a shared
Redis store, so every instance of the service sees the same count. This project
models the decision path and the in-process state around it:

- **The middleware** (`src/middleware/rateLimiter.js`). It builds the key
  `ratelimit:<rule>:<ip>` and resolves the limit and the window on every
  request, since either may be a constant or a callback. It makes one atomic
  store call that returns `[allowed, currentCount, ttl]`. It then sets the
  `X-RateLimit-*` headers and either calls `next()` or answers 429. If the store
  call throws, it fails open: it marks the response `X-RateLimit-Status:
  Fail-Open` and lets the request through.
- **The store**. It is an atomic fixed-window counter map from key to
  (count, expiry). The map is a class field that `Eval` updates in one step.
  The Lua script behind the call is not part of the source. The model ASSUMES
  a conventional fixed-window script: it increments the counter, sets the
  expiry only on the call that opens the window, reads the TTL, and answers
  `allowed = count <= limit`.
- **The server state** (`src/server.js`):
  - `activeRules.global` (10 requests per 60 s at start) and the
    `POST /api/rules` handler, which checks JavaScript truthiness and then
    applies `parseInt`;
  - the `metrics` tallies, updated when each `/api` response ends;
  - the per-country counts;
  - the history, capped at 20 entries;
  - the zero-total defaults of `/api/status`;
  - the `/api` pipeline that ties these to the limiter.

Module layout:

- `wrappers.dfy`: `Option` and `Result`.
- `js_values.dfy`: the JavaScript semantics the two files depend on. These are
  truthiness, NaN, `String(n)` for integers and `parseInt` with no radix
  (leading white space, sign, `0x` prefix, longest digit run). It includes the
  round trip `parseInt(String(n)) == n`.
- `window_store.dfy`: the store, as a pure `Evaluate` plus the `CounterStore`
  class. It also holds lemmas about bursts of calls, exactness, inclusivity of
  the limit and window reset.
- `rate_limiter.dfy`: the key, the setting resolution, the quota headers, the
  pure `Respond` verdict, the `Response` object and the imperative `Handle`
  middleware.
- `server.dfy`: the `ActiveRules` and `Metrics` classes, their specification
  functions and lemmas, `Status` and `HandleApi`.

Three behaviours of the code are worth stating plainly:

- **Rule updates.** `POST /api/rules` checks truthiness only, so the string
  `"0"`, negative numbers and non-numeric text are accepted. Text with no digit
  after its leading white space and sign (such as `"abc"`) is stored as NaN;
  text that starts with digits (such as `"12abc"`) is stored as its leading
  number. Under the assumed script, a NaN argument makes every later
  store call throw, so every request fails open. The lemmas
  `UpdateAcceptsZeroText`, `UpdateAcceptsNegative`, `UpdateStoresNaN`,
  `NaNRuleAdmitsEverything` and `ZeroLimitRefusesEverything` state these cases.
- **The fail-open path.** When the store call throws, the middleware sets only
  `X-RateLimit-Status` and no quota header.
- **Rules.** There is no unknown-rule error and no fail-closed switch. The
  callbacks read `activeRules.global` directly, and fail-open is hard-coded.

## Model

| member | source | states |
|---|---|---|
| `JsValues.ParseIntDecimalString` | src/server.js:106-107 | `parseInt` reads the decimal rendering of any integer back as that integer |
| `JsValues.Truthy` | src/server.js:105 | a body field passes the `limit && window` check exactly when it is none of the falsy values `undefined`, `null`, `false`, `0` and `""` |
| `JsValues.DecimalString` | src/middleware/rateLimiter.js:40 | `${ttl}`: non-empty; a `-` first exactly for negatives, decimal digits everywhere else; no leading zero (the first digit is not '0' unless n is 0), and "0" only for 0 |
| `JsValues.ParseIntText` | src/server.js:106-107 | `parseInt` on text gives a number exactly when, after leading white space and an optional sign, a decimal digit follows (and at least one hexadecimal digit after a `0x` prefix); the number is ≤ 0 after a `-` and ≥ 0 otherwise |
| `JsValues.ParseInt` | src/server.js:106-107 | a numeric body field reads back as the same number, and `undefined`, `null`, `true` and `false` read as NaN |
| `JsValues.ParseIntDecimalPrefix` | src/server.js:106-107 | `parseInt` stops at the first character that cannot continue the digits, so a rendered integer followed by other text still reads back as that integer |
| `JsValues.ParseIntNonNegativeDigits` | src/server.js:106-107 | the digits of a natural number, followed by text that ends the number, parse to that number |
| `JsValues.ParseIntNegativeDigits` | src/server.js:106-107 | a `-` before the digits of m, followed by text that ends the number, parses to -m |
| `JsValues.ParseIntNoDigit` | src/server.js:106-107 | text that starts with neither white space, a sign nor a digit parses to NaN |
| `JsValues.ParseIntZeroText` | src/server.js:106-107 | the form string "0" parses to 0 |
| `WindowStore.Evaluate` | src/middleware/rateLimiter.js:26-27 | the assumed script: disconnected or non-integer arguments throw and change nothing; otherwise `allowed` is 0 or 1 and is 1 exactly when the new count (old live count + 1) is at most the limit; `ttl` is the window for a new window and the time left for a live one; only the key's record changes |
| `WindowStore.CounterStore.Eval` | src/middleware/rateLimiter.js:27 | the one atomic store call: new map and returned triple are exactly those of `Evaluate` on the old map |
| `WindowStore.BurstInOneWindow` | src/middleware/rateLimiter.js:26-27 | on a fresh key, calls within one window see counts 1, 2, …; call k is allowed exactly when k ≤ limit (the limit is inclusive); every call reports the same window end |
| `WindowStore.ExactlyLimitAdmitted` | src/middleware/rateLimiter.js:26-27 | K serialized calls in one window admit exactly min(K, L) and leave the count at K |
| `WindowStore.WindowReset` | src/middleware/rateLimiter.js:26-27 | after the window lapses, the next call counts 1, is admitted when the limit is at least 1, and reports the full window |
| `WindowStore.FullWindowThenReset` | src/middleware/rateLimiter.js:26-27 | after a burst of any size, a call made after the window's end is admitted with count 1 |
| `WindowStore.OtherKeysUntouched` | src/middleware/rateLimiter.js:27 | a call on one key leaves every other key's record unchanged |
| `RateLimiter.ClientId` | src/middleware/rateLimiter.js:16 | `req.ip`, or the socket address when `req.ip` is empty or missing, or "undefined" when both are missing |
| `RateLimiter.Key` | src/middleware/rateLimiter.js:22 | the key is `ratelimit:` followed by the rule name, `:` and the IP, each part at a known position |
| `RateLimiter.KeySeparatesClients` | src/middleware/rateLimiter.js:22 | under one rule, different IPs give different keys |
| `RateLimiter.KeyInjective` | src/middleware/rateLimiter.js:22 | for rule names without `:`, equal keys mean equal rule and equal IP |
| `RateLimiter.KeyAmbiguousWithColon` | src/middleware/rateLimiter.js:22 | rule names with `:` can collide, so the restriction above is needed |
| `RateLimiter.Remaining` | src/middleware/rateLimiter.js:32 | `max(0, limit - count)`: never negative, 0 exactly when count ≥ limit, `limit - count` below that, NaN only for a NaN limit |
| `RateLimiter.RetryMessage` | src/middleware/rateLimiter.js:40 | the 429 message holds the ttl's decimal text at a fixed place, and `parseInt` reads the ttl back from there |
| `RateLimiter.Respond` | src/middleware/rateLimiter.js:27-51 | if the store threw: proceed, no 429, only the Fail-Open header. If it replied: the Limit, Window, Remaining and Reset headers hold the resolved limit, the resolved window, `Remaining` and the ttl, on both paths. `next()` is called exactly when the store threw or `allowed === 1`; otherwise a 429 body "Too Many Requests" with the ttl message |
| `RateLimiter.Response.SetHeader` | src/middleware/rateLimiter.js:30-33 | sets one header and changes nothing else |
| `RateLimiter.Response.SendError` | src/middleware/rateLimiter.js:38-41 | sets the status and the JSON body and keeps the headers |
| `RateLimiter.Handle` | src/middleware/rateLimiter.js:14-53 | the middleware on one request. It resolves both settings at call time against the current configuration, then calls the store once with `Key(rule, ClientId(req))`. The new store map is the one `Evaluate` gives. The response headers gain exactly `Respond`'s headers. The status is 429 with the error body exactly when the request is refused. `next` is exactly `Respond`'s proceed |
| `RateLimiter.Settle` | src/middleware/rateLimiter.js:30-51 | after the store call settles, the response headers gain exactly `Respond`'s headers; status and body become 429 and the error body exactly when `Respond` refuses, and are left alone otherwise; `next` is `Respond`'s proceed |
| `RateLimiter.AdmittedIff` | src/middleware/rateLimiter.js:35-51 | a request is admitted if and only if the store is unreachable, or a resolved value is NaN, or the count this call reaches is within the limit |
| `RateLimiter.BurstHeaders` | src/middleware/rateLimiter.js:30-42 | in a burst on a fresh key, call k is admitted if and only if k < L. Its Remaining header counts down to 0 and stays there. Its Reset header is the time left in the one window |
| `RateLimiter.FifteenRequestsUnderTenPerMinute` | src/middleware/rateLimiter.js:30-42 | under 10 per 60 s, fifteen same-second requests: the first ten pass with Remaining 9…0, the last five get 429 with Remaining 0, and all report Reset 60 |
| `Server.ApplyUpdate` | src/server.js:104-112 | an update is accepted if and only if both fields are truthy. Then the rule becomes (`parseInt(limit)`, `parseInt(window)`) and is echoed back. Otherwise the rule is unchanged |
| `Server.UpdateStatus` | src/server.js:109-111 | 200 exactly for an accepted update, 400 otherwise |
| `Server.ActiveRules.constructor` | src/server.js:19-21 | the rule starts as limit 10, window 60 |
| `Server.ActiveRules.Update` | src/server.js:103-113 | the handler's new rule and reply are those of `ApplyUpdate`, so a refused update changes nothing; the status it answers with is `UpdateStatus` of the reply |
| `Server.UpdateWithNumbers` | src/server.js:105-107 | non-zero numbers sent as numbers are stored exactly |
| `Server.UpdateWithDecimalText` | src/server.js:105-107 | any integer sent as its decimal string (what a form field holds) is stored as that integer; "0" included, since a non-empty string is truthy |
| `Server.UpdateAcceptsZeroText` | src/server.js:105-107 | the string "0" passes the check and stores a limit of 0 |
| `Server.UpdateAcceptsNegative` | src/server.js:105-107 | negative numbers pass the check and are stored |
| `Server.UpdateRefusesZeroNumber` | src/server.js:105-111 | the number 0 fails the check; the rule stays as it was |
| `Server.UpdateStoresNaN` | src/server.js:105-107 | a non-empty limit string with no number after its leading white space and sign (such as "abc", " -abc" or "0x") is accepted and stored as NaN |
| `Server.UpdateReachesNextEvaluation` | src/server.js:146-149 | after an accepted update, the limiter's callbacks resolve to the newly parsed values |
| `Server.RefusedUpdateChangesNothing` | src/server.js:110-112 | after a refused update, the callbacks resolve to the old values |
| `Server.NaNRuleAdmitsEverything` | src/server.js:146-149 | under the assumed script, with a NaN limit or window every request is let through marked Fail-Open and no counter changes |
| `Server.UpdateThenApi` | src/middleware/rateLimiter.js:19-20 | after an accepted rule update, the very next `/api` request is limited under the new values: the rule is (`parseInt(limit)`, `parseInt(window)`), and the store call, the quota headers and `next` are those of `Evaluate` and `Respond` with exactly those values, because the limiter resolves its callbacks when the request arrives |
| `Server.ZeroLimitRefusesEverything` | src/server.js:146-149 | with limit 0, every request the store answers is refused |
| `Server.Tally` | src/server.js:135-142 | `total` +1 always; 429 adds to `blocked`, below 400 adds to `allowed`, anything else neither; `allowed + blocked ≤ total` is kept |
| `Server.TallyAllCounts` | src/server.js:135-142 | after any sequence of responses: `total` grew by their number, `blocked` by the 429s, `allowed` by those below 400, and the invariant holds |
| `Server.Bump` | src/server.js:130-131 | the country's count becomes its old count (0 if absent) + 1, every other country is unchanged, and no other key appears |
| `Server.BumpAllCounts` | src/server.js:130-131 | after any sequence of requests, each country's count grew by exactly its number of requests, and the dictionary holds exactly the countries seen |
| `Server.Push` | src/server.js:29-39 | push, then one shift when over 20: the result is a suffix of the old history plus the new entry, ends with the new entry, and stays within 20 when the old history was |
| `Server.HistoryIsLatest` | src/server.js:29-39 | after any number of ticks, the history is the latest 20 snapshots, oldest first |
| `Server.Metrics.Valid` | src/server.js:135-142 | the metrics invariant: the tallies are consistent (`allowed + blocked ≤ total`, since each finished response is tallied once, as allowed, blocked or neither) and the history holds at most 20 entries (the cap at server.js:39) |
| `Server.Metrics.constructor` | src/server.js:9-15 | all tallies 0, empty history, empty country dictionary |
| `Server.Metrics.RecordCountry` | src/server.js:130-131 | the dictionary becomes `Bump` of the old one; tallies and history are unchanged, and the metrics invariant is kept |
| `Server.Metrics.RecordEnd` | src/server.js:135-142 | the tallies become `Tally` of the old ones, and the metrics invariant is kept |
| `Server.Metrics.Tick` | src/server.js:24-40 | the history becomes `Push` of the old one with a snapshot of the current `allowed`; the length stays ≤ 20 |
| `Server.Rates` | src/server.js:93-94 | with total 0, pass rate 100 and block rate 0; otherwise the ratios allowed/total and blocked/total |
| `Server.RatesArePercentages` | src/server.js:93-94 | with consistent tallies both rates lie in [0, 100] and add up to at most 100 |
| `Server.Status` | src/server.js:81-99 | the report carries the tallies, the rates above, the country counts, the current rule and the history; both rates lie in [0, 100] and add up to at most 100 |
| `Server.HandleApi` | src/server.js:117-150 | one `/api` request: the country is counted, and the limiter runs with the rule's current values under the key `ratelimit:global:<ip>`. The response ends with the route's status if admitted, 429 with the limiter's "Too Many Requests" body if not. The tallies become `Tally` of the old ones by that status. The history is untouched |

## Left out

- The Lua script is not part of the source. `WindowStore.Evaluate` assumes a conventional fixed-window script (increment, set the expiry on the call that opens the window, read the TTL). Two details are assumed as well. First, a NaN argument makes every call throw before it touches the counter. That needs a script that checks its arguments first: a script that increments first would reach `EXPIRE` only on the call that opens the window, so a NaN window would throw on that call only, and later calls would count with no expiry instead of failing open. Second, a non-positive window opens a window that has already lapsed.
- NaNRuleAdmitsEverything: assumes that a script call which throws leaves every counter unchanged. Redis does not roll back a script's earlier writes on error, so a script that increments before it fails would keep the increment.
- The Redis client, its connection and its retry settings are not modelled. Reachability is the `connected` parameter. Timeouts and malformed replies are folded into "the call threw".
- Concurrency across requests and instances is not modelled. Each store call and each handler runs as one atomic step, so interleavings at `await` are not modelled.
- The clock is a parameter (`now`, and the history `timeLabel`). The `setInterval` scheduling and the time-label formatting are left out.
- GeoIP lookup and the random demo country are foreign code and randomness. The country is a parameter of `HandleApi`.
- The downstream routes (`/api/test`, Express's 404) are outside the limiter. They are represented only by the status they answer with (`routeStatus`).
- `/api/status` leaves out uptime, the Redis ping, latency, timestamps and the `toFixed` formatting of the rates, which are clock, I/O and floating point. Rates are kept as exact ratios.
- Logging to the console is not modelled. Nor are Express routing, CORS, `/health`, `/`, the TLS/HTTP server setup and startup.
- Header names are kept as written. Node's case-insensitive header storage is not modelled.
- The `Content-Type` header that `res.json` adds to the 429 answer is not modelled. The model keeps only the headers the limiter sets itself.
- The dashboard, the dev start script, certificate generation and the load-test script are not part of this model.
- JsValues.ToJsString: renders every body number in plain decimal. JavaScript uses exponent notation from 1e21, and numbers beyond 2^53 lose precision, so `ParseInt` is stated for the model's exact integers. Fractional numbers, objects and arrays in the body are not modelled.
- JsValues.ParseIntText: reads arbitrarily long digit runs exactly. JavaScript rounds values beyond 2^53.
