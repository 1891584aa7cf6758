# Per-API-key rate limiting in front of the main service

This project models the admission layer of the main service: the servlet filter
`RateLimitingFilter`, which rejects requests without an `X-API-KEY` header, and
the `RateLimitingService` it consults, a fixed-window rate limiter keyed by API
key.

The limiter keeps one `RequestData` record per API key: a request count and the
time the key's current window began. For each request it either creates a fresh
record `(1, now)` (no record yet, or the window is over: more than 60000 ms since
its first request) or increments the stored record in place. The request is
admitted when the count after this update is at most `requestsPerMinute`.
Refused requests are counted too. Records are never removed.

Files:

- `wrappers.dfy`: `Option`, the model of a nullable reference.
- `rate_limiting_service.dfy` (module `RateLimiting`):
  - the value of a record (`Entry`) and the window test (`IsWindowExpired`);
  - `Admit`, one call of `isAllowed` as a function on the map of record values;
  - `Run`, a sequence of such calls, and the lemmas about sequences of calls;
  - the classes `RequestData` and `RateLimitingService`. The service holds
    `requestCounts: map<string, RequestData>` of record objects that are
    incremented in place. `Valid()` ties the objects to the ghost map `entries`
    of their values. `IsAllowed` is proved to change `entries` exactly as
    `Admit` does.
- `rate_limiting_filter.dfy` (module `Filter`):
  - Java's `isBlank` and the missing-key test;
  - `Decide`, the three-way decision, and `Respond`, its effect on the response;
  - the class `RateLimitingFilter`, whose `DoFilterInternal` is proved to match
    `Decide` and `Respond`.

The clock is an explicit parameter. `currentTime: nat` is the value
`System.currentTimeMillis()` returns, which the source reads at the start of
`isAllowed`. Times are non-negative and far below 2^63, so the source's `long`
subtraction `currentTime - firstRequestTime` never overflows. The model's
unbounded `int` subtraction therefore computes the same value, including the
negative differences a clock that steps back produces (such a request stays in
the old window).

## Model

| member | source | states |
|---|---|---|
| RateLimiting.IsWindowExpired | src/main/java/resilience/mainservice/main/filter/RateLimitingService.java:47-50 | A window has expired iff the clock reading is strictly more than 60000 ms past its first request. A clock reading before that instant (including one that stepped back) never expires it. |
| RateLimiting.Recompute | src/main/java/resilience/mainservice/main/filter/RateLimitingService.java:31-37 | The value the remapping function stores. A missing or expired record becomes `(1, now)`; otherwise the same window goes on with one more request. Either way the stored record has counted at least one request and its window is open at `now`. |
| RateLimiting.Admit | src/main/java/resilience/mainservice/main/filter/RateLimitingService.java:25-42 | Only `apiKey`'s record may change and the key set grows by exactly `{apiKey}`. A key without a record gets `(1, now)`. An expired record is replaced by `(1, now)`, so its old count is discarded. Inside the window the count grows by exactly 1 and the window start stays, whether or not the request is then admitted, so denied requests still count. The answer is true iff the updated count is at most the limit (inclusive). Every count stays at least 1. |
| RateLimiting.WindowBoundary | src/main/java/resilience/mainservice/main/filter/RateLimitingService.java:47-50 | The expiry test is strict. A request exactly 60000 ms after the window's first request is counted in the old window. One 60001 ms after it starts a new window `(1, now)`. |
| RateLimiting.Run | src/main/java/resilience/mainservice/main/filter/RateLimitingService.java:25-42 | Successive calls of isAllowed give one answer per call, and every stored count stays at least 1. |
| RateLimiting.BurstWithinWindow | src/main/java/resilience/mainservice/main/filter/RateLimitingService.java:30-41 | Any sequence of calls with one key, at any clock readings at which its window has not expired, raises the count by exactly the number of calls, admitted or refused, and leaves the window start and the key set alone. The i-th call is admitted iff `count + i + 1 <= limit`. |
| RateLimiting.BurstFromNoRecord | src/main/java/resilience/mainservice/main/filter/RateLimitingService.java:30-41 | `n` calls at the same instant with a key that has no record: call i is admitted iff `i < requestsPerMinute`, so none is admitted when the limit is below 1. Afterwards the key holds `(n, now)`. |
| RateLimiting.BurstAdmitsUpToLimit | src/main/java/resilience/mainservice/main/filter/RateLimitingService.java:30-41 | Of those `n` calls exactly `min(n, requestsPerMinute)` are admitted, and 0 when the limit is below 1. |
| RateLimiting.DeniedUntilWindowExpires | src/main/java/resilience/mainservice/main/filter/RateLimitingService.java:35-41 | Once a key's count has reached the limit, every later call with that key is refused as long as its window has not expired, whatever calls with other keys come in between. |
| RateLimiting.KeysAreIndependent | src/main/java/resilience/mainservice/main/filter/RateLimitingService.java:30-38 | For any interleaving of calls, a key's final record and the answers to its own calls equal those of running only that key's calls from the same record of that key. |
| RateLimiting.FiveAdmittedSixthRefusedThenReset | src/main/java/resilience/mainservice/main/filter/RateLimitingService.java:25-50 | With limit 5: five calls at one instant are admitted and a sixth is refused. A call 61 s later is admitted and leaves the record `(1, now)`. |
| RateLimiting.RequestData.constructor | src/main/java/resilience/mainservice/main/filter/RateLimitingService.java:59-62 | A new record holds the given count and window start. |
| RateLimiting.RequestData.IncrementCount | src/main/java/resilience/mainservice/main/filter/RateLimitingService.java:72-74 | The record's count grows by exactly 1 in place. The window start is a constant. |
| RateLimiting.RateLimitingService.constructor | src/main/java/resilience/mainservice/main/filter/RateLimitingService.java:13-18 | The service starts with no records and the configured limit. |
| RateLimiting.RateLimitingService.Remap | src/main/java/resilience/mainservice/main/filter/RateLimitingService.java:30-38 | The remapping function given to `compute`. For null or an expired record it returns a fresh record `(1, now)` and leaves the replaced record as it was. Otherwise it returns the same object, incremented by 1. |
| RateLimiting.RateLimitingService.Compute | src/main/java/resilience/mainservice/main/filter/RateLimitingService.java:30-38 | `compute` stores Remap's result under the key and returns that very object, now stored under the key. The new record values are the old ones with the key's value replaced by `Recompute` of its old value, so the other keys' values are unchanged. The representation stays valid and any record it allocates is new. |
| RateLimiting.RateLimitingService.IsAllowed | src/main/java/resilience/mainservice/main/filter/RateLimitingService.java:25-42 | The new record values and the answer are exactly those of `Admit` on the old values, so every property proved of `Admit` and `Run` holds of the service. |
| Filter.IsBlank | src/main/java/resilience/mainservice/main/filter/RateLimitingFilter.java:27 | A key is blank iff every character is a Java whitespace character. This includes the empty key. |
| Filter.BlankKeyExamples | src/main/java/resilience/mainservice/main/filter/RateLimitingFilter.java:27 | The empty and whitespace-only keys are blank. A key of non-breaking spaces is not blank, since Java does not count U+00A0 as whitespace. |
| Filter.Decide | src/main/java/resilience/mainservice/main/filter/RateLimitingFilter.java:24-41 | 401 iff the header is missing or blank, and then the limiter's records are unchanged. Otherwise the limiter counts the request: it is forwarded iff the limiter admits it and gets 429 iff it refuses it. |
| Filter.Respond | src/main/java/resilience/mainservice/main/filter/RateLimitingFilter.java:27-41 | The chain is invoked iff the decision is Forward. Status 401 with "API Key is missing." iff Unauthorized. Status 429 with "Too many requests for this API Key." iff TooMany. A forwarded response is left untouched. Exactly one of the three happens. |
| Filter.RateLimitingFilter.constructor | src/main/java/resilience/mainservice/main/filter/RateLimitingFilter.java:14-18 | The filter holds the limiter it was built with. |
| Filter.RateLimitingFilter.DoFilterInternal | src/main/java/resilience/mainservice/main/filter/RateLimitingFilter.java:21-42 | The response and the limiter's new records are exactly those of `Decide` and `Respond`. Any record the limiter allocates is new, so objects the caller holds are untouched and the filter can be called again. For a missing or blank key the limiter object is not changed at all. |

## Left out

- Concurrency: `ConcurrentHashMap.compute` is modelled as one atomic sequential step. The source also reads `getCount()` at line 41 after `compute` has returned. Under concurrent calls, another thread may increment the same record in between, so a request can be refused that its own count would have admitted. The model, being sequential, does not capture this.
- RateLimiting.RequestData.IncrementCount: `count` is an unbounded `nat`. Java's `int` would wrap to a negative value after 2^31 requests in one window, and the request would then be admitted again.
- The clock: `System.currentTimeMillis()` is replaced by the `currentTime` parameter. The filter passes it through to `IsAllowed`.
- The servlet request, response and filter chain are replaced by the header value (`Option<string>`, None for a missing header) and the `Response` value. That value records the status set, the body written and whether `filterChain.doFilter` is called. Writer I/O errors (`IOException`, `ServletException`) are not modelled.
- Filter.IsBlank: strings are sequences of Unicode scalar values. Java strings are UTF-16 and may hold unpaired surrogates, which are never whitespace in Java and so cannot change a blank/non-blank answer.
- Reading `api.requests-per-minute` from configuration is not modelled; the limit is the constructor argument.
- The circuit breaker and its logging hooks (CircuitBreakerLogConfig.java), the protected mail client and its timeout and fallback (MailServiceClientWebClient.java), the payment client, service and controller, the exception handler, the filter registration (FilterConfig.java), the DTOs and the exception classes are not part of this model. They are library configuration, network calls or plumbing without behaviour of their own.
- The load test PaymentControllerIntegrationTest.java is not modelled. It is a multi-threaded load generator with floating-point rate arithmetic.
- Stale records are never evicted, as in the source; no eviction is modelled.
