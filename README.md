# Player-directory cache proxy

A Dafny model of the serverless proxy in `api/players.py` of the fantasy-league
dashboard. The proxy answers requests for the full NFL player directory. It
keeps the last directory it fetched in a module-level record
`player_data_cache = {data, timestamp}`. For each request it does one of four things:

- it serves that record while the data is truthy and younger than
  `CACHE_DURATION` (24 hours);
- otherwise it asks the upstream sports API and, on success, overwrites both
  fields and serves the new directory;
- if upstream fails, it serves the old data when the data is truthy;
- if upstream fails and no truthy data is cached, it answers 500 with a JSON error object.

Every 200 response carries `Content-Type: application/json` and
`Cache-Control: public, max-age=86400, s-maxage=86400, stale-while-revalidate=172800`.
That header is built from `CACHE_DURATION` by an f-string.

Files:

- `decimal.dfy` (module `Decimal`) renders a natural number in decimal, as
  Python's `str(int)` does inside the f-string. It also has the parser that
  reads such a number back.
- `players.dfy` (module `Players`) holds the handler.
  - `Json` is a decoded upstream payload and `Truthy` gives Python's truthiness of it.
  - `CacheState` is the record and `FetchOutcome` is the upstream answer.
  - `Serve` handles one request. It is the specification.
  - Class `PlayerDataCache` is the module-level record. Its fields are updated in place.
    Its method `Handle` is proved to behave as `Serve` does.
  - The lemmas give each branch's behaviour and the header value.
- `player_requests.dfy` (module `PlayerRequests`) replays a sequence of
  requests against one record, and `HandleAll` proves that calling `Handle`
  once per request gives that replay. It proves what the cache achieves over
  many calls:
  - once truthy data is cached, no request gets a 500, provided upstream never
    answers with a falsy payload such as `{}` (a stored `{}` makes the next
    failure a 500);
  - every body served is the starting data or the payload of a refresh;
  - the record after a run is the one left by the last refresh;
  - when requests arrive in time order and every upstream answer is a truthy
    payload, upstream is asked at most once per `CACHE_DURATION`;
  - there is no back-off while upstream is failing.

The upstream request is an abstract outcome, `Fetched(payload)` or
`FetchFailed`, given to the handler as a parameter. It decides the result only
when the cache is not served directly. Time is an integer number of seconds,
also given as a parameter.

## Model

| member | source | states |
|---|---|---|
| `Decimal.NatToString` | api/players.py:54 | The decimal text of a number in the f-string is non-empty, holds only digits and has no leading zero. |
| `Decimal.ParseNatToString` | api/players.py:54 | Reading the decimal text back gives the original number, so the header's numbers denote exactly the values formatted. |
| `Players.DurationDigits` | api/players.py:12 | `CACHE_DURATION = 24 * 60 * 60` is written as `86400`. |
| `Players.DoubleDurationDigits` | api/players.py:54 | `CACHE_DURATION * 2` is written as `172800`. |
| `Players.CacheControlValue` | api/players.py:54 | The Cache-Control value is `public, max-age=86400, s-maxage=86400, stale-while-revalidate=172800`. |
| `Players.Serve` | api/players.py:20-49 | Only a successful refresh writes the record, and then it writes the payload and `now`. The timestamp changes only on that path. The status is always 200 or 500, and it is 500 exactly when upstream failed and the cached data is not truthy. |
| `Players.FreshHit` | api/players.py:20-23 | With truthy data and an age below `CACHE_DURATION`, the response is 200 with the cached data and the record is unchanged. Every upstream outcome gives the same result. |
| `Players.ExpiryBoundary` | api/players.py:20 | With truthy data, a different upstream payload is served if and only if `now - timestamp >= CACHE_DURATION`. The boundary is strict: an age of exactly `CACHE_DURATION` is a miss. |
| `Players.FalsyCacheIsMiss` | api/players.py:20-35 | With absent or falsy data, upstream is asked whatever the timestamp, and its payload is stored with `now` and served. |
| `Players.RefreshStores` | api/players.py:30-35 | On a miss, a successful fetch makes the record (payload, `now`) and the response 200 with that payload. |
| `Players.StaleOnError` | api/players.py:38-43 | A failed fetch with truthy data serves that data with 200, however old it is, and leaves the record unchanged. |
| `Players.HardFailure` | api/players.py:44-49 | A failed fetch without truthy data answers 500. The only header is `Content-Type: application/json`, there is no Cache-Control, the body is the error object and the record is unchanged. |
| `Players.OkHeaders` | api/players.py:54-62 | Every 200 has exactly the headers Content-Type `application/json` and Cache-Control with the fixed value. Its body is the cached data or the fetched payload. |
| `Players.PlayerDataCache.constructor` | api/players.py:6-9 | At module load the record holds no data (`None`) and timestamp 0. |
| `Players.PlayerDataCache.Handle` | api/players.py:14-62 | The in-place handler returns `Serve`'s response and leaves the record in `Serve`'s next state. The timestamp is kept or set to `now` after a successful fetch. |
| `PlayerRequests.Run` | api/players.py:14-62 | Successive invocations against one record give one response per request. |
| `PlayerRequests.RunConcat` | api/players.py:6-62 | Handling one run of requests and then another, on the same module-level record, is the same as handling the two runs joined. |
| `PlayerRequests.ResponseAt` | api/players.py:14-62 | The k-th response is the handler's answer to request k, given the record the earlier requests left. The record after it is the handler's next record. |
| `PlayerRequests.HandleAll` | api/players.py:14-62 | Calling the in-place handler once per request returns exactly `Run`'s responses and leaves the record in `Run`'s final state. |
| `PlayerRequests.UpstreamCalls` | api/players.py:20-28 | Upstream is asked at most once per request. |
| `PlayerRequests.WarmCacheAlwaysServes` | api/players.py:38-43 | Once truthy data is cached, and no upstream payload is falsy, every later response is 200 and the data stays truthy. This holds through any number of upstream failures. |
| `PlayerRequests.BodiesComeFromCacheOrUpstream` | api/players.py:20-43 | Every 200 body is the starting data, or the payload of a refresh made by that request or an earlier one. A refresh is a request that was not served from cache and got a payload from upstream. |
| `PlayerRequests.FinalRecordFromLastRefresh` | api/players.py:33-34 | After any run there are two cases. Either no request refreshed the cache and the record is the starting one. Or the record is (payload, time) of the last request that refreshed it. |
| `PlayerRequests.UpstreamCallsSpacedFrom` | api/players.py:20-34 | Take truthy data stamped T and requests in time order from T on, with every upstream answer a truthy payload. Then every upstream call is at or after T + `CACHE_DURATION`, and any two calls are at least `CACHE_DURATION` apart. |
| `PlayerRequests.UpstreamCallsSpaced` | api/players.py:20-34 | From any starting record, with requests in time order and every upstream answer a truthy payload, any two upstream calls are at least `CACHE_DURATION` apart. |
| `PlayerRequests.NoBackoffWhileFailing` | api/players.py:24-43 | While the record is not served directly and upstream keeps failing, every request asks upstream again. The record never changes. |
| `PlayerRequests.ColdStartScenario` | api/players.py:6-62 | From the initial record: a failure gives 500, then a refresh with `p` is served. One second short of a day later `p` is still served from cache, although upstream has a different `q`. At exactly a day upstream is asked again; it fails, and the stale `p` is served. Upstream is asked at the first, second and fourth requests only. |

## Left out

- The HTTP request itself (`requests.get`, `raise_for_status`, `response.json()`) is modelled only by its outcome, `Fetched(payload)` or `FetchFailed`. Which errors count as a `RequestException` belongs to the HTTP library, which is not part of this model.
- Exceptions that are not a `RequestException` escape the handler, and the platform then answers for it. No such path is modelled.
- JSON serialisation of response bodies (`json.dumps`) is left out. A body is the JSON value before encoding.
- Logging through `print` is left out. It has no effect on responses or on the record.
- `time.time()` returns fractional seconds. Here time is an integer number of seconds passed in by the caller, so sub-second ages are not modelled.
- JSON numbers are integers in `Json`. Floating-point payload values (for example `0.0`, which is falsy) are not modelled.
- The module-level record is shared across warm or concurrent serverless invocations on the hosting platform. The model has one record and handles requests one at a time.
- The `request` argument of the handler is never read, so it is not modelled.
- The browser dashboard (its local cache store, aggregation and search) is not part of this model.
