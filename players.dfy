/** The player-directory proxy of api/players.py: a serverless handler that keeps
    the last upstream player directory in a module-level cache record
    `{data, timestamp}` and decides, per request, whether to serve that record,
    refresh it from upstream, fall back to it when upstream fails, or report a
    500 error. The upstream call is an abstract outcome, time is an integer
    number of seconds, and response bodies are JSON values before serialisation. */
module Players {
  import Decimal

  /** A decoded JSON value, as `response.json()` produces it. */
  datatype Json =
    | JNull
    | JBool(b: bool)
    | JNumber(n: int)
    | JString(s: string)
    | JArray(items: seq<Json>)
    | JObject(fields: map<string, Json>)

  /** Python truthiness of a decoded JSON value: `None`, `False`, `0`, `""`,
      `[]` and `{}` are false, everything else is true. */
  predicate Truthy(j: Json) {
    match j
    case JNull => false
    case JBool(b) => b
    case JNumber(n) => n != 0
    case JString(s) => s != []
    case JArray(items) => items != []
    case JObject(fields) => fields != map[]
  }

  /** How long a cached directory is served without asking upstream, in seconds. */
  const CACHE_DURATION: int := 24 * 60 * 60

  /** The value of the `player_data_cache` record. */
  datatype CacheState = CacheState(data: Json, timestamp: int)

  /** The record as the module is loaded: no data, timestamp 0. */
  const INITIAL_STATE: CacheState := CacheState(JNull, 0)

  /** What the upstream request yields: a decoded payload, or a request failure. */
  datatype FetchOutcome = Fetched(payload: Json) | FetchFailed

  /** The handler's response, with the body before JSON serialisation. */
  datatype Response = Response(statusCode: int, headers: map<string, string>, body: Json)

  /** One handled request: the response and the cache record afterwards. */
  datatype Step = Step(response: Response, next: CacheState)

  const ERROR_MESSAGE: string := "Failed to fetch player data and no cache available."

  /** The f-string value of the `Cache-Control` header. */
  function CacheControlHeader(): string {
    "public, max-age=" + Decimal.NatToString(CACHE_DURATION)
      + ", s-maxage=" + Decimal.NatToString(CACHE_DURATION)
      + ", stale-while-revalidate=" + Decimal.NatToString(CACHE_DURATION * 2)
  }

  lemma DurationDigits()
    ensures Decimal.NatToString(CACHE_DURATION) == "86400"
  {
    assert Decimal.NatToString(8) == "8";
    assert Decimal.NatToString(86) == "86";
    assert Decimal.NatToString(864) == "864";
    assert Decimal.NatToString(8640) == "8640";
  }

  lemma DoubleDurationDigits()
    ensures Decimal.NatToString(CACHE_DURATION * 2) == "172800"
  {
    assert Decimal.NatToString(1) == "1";
    assert Decimal.NatToString(17) == "17";
    assert Decimal.NatToString(172) == "172";
    assert Decimal.NatToString(1728) == "1728";
    assert Decimal.NatToString(17280) == "17280";
  }

  /** The header is the fixed text the CDN and browsers see:
      public, max-age=86400, s-maxage=86400, stale-while-revalidate=172800 */
  lemma CacheControlValue()
    ensures CacheControlHeader()
         == "public, max-age=" + "86400" + ", s-maxage=" + "86400"
            + ", stale-while-revalidate=" + "172800"
  {
    DurationDigits();
    DoubleDurationDigits();
  }

  function OkResponse(body: Json): Response {
    Response(200,
             map["Content-Type" := "application/json", "Cache-Control" := CacheControlHeader()],
             body)
  }

  function ErrorResponse(): Response {
    Response(500,
             map["Content-Type" := "application/json"],
             JObject(map["error" := JString(ERROR_MESSAGE)]))
  }

  /** The cache-validity test of the handler. */
  predicate ServesFromCache(s: CacheState, now: int) {
    Truthy(s.data) && now - s.timestamp < CACHE_DURATION
  }

  /** One request handled against cache record `s` at time `now`; `outcome` is
      what upstream would answer if asked. */
  function Serve(s: CacheState, now: int, outcome: FetchOutcome): (r: Step)
    // Only a successful refresh writes the record, and then it writes the
    // fetched payload stamped with the current time.
    ensures || r.next == s
            || (outcome.Fetched? && !ServesFromCache(s, now)
                && r.next == CacheState(outcome.payload, now))
    ensures r.next.timestamp != s.timestamp ==> outcome.Fetched? && r.next.timestamp == now
    // The status is 500 exactly when upstream failed and nothing truthy is
    // cached; otherwise it is 200.
    ensures r.response.statusCode == 200 || r.response.statusCode == 500
    ensures r.response.statusCode == 500 <==> outcome.FetchFailed? && !Truthy(s.data)
  {
    if ServesFromCache(s, now) then
      Step(OkResponse(s.data), s)
    else
      match outcome
      case Fetched(payload) => Step(OkResponse(payload), CacheState(payload, now))
      case FetchFailed =>
        if Truthy(s.data) then Step(OkResponse(s.data), s)
        else Step(ErrorResponse(), s)
  }

  // ---------------------------------------------------------------------------
  // Properties of one request

  /** A fresh, truthy cache is served as is: upstream's answer makes no
      difference and the record is left alone. */
  lemma FreshHit(s: CacheState, now: int, outcome: FetchOutcome)
    requires Truthy(s.data) && now - s.timestamp < CACHE_DURATION
    ensures Serve(s, now, outcome) == Step(OkResponse(s.data), s)
    ensures forall other :: Serve(s, now, other) == Serve(s, now, outcome)
  {
  }

  /** With truthy cached data, a different upstream payload reaches the client
      exactly when the record is CACHE_DURATION seconds old or older. */
  lemma ExpiryBoundary(s: CacheState, now: int, payload: Json)
    requires Truthy(s.data) && payload != s.data
    ensures Serve(s, now, Fetched(payload)).response.body == payload
            <==> now - s.timestamp >= CACHE_DURATION
  {
  }

  /** Absent or falsy cached data never counts as a hit, however recent its
      timestamp: upstream is asked. */
  lemma FalsyCacheIsMiss(s: CacheState, now: int, payload: Json)
    requires !Truthy(s.data)
    ensures Serve(s, now, Fetched(payload)) == Step(OkResponse(payload), CacheState(payload, now))
  {
  }

  /** A successful refresh stores the payload stamped with `now` and serves it. */
  lemma RefreshStores(s: CacheState, now: int, payload: Json)
    requires !ServesFromCache(s, now)
    ensures Serve(s, now, Fetched(payload)).next == CacheState(payload, now)
    ensures Serve(s, now, Fetched(payload)).response == OkResponse(payload)
  {
  }

  /** A failed refresh with truthy cached data serves that data, stale or not,
      and keeps the record. */
  lemma StaleOnError(s: CacheState, now: int)
    requires Truthy(s.data)
    ensures Serve(s, now, FetchFailed) == Step(OkResponse(s.data), s)
  {
  }

  /** A failed refresh with nothing truthy cached is a 500 carrying only a
      Content-Type header and the error object; the record is kept. */
  lemma HardFailure(s: CacheState, now: int)
    requires !Truthy(s.data)
    ensures var r := Serve(s, now, FetchFailed);
      && r.next == s
      && r.response.statusCode == 500
      && r.response.headers == map["Content-Type" := "application/json"]
      && "Cache-Control" !in r.response.headers
      && r.response.body == JObject(map["error" := JString(ERROR_MESSAGE)])
  {
  }

  /** Every 200 carries JSON content type and the fixed Cache-Control value, and
      its body is either the cached data or the fetched payload. */
  lemma OkHeaders(s: CacheState, now: int, outcome: FetchOutcome)
    ensures var r := Serve(s, now, outcome).response;
      r.statusCode == 200 ==>
        && r.headers.Keys == {"Content-Type", "Cache-Control"}
        && r.headers["Content-Type"] == "application/json"
        && r.headers["Cache-Control"]
           == "public, max-age=" + "86400" + ", s-maxage=" + "86400"
              + ", stale-while-revalidate=" + "172800"
        && (r.body == s.data || (outcome.Fetched? && r.body == outcome.payload))
  {
    CacheControlValue();
  }

  // ---------------------------------------------------------------------------
  // The module-level cache record and the handler

  /** The `player_data_cache` record, updated in place by the handler. */
  class PlayerDataCache {
    var data: Json
    var timestamp: int

    function State(): CacheState
      reads this
    {
      CacheState(data, timestamp)
    }

    /** The record as the module is loaded. */
    constructor ()
      ensures State() == INITIAL_STATE
    {
      data := JNull;
      timestamp := 0;
    }

    /** Handles one request at time `now`; `outcome` stands for the upstream
        request, made only when the cache is not served directly. */
    method Handle(now: int, outcome: FetchOutcome) returns (resp: Response)
      modifies this
      ensures resp == Serve(old(State()), now, outcome).response
      ensures State() == Serve(old(State()), now, outcome).next
      ensures timestamp == old(timestamp) || (outcome.Fetched? && timestamp == now)
    {
      var responseData: Json;
      if Truthy(data) && now - timestamp < CACHE_DURATION {
        responseData := data;
      } else {
        match outcome
        case Fetched(payload) =>
          data := payload;
          timestamp := now;
          responseData := payload;
        case FetchFailed =>
          if Truthy(data) {
            responseData := data;
          } else {
            return ErrorResponse();
          }
      }
      var cacheControl := CacheControlHeader();
      resp := Response(200,
                       map["Content-Type" := "application/json", "Cache-Control" := cacheControl],
                       responseData);
    }
  }
}
