/** Successive requests to the player-directory handler, each handled against
    the cache record the previous one left behind. The lemmas here are about
    what the cache achieves over many requests. */
module PlayerRequests {
  import opened Players

  /** One incoming request: its arrival time and what upstream would answer. */
  datatype Request = Request(now: int, outcome: FetchOutcome)

  /** The responses to a run of requests, and the cache record after them. */
  datatype Replay = Replay(responses: seq<Response>, final: CacheState)

  /** Handles `reqs` in order, starting from cache record `s`. */
  function Run(s: CacheState, reqs: seq<Request>): (r: Replay)
    ensures |r.responses| == |reqs|
    decreases |reqs|
  {
    if reqs == [] then Replay([], s)
    else
      var step := Serve(s, reqs[0].now, reqs[0].outcome);
      var rest := Run(step.next, reqs[1..]);
      Replay([step.response] + rest.responses, rest.final)
  }

  /** The arrival times of the requests that asked upstream, in order. */
  function UpstreamCalls(s: CacheState, reqs: seq<Request>): (times: seq<int>)
    ensures |times| <= |reqs|
    decreases |reqs|
  {
    if reqs == [] then []
    else
      var step := Serve(s, reqs[0].now, reqs[0].outcome);
      var rest := UpstreamCalls(step.next, reqs[1..]);
      if ServesFromCache(s, reqs[0].now) then rest else [reqs[0].now] + rest
  }

  /** Every payload upstream hands back in `reqs` is truthy. */
  predicate TruthyPayloads(reqs: seq<Request>) {
    forall i :: 0 <= i < |reqs| && reqs[i].outcome.Fetched? ==> Truthy(reqs[i].outcome.payload)
  }

  /** Arrival times never go backwards. */
  predicate InTimeOrder(reqs: seq<Request>) {
    forall i, j :: 0 <= i < j < |reqs| ==> reqs[i].now <= reqs[j].now
  }

  /** Handling `a` and then `b` is handling `a + b`. */
  lemma {:induction false} RunConcat(s: CacheState, a: seq<Request>, b: seq<Request>)
    ensures Run(s, a + b).responses == Run(s, a).responses + Run(Run(s, a).final, b).responses
    ensures Run(s, a + b).final == Run(Run(s, a).final, b).final
    decreases |a|
  {
    if a == [] {
      assert a + b == b;
    } else {
      var step := Serve(s, a[0].now, a[0].outcome);
      assert (a + b)[0] == a[0];
      assert (a + b)[1..] == a[1..] + b;
      RunConcat(step.next, a[1..], b);
    }
  }

  /** The cache record just before request `i` is handled. */
  function Before(s: CacheState, reqs: seq<Request>, i: nat): CacheState
    requires i <= |reqs|
  {
    Run(s, reqs[..i]).final
  }

  /** Request `i` asked upstream and upstream answered with a payload, so the
      handler stored that payload. */
  predicate Refreshed(s: CacheState, reqs: seq<Request>, i: nat)
    requires i < |reqs|
  {
    !ServesFromCache(Before(s, reqs, i), reqs[i].now) && reqs[i].outcome.Fetched?
  }

  /** Response `k` is the handler's answer to request `k` against the record
      the earlier requests left, and the record after it is the handler's. */
  lemma ResponseAt(s: CacheState, reqs: seq<Request>, k: nat)
    requires k < |reqs|
    ensures Run(s, reqs).responses[k] == Serve(Before(s, reqs, k), reqs[k].now, reqs[k].outcome).response
    ensures Before(s, reqs, k + 1) == Serve(Before(s, reqs, k), reqs[k].now, reqs[k].outcome).next
  {
    var b := Before(s, reqs, k);
    assert reqs == reqs[..k] + reqs[k..];
    RunConcat(s, reqs[..k], reqs[k..]);
    assert reqs[k..][0] == reqs[k];
    assert reqs[..k + 1] == reqs[..k] + [reqs[k]];
    RunConcat(s, reqs[..k], [reqs[k]]);
    assert [reqs[k]][1..] == [];
  }

  /** A prefix of a run sees the same records as the whole run. */
  lemma BeforeInPrefix(s: CacheState, reqs: seq<Request>, n: nat, i: nat)
    requires i <= n <= |reqs|
    ensures Before(s, reqs[..n], i) == Before(s, reqs, i)
  {
    assert reqs[..n][..i] == reqs[..i];
  }

  /** Once the cache holds truthy data, and as long as upstream never answers
      with a falsy payload, no request gets a 500 and the data stays truthy,
      however often upstream fails. */
  lemma {:induction false} WarmCacheAlwaysServes(s: CacheState, reqs: seq<Request>)
    requires Truthy(s.data) && TruthyPayloads(reqs)
    ensures forall k :: 0 <= k < |reqs| ==> Run(s, reqs).responses[k].statusCode == 200
    ensures Truthy(Run(s, reqs).final.data)
    decreases |reqs|
  {
    if reqs != [] {
      var step := Serve(s, reqs[0].now, reqs[0].outcome);
      assert TruthyPayloads(reqs[1..]) by {
        forall i | 0 <= i < |reqs[1..]| && reqs[1..][i].outcome.Fetched?
          ensures Truthy(reqs[1..][i].outcome.payload)
        {
          assert reqs[1..][i] == reqs[i + 1];
        }
      }
      assert Truthy(step.next.data) by {
        assert reqs[0].outcome.Fetched? ==> Truthy(reqs[0].outcome.payload);
      }
      WarmCacheAlwaysServes(step.next, reqs[1..]);
      var r := Run(s, reqs);
      forall k | 0 <= k < |reqs| ensures r.responses[k].statusCode == 200 {
        if k > 0 {
          assert r.responses[k] == Run(step.next, reqs[1..]).responses[k - 1];
        }
      }
    }
  }

  /** After any run, either no request refreshed the cache and the record is
      the one it started as, or the record holds the payload of the LAST
      refresh, stamped with the time of that request. */
  lemma {:induction false} FinalRecordFromLastRefresh(s: CacheState, reqs: seq<Request>)
    ensures || ((forall i :: 0 <= i < |reqs| ==> !Refreshed(s, reqs, i)) && Run(s, reqs).final == s)
            || (exists i :: 0 <= i < |reqs| && Refreshed(s, reqs, i)
                  && (forall j :: i < j < |reqs| ==> !Refreshed(s, reqs, j))
                  && Run(s, reqs).final == CacheState(reqs[i].outcome.payload, reqs[i].now))
    decreases |reqs|
  {
    if reqs != [] {
      var n := |reqs| - 1;
      var init := reqs[..n];
      assert reqs[..n + 1] == reqs;
      ResponseAt(s, reqs, n);
      FinalRecordFromLastRefresh(s, init);
      forall i | 0 <= i < n ensures Refreshed(s, init, i) == Refreshed(s, reqs, i) {
        BeforeInPrefix(s, reqs, n, i);
      }
      if Refreshed(s, reqs, n) {
        assert Run(s, reqs).final == CacheState(reqs[n].outcome.payload, reqs[n].now);
      } else {
        assert Run(s, reqs).final == Run(s, init).final;
      }
    }
  }

  /** The handler never invents data: every 200 body is the data cached at the
      start or the payload of a refresh made by this or an earlier request. */
  lemma {:induction false} BodiesComeFromCacheOrUpstream(s: CacheState, reqs: seq<Request>, k: nat)
    requires k < |reqs| && Run(s, reqs).responses[k].statusCode == 200
    ensures || Run(s, reqs).responses[k].body == s.data
            || exists i :: 0 <= i <= k && Refreshed(s, reqs, i)
                 && reqs[i].outcome.payload == Run(s, reqs).responses[k].body
  {
    var body := Run(s, reqs).responses[k].body;
    ResponseAt(s, reqs, k);
    if !Refreshed(s, reqs, k) {
      assert body == Before(s, reqs, k).data;
      assert reqs[..k][..k] == reqs[..k];
      FinalRecordFromLastRefresh(s, reqs[..k]);
      if Before(s, reqs, k) != s {
        var i :| 0 <= i < k && Refreshed(s, reqs[..k], i)
                 && Before(s, reqs, k) == CacheState(reqs[i].outcome.payload, reqs[i].now);
        BeforeInPrefix(s, reqs, k, i);
      }
    }
  }

  /** With truthy data stamped `s.timestamp` and requests arriving no earlier,
      upstream is first asked CACHE_DURATION seconds after that stamp, and
      later calls are CACHE_DURATION apart, provided every upstream answer is a
      truthy payload. */
  lemma {:induction false} UpstreamCallsSpacedFrom(s: CacheState, reqs: seq<Request>)
    requires Truthy(s.data) && InTimeOrder(reqs)
    requires forall i :: 0 <= i < |reqs| ==> s.timestamp <= reqs[i].now
    requires forall i :: 0 <= i < |reqs| ==> reqs[i].outcome.Fetched? && Truthy(reqs[i].outcome.payload)
    ensures forall k :: 0 <= k < |UpstreamCalls(s, reqs)| ==>
              s.timestamp + CACHE_DURATION <= UpstreamCalls(s, reqs)[k]
    ensures forall j, k :: 0 <= j < k < |UpstreamCalls(s, reqs)| ==>
              UpstreamCalls(s, reqs)[j] + CACHE_DURATION <= UpstreamCalls(s, reqs)[k]
    decreases |reqs|
  {
    if reqs != [] {
      var now := reqs[0].now;
      var step := Serve(s, now, reqs[0].outcome);
      var rest := reqs[1..];
      assert forall i :: 0 <= i < |rest| ==> rest[i] == reqs[i + 1];
      var times := UpstreamCalls(s, reqs);
      var restTimes := UpstreamCalls(step.next, rest);
      if ServesFromCache(s, now) {
        assert step.next == s;
        UpstreamCallsSpacedFrom(s, rest);
        assert times == restTimes;
      } else {
        assert step.next == CacheState(reqs[0].outcome.payload, now);
        assert forall i :: 0 <= i < |rest| ==> now <= rest[i].now;
        UpstreamCallsSpacedFrom(step.next, rest);
        assert times == [now] + restTimes;
        assert now >= s.timestamp + CACHE_DURATION;
        forall k | 0 <= k < |times| ensures s.timestamp + CACHE_DURATION <= times[k] {
          if k > 0 {
            assert times[k] == restTimes[k - 1];
          }
        }
        forall j, k | 0 <= j < k < |times| ensures times[j] + CACHE_DURATION <= times[k] {
          assert times[k] == restTimes[k - 1];
          if j > 0 {
            assert times[j] == restTimes[j - 1];
          }
        }
      }
    }
  }

  /** From any starting record, while upstream keeps answering with truthy
      payloads and requests arrive in time order, upstream is asked at most
      once per CACHE_DURATION. */
  lemma {:induction false} UpstreamCallsSpaced(s: CacheState, reqs: seq<Request>)
    requires InTimeOrder(reqs)
    requires forall i :: 0 <= i < |reqs| ==> reqs[i].outcome.Fetched? && Truthy(reqs[i].outcome.payload)
    ensures forall j, k :: 0 <= j < k < |UpstreamCalls(s, reqs)| ==>
              UpstreamCalls(s, reqs)[j] + CACHE_DURATION <= UpstreamCalls(s, reqs)[k]
    decreases |reqs|
  {
    if reqs != [] {
      var now := reqs[0].now;
      var step := Serve(s, now, reqs[0].outcome);
      var rest := reqs[1..];
      assert forall i :: 0 <= i < |rest| ==> rest[i] == reqs[i + 1];
      var times := UpstreamCalls(s, reqs);
      var restTimes := UpstreamCalls(step.next, rest);
      if ServesFromCache(s, now) {
        assert step.next == s;
        UpstreamCallsSpaced(s, rest);
        assert times == restTimes;
      } else {
        assert step.next == CacheState(reqs[0].outcome.payload, now);
        assert forall i :: 0 <= i < |rest| ==> now <= rest[i].now;
        UpstreamCallsSpacedFrom(step.next, rest);
        assert times == [now] + restTimes;
        forall j, k | 0 <= j < k < |times| ensures times[j] + CACHE_DURATION <= times[k] {
          assert times[k] == restTimes[k - 1];
          if j > 0 {
            assert times[j] == restTimes[j - 1];
          }
        }
      }
    }
  }

  /** While the record is past CACHE_DURATION and upstream keeps failing,
      every request asks upstream again: there is no back-off. */
  lemma {:induction false} NoBackoffWhileFailing(s: CacheState, reqs: seq<Request>)
    requires forall i :: 0 <= i < |reqs| ==> reqs[i].outcome == FetchFailed
    requires forall i :: 0 <= i < |reqs| ==> !ServesFromCache(s, reqs[i].now)
    ensures UpstreamCalls(s, reqs) == seq(|reqs|, i requires 0 <= i < |reqs| => reqs[i].now)
    ensures Run(s, reqs).final == s
    decreases |reqs|
  {
    if reqs != [] {
      var rest := reqs[1..];
      assert forall i :: 0 <= i < |rest| ==> rest[i] == reqs[i + 1];
      NoBackoffWhileFailing(s, rest);
    }
  }

  /** A cold start through an outage and a recovery. The first request gets a
      500. The second refreshes the cache with `p`. A request one second
      short of a day later is served `p` from the cache, although upstream now
      has `q`. One day after the refresh upstream is asked again; it fails, and
      the stale `p` is served. */
  lemma ColdStartScenario(p: Json, q: Json, t: int)
    requires Truthy(p) && q != p
    ensures var reqs := [Request(t, FetchFailed),
                         Request(t + 1, Fetched(p)),
                         Request(t + CACHE_DURATION, Fetched(q)),
                         Request(t + 1 + CACHE_DURATION, FetchFailed)];
      var r := Run(INITIAL_STATE, reqs);
      && r.responses[0].statusCode == 500
      && r.responses[1] == OkResponse(p)
      && r.responses[2] == OkResponse(p)
      && r.responses[3] == OkResponse(p)
      && r.final == CacheState(p, t + 1)
      && UpstreamCalls(INITIAL_STATE, reqs) == [t, t + 1, t + 1 + CACHE_DURATION]
  {
    var reqs := [Request(t, FetchFailed),
                 Request(t + 1, Fetched(p)),
                 Request(t + CACHE_DURATION, Fetched(q)),
                 Request(t + 1 + CACHE_DURATION, FetchFailed)];
    var warm := CacheState(p, t + 1);
    assert Serve(INITIAL_STATE, t, FetchFailed) == Step(ErrorResponse(), INITIAL_STATE);
    assert Serve(INITIAL_STATE, t + 1, Fetched(p)) == Step(OkResponse(p), warm);
    assert Serve(warm, t + CACHE_DURATION, Fetched(q)) == Step(OkResponse(p), warm);
    assert Serve(warm, t + 1 + CACHE_DURATION, FetchFailed) == Step(OkResponse(p), warm);
    assert reqs[1..][1..][1..][1..] == [];
    assert Run(warm, reqs[1..][1..][1..]) == Replay([OkResponse(p)], warm);
    assert Run(warm, reqs[1..][1..]) == Replay([OkResponse(p), OkResponse(p)], warm);
    assert Run(INITIAL_STATE, reqs[1..]) == Replay([OkResponse(p), OkResponse(p), OkResponse(p)], warm);
    assert UpstreamCalls(warm, reqs[1..][1..][1..]) == [t + 1 + CACHE_DURATION];
    assert UpstreamCalls(warm, reqs[1..][1..]) == [t + 1 + CACHE_DURATION];
    assert UpstreamCalls(INITIAL_STATE, reqs[1..]) == [t + 1, t + 1 + CACHE_DURATION];
  }

  /** The hosting platform invoking the handler once per request on one warm
      instance: the responses and the record it leaves are those of `Run`. */
  method HandleAll(cache: PlayerDataCache, reqs: seq<Request>) returns (resps: seq<Response>)
    modifies cache
    ensures resps == Run(old(cache.State()), reqs).responses
    ensures cache.State() == Run(old(cache.State()), reqs).final
  {
    ghost var start := cache.State();
    resps := [];
    var i := 0;
    while i < |reqs|
      invariant 0 <= i <= |reqs|
      invariant Run(start, reqs[..i]) == Replay(resps, cache.State())
    {
      var resp := cache.Handle(reqs[i].now, reqs[i].outcome);
      assert reqs[..i + 1] == reqs[..i] + [reqs[i]];
      RunConcat(start, reqs[..i], [reqs[i]]);
      assert [reqs[i]][1..] == [];
      resps := resps + [resp];
      i := i + 1;
    }
    assert reqs[..|reqs|] == reqs;
  }
}
