/** The `/api/logs` endpoint (LogController.getLogs) as a sequential state machine
    over a one-slot snapshot cache and a counter of in-flight journal reads. The two
    clock readings the source takes are parameters: `now` for the freshness test and
    `fetchedAt` for the timestamp a new snapshot records. */
module LogController {
  import opened Wrappers
  import opened LogSource

  /** How long a snapshot may serve hits, in milliseconds. */
  const CacheDurationMs: int := 2000
  /** Reads in flight at which further misses are shed. */
  const MaxConcurrentRequests: int := 3
  /** Upper bound on the requested count. */
  const MaxLinesCap: int := 1000
  /** Count used when the request carries no `lines` parameter. */
  const DefaultLines: int := 100

  const OverloadWarning: string := "서버 부하를 줄이기 위해 캐시된 데이터를 반환합니다."
  const TooManyRequestsError: string := "현재 요청이 너무 많습니다. 잠시 후 다시 시도해주세요."
  const ReadErrorPrefix: string := "로그를 읽는 중 오류가 발생했습니다: "

  /** CachedLogs: the lines of one successful read, when it was stored, and the count it was read for. */
  datatype Snapshot = Snapshot(logs: seq<string>, timestamp: int, lines: int)

  /** The controller's mutable fields: the cache slot and the in-flight counter. */
  datatype State = State(cache: Option<Snapshot>, active: int)

  /** The JSON body. `lines` and `cached` are absent on the failure paths, `warning`
      is present only on load shedding, `error` only on failure. */
  datatype Response = Response(
    success: bool,
    lines: Option<nat>,
    logs: seq<string>,
    cached: Option<bool>,
    warning: Option<string>,
    error: Option<string>)

  /** Math.min(lines, 1000): capped above, not clamped below. */
  function EffectiveCount(lines: int): (n: int)
    ensures n <= MaxLinesCap
    ensures n <= lines
    ensures n == lines || n == MaxLinesCap
  {
    if lines <= MaxLinesCap then lines else MaxLinesCap
  }

  /** CachedLogs.isExpired: strictly older than the duration. */
  function IsExpired(s: Snapshot, now: int, durationMs: int): (expired: bool)
    ensures now - s.timestamp == durationMs ==> !expired
    ensures now - s.timestamp == durationMs + 1 ==> expired
    ensures durationMs >= 0 && now <= s.timestamp ==> !expired
  {
    now - s.timestamp > durationMs
  }

  /** The hit test of getLogs: a snapshot exists, is not expired and was read for count `n`. */
  function IsHit(cache: Option<Snapshot>, n: int, now: int): (hit: bool)
    ensures hit <==> cache.Some? && cache.value.lines == n
                     && now - cache.value.timestamp <= CacheDurationMs
  {
    cache.Some? && !IsExpired(cache.value, now, CacheDurationMs) && cache.value.lines == n
  }

  /** The body returned for a snapshot, with an optional warning. */
  function FromSnapshot(s: Snapshot, warning: Option<string>): (r: Response)
    ensures r.success && r.cached == Some(true) && r.error.None?
    ensures r.logs == s.logs && r.lines == Some(|r.logs|)
    ensures r.warning == warning
  {
    Response(true, Some(|s.logs|), s.logs, Some(true), warning, None)
  }

  /** The overload path: any snapshot, however old and whatever its count, else a soft failure. */
  function ShedLoad(cache: Option<Snapshot>): (r: Response)
    ensures cache.Some? ==> r.success && r.cached == Some(true) && r.logs == cache.value.logs
                            && r.lines == Some(|r.logs|) && r.warning == Some(OverloadWarning)
                            && r.error.None?
    ensures cache.None? ==> !r.success && r.logs == [] && r.error == Some(TooManyRequestsError)
                            && r.lines.None? && r.cached.None? && r.warning.None?
  {
    match cache
    case Some(s) => FromSnapshot(s, Some(OverloadWarning))
    case None => Response(false, None, [], None, None, Some(TooManyRequestsError))
  }

  /** The admitted path: count the read in, read, replace the slot on success, count the
      read out whatever happened. */
  function FetchAndStore(st: State, n: int, fetchedAt: int, source: SourceOutcome): (out: (Response, State))
    ensures out.1.active == st.active
    ensures ReadLogs(source, n).Success? ==>
              var lines := ReadLogs(source, n).value;
              out.1.cache == Some(Snapshot(lines, fetchedAt, n)) &&
              out.0.success && out.0.cached == Some(false) && out.0.logs == lines &&
              out.0.lines == Some(|lines|) && out.0.warning.None? && out.0.error.None?
    ensures ReadLogs(source, n).Failure? ==>
              out.1.cache == st.cache &&
              !out.0.success && out.0.logs == [] && out.0.cached.None? && out.0.warning.None? &&
              out.0.error == Some(ReadErrorPrefix + FaultMessage(ReadLogs(source, n).error))
  {
    var inFlight := st.active + 1;
    match ReadLogs(source, n)
    case Success(lines) =>
      (Response(true, Some(|lines|), lines, Some(false), None, None),
       State(Some(Snapshot(lines, fetchedAt, n)), inFlight - 1))
    case Failure(fault) =>
      (Response(false, None, [], None, None, Some(ReadErrorPrefix + FaultMessage(fault))),
       State(st.cache, inFlight - 1))
  }

  /** One request to getLogs: cap the count, serve a fresh matching snapshot, shed load
      when three reads are in flight, otherwise read and store. */
  function GetLogs(st: State, lines: int, now: int, fetchedAt: int, source: SourceOutcome): (out: (Response, State))
    ensures out.1.active == st.active
    ensures IsHit(st.cache, EffectiveCount(lines), now) ==>
              out.1 == st && out.0 == FromSnapshot(st.cache.value, None)
    ensures !IsHit(st.cache, EffectiveCount(lines), now) && st.active >= MaxConcurrentRequests ==>
              out.1 == st && out.0 == ShedLoad(st.cache)
    ensures !IsHit(st.cache, EffectiveCount(lines), now) && st.active < MaxConcurrentRequests ==>
              out == FetchAndStore(st, EffectiveCount(lines), fetchedAt, source)
  {
    var n := EffectiveCount(lines);
    if IsHit(st.cache, n, now) then
      (FromSnapshot(st.cache.value, None), st)
    else if st.active >= MaxConcurrentRequests then
      (ShedLoad(st.cache), st)
    else
      FetchAndStore(st, n, fetchedAt, source)
  }

  /** A response is a cache hit (cached, no warning) exactly when the hit test passes. */
  lemma HitIff(st: State, lines: int, now: int, fetchedAt: int, source: SourceOutcome)
    ensures var r := GetLogs(st, lines, now, fetchedAt, source).0;
            r.cached == Some(true) && r.warning.None? <==>
            st.cache.Some? && now - st.cache.value.timestamp <= CacheDurationMs
            && st.cache.value.lines == EffectiveCount(lines)
  {
  }

  /** The cache is only written by a successful read, which stores that read's lines. */
  lemma CacheChangesOnlyOnFetch(st: State, lines: int, now: int, fetchedAt: int, source: SourceOutcome)
    ensures var out := GetLogs(st, lines, now, fetchedAt, source);
            out.1.cache != st.cache ==>
              out.0.success && out.0.cached == Some(false) &&
              out.1.cache == Some(Snapshot(out.0.logs, fetchedAt, EffectiveCount(lines)))
  {
  }

  /** The freshness window is closed: an age of exactly 2000 ms still hits, 2001 ms misses. */
  lemma FreshnessBoundary(s: Snapshot)
    ensures IsHit(Some(s), s.lines, s.timestamp + CacheDurationMs)
    ensures !IsHit(Some(s), s.lines, s.timestamp + CacheDurationMs + 1)
  {
  }

  /** One request of a sequential run: its `lines` parameter (absent means the default),
      the two clock readings, and what the journal read would produce. */
  datatype Request = Request(lines: Option<int>, now: int, fetchedAt: int, source: SourceOutcome)

  /** Requests served one after another, with the responses in request order. */
  function Run(st: State, reqs: seq<Request>): (out: (seq<Response>, State))
    ensures |out.0| == |reqs|
    ensures out.1.active == st.active
    ensures st.active < MaxConcurrentRequests ==>
              forall i :: 0 <= i < |reqs| ==> out.0[i].warning.None? && out.0[i].error != Some(TooManyRequestsError)
    decreases |reqs|
  {
    if |reqs| == 0 then ([], st)
    else
      var q := reqs[0];
      var step := GetLogs(st, q.lines.GetOr(DefaultLines), q.now, q.fetchedAt, q.source);
      var rest := Run(step.1, reqs[1..]);
      ([step.0] + rest.0, rest.1)
  }

  /** The request for 5000 lines: capped to 1000, read once into an empty cache, then
      served from the cache while the snapshot is at most 2000 ms old (also when the clock
      has stepped back) and read again after. */
  lemma CappedRequestIsCached(captured: seq<string>, t: int, later: int, source: SourceOutcome)
    ensures var first := GetLogs(State(None, 0), 5000, t, t, Exited(0, captured));
            first.0.cached == Some(false) && first.0.logs == captured &&
            first.1 == State(Some(Snapshot(captured, t, 1000)), 0) &&
            var second := GetLogs(first.1, 5000, later, later, source);
            (later - t <= CacheDurationMs ==> second.0.cached == Some(true) && second.0.logs == captured) &&
            (later - t > CacheDurationMs ==> second.0.cached != Some(true))
  {
  }

  /** With three reads already counted in and nothing cached, a further miss is refused. */
  lemma FourthConcurrentReadIsRefused(lines: int, now: int, fetchedAt: int, source: SourceOutcome)
    ensures var r := GetLogs(State(None, MaxConcurrentRequests), lines, now, fetchedAt, source).0;
            !r.success && r.logs == [] && r.error == Some(TooManyRequestsError)
  {
  }
}
