/** The feed loader: the cache if it is fresh, otherwise fetch, sort and write back. */
module Loader {
  import opened Wrappers
  import opened Events
  import opened Sorting
  import opened Cache

  /** Why retrieving the feed failed: the HTTP request or the calendar parser. */
  datatype FetchError = RequestFailed | ParseFailed

  /** getTodaysEvents' errors; a cache miss is never one of them. */
  datatype LoadError = RetrieveFailed(cause: FetchError) | CacheWriteFailed

  /** The I/O steps a load performs, in order. */
  datatype Step = CacheRead | Fetch | CacheWrite(events: seq<Event>)

  /** What a load returns, together with the steps it took. */
  datatype LoadRun = LoadRun(result: Result<seq<Event>, LoadError>, steps: seq<Step>)

  /**
   * loadEventsFromUrl after the request and the parser: `parsed` is what they produced
   * for today's window; the events come back sorted by start.
   */
  function LoadEventsFromUrl(parsed: Result<seq<Event>, FetchError>): (r: Result<seq<Event>, FetchError>)
    ensures r.Success? <==> parsed.Success?
    ensures r.Failure? ==> r.error == parsed.error
    ensures r.Success? ==> SortedByStart(r.value) && multiset(r.value) == multiset(parsed.value)
  {
    match parsed
    case Success(events) => Success(SortByStart(events))
    case Failure(e) => Failure(e)
  }

  /**
   * getTodaysEvents over the outcomes of its collaborators: the cache read, the
   * fetch-and-parse (consulted only on a miss) and whether the cache write succeeded
   * (consulted only after a successful fetch).
   */
  function GetTodaysEvents(cached: Result<seq<Event>, CacheError>,
                           parsed: Result<seq<Event>, FetchError>, writeOk: bool): (run: LoadRun)
    ensures cached.Success? ==> run == LoadRun(Success(cached.value), [CacheRead])
    ensures (Fetch in run.steps) <==> cached.Failure?
    ensures cached.Failure? && parsed.Failure? ==>
              run == LoadRun(Failure(RetrieveFailed(parsed.error)), [CacheRead, Fetch])
    ensures cached.Failure? && parsed.Success? ==>
              && |run.steps| == 3 && run.steps[..2] == [CacheRead, Fetch]
              && run.steps[2].CacheWrite?
              && SortedByStart(run.steps[2].events)
              && multiset(run.steps[2].events) == multiset(parsed.value)
              && run.result == (if writeOk then Success(run.steps[2].events) else Failure(CacheWriteFailed))
  {
    match cached
    case Success(events) => LoadRun(Success(events), [CacheRead])
    case Failure(_) =>
      match LoadEventsFromUrl(parsed)
      case Failure(e) => LoadRun(Failure(RetrieveFailed(e)), [CacheRead, Fetch])
      case Success(events) =>
        var steps := [CacheRead, Fetch, CacheWrite(events)];
        if writeOk then LoadRun(Success(events), steps) else LoadRun(Failure(CacheWriteFailed), steps)
  }

  /** getTodaysEvents against the cache store: the run and the store it leaves. */
  function GetTodaysEventsOnStore(fs: Store, url: string, now: Time, cacheDuration: Duration,
                                  openOk: bool, parsed: Result<seq<Event>, FetchError>,
                                  outcome: WriteOutcome): (r: (LoadRun, Store))
    ensures (Fetch in r.0.steps) <==> ReadCache(fs, url, openOk, now, cacheDuration).Failure?
    ensures !(exists i :: 0 <= i < |r.0.steps| && r.0.steps[i].CacheWrite?) ==> r.1 == fs
    ensures forall u :: u != url ==> (u in r.1 <==> u in fs)
    ensures forall u :: u != url && u in fs ==> r.1[u] == fs[u]
  {
    var run := GetTodaysEvents(ReadCache(fs, url, openOk, now, cacheDuration), parsed, outcome.Written?);
    if |run.steps| == 3 && run.steps[2].CacheWrite? then
      (run, CacheEvents(fs, url, run.steps[2].events, now, outcome).1)
    else
      (run, fs)
  }

  /** A fetch that succeeded spares the network on every later call within the cache duration. */
  lemma FetchThenCacheHit(fs: Store, url: string, t1: Time, t2: Time, cacheDuration: Duration,
                          openOk1: bool, parsed1: Result<seq<Event>, FetchError>,
                          outcome1: WriteOutcome, parsed2: Result<seq<Event>, FetchError>,
                          outcome2: WriteOutcome)
    requires Fetch in GetTodaysEventsOnStore(fs, url, t1, cacheDuration, openOk1, parsed1, outcome1).0.steps
    requires GetTodaysEventsOnStore(fs, url, t1, cacheDuration, openOk1, parsed1, outcome1).0.result.Success?
    requires t2 - t1 <= cacheDuration
    ensures var (run1, fs1) := GetTodaysEventsOnStore(fs, url, t1, cacheDuration, openOk1, parsed1, outcome1);
            GetTodaysEventsOnStore(fs1, url, t2, cacheDuration, true, parsed2, outcome2)
              == (LoadRun(run1.result, [CacheRead]), fs1)
  {
  }

  /** Every payload in the store is start-sorted. */
  ghost predicate PayloadsSorted(fs: Store) {
    forall u :: u in fs && fs[u].payload.Some? ==> SortedByStart(fs[u].payload.value)
  }

  /**
   * The Window Resolver's ordering invariant: while the store only holds sorted
   * payloads, every load returns a sorted list and the store stays that way.
   */
  lemma LoadKeepsEventsSorted(fs: Store, url: string, now: Time, cacheDuration: Duration,
                              openOk: bool, parsed: Result<seq<Event>, FetchError>,
                              outcome: WriteOutcome)
    requires PayloadsSorted(fs)
    requires outcome.WriteFailed? && outcome.leftover.Some? && outcome.leftover.value.payload.Some?
             ==> SortedByStart(outcome.leftover.value.payload.value)
    ensures var (run, fs') := GetTodaysEventsOnStore(fs, url, now, cacheDuration, openOk, parsed, outcome);
            (run.result.Success? ==> SortedByStart(run.result.value)) && PayloadsSorted(fs')
  {
  }
}
