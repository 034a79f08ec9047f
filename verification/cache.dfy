/** The cache store: one file per feed URL, judged fresh by its modification time. */
module Cache {
  import opened Wrappers
  import opened Events

  /** Why a cache read was not used; every one of them sends the loader to the network. */
  datatype CacheError = StatFailed | TooOld | OpenFailed | DecodeFailed

  /**
   * loadEventsFromCache over the outcomes of its I/O calls: the modification time
   * stat reported (None when stat failed), whether opening the file succeeded, and
   * the decoded payload (None when the JSON did not decode). The checks run in the
   * source's order: stat, age, open, decode.
   */
  function LoadEventsFromCache(
    modTime: Option<Time>, openOk: bool, decoded: Option<seq<Event>>,
    now: Time, cacheDuration: Duration): (r: Result<seq<Event>, CacheError>)
    ensures r.Success? <==> && modTime.Some? && now - modTime.value <= cacheDuration
                            && openOk && decoded.Some?
    ensures r.Success? ==> r.value == decoded.value
    ensures modTime.None? ==> r == Failure(StatFailed)
    ensures modTime.Some? && now - modTime.value > cacheDuration ==> r == Failure(TooOld)
  {
    if modTime.None? then Failure(StatFailed)
    else if modTime.value < now - cacheDuration then Failure(TooOld)
    else if !openOk then Failure(OpenFailed)
    else if decoded.None? then Failure(DecodeFailed)
    else Success(decoded.value)
  }

  /** A file whose age equals the cache duration exactly is still used. */
  lemma AgeAtDurationIsHit(events: seq<Event>, now: Time, cacheDuration: Duration)
    ensures LoadEventsFromCache(Some(now - cacheDuration), true, Some(events), now, cacheDuration)
         == Success(events)
  {
  }

  /** A cache file: its modification time and its payload, None when it does not decode. */
  datatype CacheFile = CacheFile(modTime: Time, payload: Option<seq<Event>>)

  /** The cache directory, one file per feed URL. */
  type Store = map<string, CacheFile>

  /** How a cacheEvents call ended; a failed write leaves behind whatever file it leaves. */
  datatype WriteOutcome = Written | WriteFailed(leftover: Option<CacheFile>)

  /** The file a write leaves at the URL's key. */
  function FileAfter(events: seq<Event>, now: Time, outcome: WriteOutcome): Option<CacheFile> {
    match outcome
    case Written => Some(CacheFile(now, Some(events)))
    case WriteFailed(leftover) => leftover
  }

  /** loadEventsFromCache on a store: stat sees the URL's file, decoding sees its payload. */
  function ReadCache(fs: Store, url: string, openOk: bool, now: Time, cacheDuration: Duration)
    : (r: Result<seq<Event>, CacheError>)
    ensures url !in fs ==> r == Failure(StatFailed)
    ensures r.Success? <==> && url in fs && now - fs[url].modTime <= cacheDuration
                            && openOk && fs[url].payload.Some?
    ensures r.Success? ==> fs[url].payload == Some(r.value)
  {
    if url in fs then
      LoadEventsFromCache(Some(fs[url].modTime), openOk, fs[url].payload, now, cacheDuration)
    else
      LoadEventsFromCache(None, openOk, None, now, cacheDuration)
  }

  /** cacheEvents on a store: reports success and touches only the URL's own file. */
  function CacheEvents(fs: Store, url: string, events: seq<Event>, now: Time, outcome: WriteOutcome)
    : (r: (bool, Store))
    ensures r.0 <==> outcome.Written?
    ensures r.0 ==> url in r.1 && r.1[url] == CacheFile(now, Some(events))
    ensures forall u :: u != url ==> (u in r.1 <==> u in fs)
    ensures forall u :: u != url && u in fs ==> r.1[u] == fs[u]
  {
    var fs' := match FileAfter(events, now, outcome)
               case Some(f) => fs[url := f]
               case None => fs - {url};
    (outcome.Written?, fs')
  }

  /** A successful write is read back unchanged as long as it is not older than the duration. */
  lemma WriteThenRead(fs: Store, url: string, events: seq<Event>, written: Time, now: Time,
                      cacheDuration: Duration)
    requires now - written <= cacheDuration
    ensures ReadCache(CacheEvents(fs, url, events, written, Written).1, url, true, now, cacheDuration)
         == Success(events)
  {
  }

  /** Once the written file is older than the duration, reading it is a miss. */
  lemma WrittenFileExpires(fs: Store, url: string, events: seq<Event>, written: Time, now: Time,
                           openOk: bool, cacheDuration: Duration)
    requires now - written > cacheDuration
    ensures ReadCache(CacheEvents(fs, url, events, written, Written).1, url, openOk, now, cacheDuration)
         == Failure(TooOld)
  {
  }

  /** Writing one feed's file never changes what is read for another feed. */
  lemma WriteIsolatesFeeds(fs: Store, url: string, other: string, events: seq<Event>, written: Time,
                           outcome: WriteOutcome, openOk: bool, now: Time, cacheDuration: Duration)
    requires other != url
    ensures ReadCache(CacheEvents(fs, url, events, written, outcome).1, other, openOk, now, cacheDuration)
         == ReadCache(fs, other, openOk, now, cacheDuration)
  {
  }
}
