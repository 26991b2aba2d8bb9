/** The driver of `bookmark_to_reddit`: the cached entries first, then every missing link
    requested once, each request throttled against the one before. */
module Bookmarks {
  import opened Wrappers
  import opened Urls
  import opened Entries
  import opened Links
  import opened Caching
  import opened Throttling
  import opened Pipeline

  /** The cache holds what the requests for `order` left, each changing it by `step`,
      starting from `state0` in a directory of kind `kind0`, and the directory keeps its kind. */
  ghost predicate CacheAfter(cache: Cache, state0: CacheState, kind0: PathKind, order: seq<Url>,
                             step: (CacheState, Url) -> CacheState)
    reads cache, cache.directory
  {
    && cache.directory.kind == kind0
    && CacheState(cache.storage, cache.directory.files) == StoredAfter(state0, order, step)
  }

  /** Why a request for `link` in a run that had read the clock `n` times before it began
      panicked: the clock did not move on (the `assert!` of `throttle`), the download or the
      decode panicked, or the cache file was refused in a directory of kind `kind` holding
      `files`. */
  ghost predicate PanicCause(readings: seq<int>, n: nat, link: Url, network: Url -> Response,
                             decode: Json -> Run<Option<RedditEntry>>, cached: bool, kind: PathKind,
                             files: map<string, FileNode>, locked: set<string>)
  {
    || ClockStuck(readings, n)
    || FetchOne(link, network, decode).Panics?
    || (cached && StoreRefused(link, network, kind, files, locked))
  }

  /** A run of the download loop over `missing` that stopped at the request for `failed`,
      after the requests in `order`, which did not panic, over a cache that started in
      `state0` (when `cached`), for a reason `PanicCause` names. */
  ghost predicate StoppedAt(missing: set<Url>, order: seq<Url>, failed: Url, fetch: Url -> Run<Option<RedditEntry>>,
                            readings: seq<int>, n: nat, network: Url -> Response, decode: Json -> Run<Option<RedditEntry>>,
                            cached: bool, kind0: PathKind, state0: CacheState, step: (CacheState, Url) -> CacheState,
                            locked: set<string>)
  {
    && failed in missing && failed !in order && Fetched(order, fetch).Returns?
    && PanicCause(readings, n, failed, network, decode, cached, kind0, StoredAfter(state0, order, step).files, locked)
  }

  /** A turn of the loop that panicked, with the clock read `before` it and `after` it, stops
      the run at `link` for a reason `PanicCause` names. */
  lemma TurnStopped(missing: set<Url>, pending: set<Url>, order: seq<Url>, starts: seq<int>, finishes: seq<int>,
                    downloaded: seq<RedditEntry>, t0: int, previous: int, fetch: Url -> Run<Option<RedditEntry>>,
                    link: Url, before: seq<int>, after: seq<int>, n: nat, read: int, network: Url -> Response,
                    decode: Json -> Run<Option<RedditEntry>>, cached: bool, kind0: PathKind, state0: CacheState,
                    step: (CacheState, Url) -> CacheState, locked: set<string>, files: map<string, FileNode>)
    requires Progress(missing, pending, order, starts, finishes, downloaded, t0, previous, fetch)
    requires link in pending && Fetches(fetch, network, decode)
    requires n < |before| && before[|before| - 1] == previous <= read
    requires SleepFor(previous, read).Panics? ==> after == before + [read]
    requires SleepFor(previous, read).Returns? ==>
      fetch(link).Panics? || (cached && StoreRefused(link, network, kind0, files, locked))
    requires cached ==> files == StoredAfter(state0, order, step).files
    ensures StoppedAt(missing, order, link, fetch, after, n, network, decode, cached, kind0, state0, step, locked)
  {
    if SleepFor(previous, read).Panics? {
      assert ClockStuck(after, n);
    }
  }

  /** One turn of the `for link in missing_links` loop: request `link` throttled against
      `previous`; a request that does not panic extends the loop's state by one, and the
      cache by what the request stores. `read` is the instant `throttle` reads first, and
      the run had read the clock `n` times before `previous`'s reading. */
  method RequestNext(ghost missing: set<Url>, ghost pending: set<Url>, ghost order: seq<Url>, ghost starts: seq<int>,
                     ghost finishes: seq<int>, downloaded: seq<RedditEntry>, ghost t0: int, previous: int,
                     ghost state0: CacheState, ghost kind0: PathKind, ghost step: (CacheState, Url) -> CacheState,
                     link: Url, cache: Cache?, network: Url -> Response,
                     decode: Json -> Run<Option<RedditEntry>>, ghost fetch: Url -> Run<Option<RedditEntry>>, clock: Clock,
                     ghost n: nat)
    returns (r: Run<seq<RedditEntry>>, finish: int, ghost start: int, ghost read: int)
    requires Progress(missing, pending, order, starts, finishes, downloaded, t0, previous, fetch)
    requires link in pending && previous <= clock.now && Fetches(fetch, network, decode)
    requires n < |clock.readings| && clock.readings[|clock.readings| - 1] == previous
    requires cache != null ==> Steps(step, kind0, cache.directory.locked, cache.directory.full, network)
    requires cache != null ==> CacheAfter(cache, state0, kind0, order, step)
    modifies clock, if cache == null then {} else {cache as object, cache.directory as object}
    ensures r.Returns? ==> Progress(missing, pending - {link}, order + [link], starts + [start], finishes + [finish],
                                    r.value, t0, finish, fetch)
    ensures r.Returns? ==> finish == clock.now
    ensures r.Returns? && cache != null ==> CacheAfter(cache, state0, kind0, order + [link], step)
    ensures r.Returns? ==> |clock.readings| > |old(clock.readings)| && clock.readings[|clock.readings| - 1] == finish
    // a turn panics only for a reason `ThrottledDownload` gives
    ensures r.Panics? ==>
      StoppedAt(missing, order, link, fetch, clock.readings, n, network, decode, cache != null, kind0, state0, step,
                if cache == null then {} else cache.directory.locked)
  {
    StoredAfterSnoc(state0, order, link, step);
    ghost var files := if cache == null then map[] else cache.directory.files;
    ghost var readings := clock.readings;
    var result;
    result, finish, start, read := ThrottledDownload(previous, link, cache, network, decode, fetch, clock);
    if result.Panics? {
      TurnStopped(missing, pending, order, starts, finishes, downloaded, t0, previous, fetch, link, readings,
                  clock.readings, n, read, network, decode, cache != null, kind0, state0, step,
                  if cache == null then {} else cache.directory.locked, files);
      return Panics(result.message), finish, start, read;
    }
    assert |clock.readings| > |old(clock.readings)| && clock.readings[|clock.readings| - 1] == finish;
    ProgressStep(missing, pending, order, starts, finishes, downloaded, t0, previous, fetch,
                 link, result.value, start, finish);
    r := Returns(downloaded + if result.value.Some? then [result.value.value] else []);
  }

  /** The `for link in missing_links` loop from the turn where the requests for `order0`
      are done and `pending0` remains: request each pending link once, in some order, each
      throttled against the timestamp of the one before. A run that panics stops at the
      request for `failed`, after the requests in `order`. */
  method RequestPending(ghost missing: set<Url>, pending0: set<Url>, ghost order0: seq<Url>, ghost starts0: seq<int>,
                        ghost finishes0: seq<int>, downloaded0: seq<RedditEntry>, ghost t0: int, previous0: int,
                        ghost state0: CacheState, ghost kind0: PathKind, ghost step: (CacheState, Url) -> CacheState,
                        cache: Cache?, network: Url -> Response, decode: Json -> Run<Option<RedditEntry>>,
                        ghost fetch: Url -> Run<Option<RedditEntry>>, clock: Clock, ghost n: nat)
    returns (r: Run<seq<RedditEntry>>, ghost order: seq<Url>, ghost starts: seq<int>, ghost finishes: seq<int>,
             ghost failed: Url)
    requires Progress(missing, pending0, order0, starts0, finishes0, downloaded0, t0, previous0, fetch)
    requires previous0 <= clock.now && Fetches(fetch, network, decode)
    requires cache != null ==> Steps(step, kind0, cache.directory.locked, cache.directory.full, network)
    requires cache != null ==> CacheAfter(cache, state0, kind0, order0, step)
    requires n < |clock.readings| && clock.readings[|clock.readings| - 1] == previous0
    modifies clock, if cache == null then {} else {cache as object, cache.directory as object}
    ensures r.Returns? ==> Fetched(order, fetch) == r && Covers(missing, {}, order)
    ensures |order| == |starts| && Spaced(t0, starts, finishes)
    ensures r.Returns? && cache != null ==> CacheAfter(cache, state0, kind0, order, step)
    ensures r.Panics? ==>
      StoppedAt(missing, order, failed, fetch, clock.readings, n, network, decode, cache != null, kind0, state0, step,
                if cache == null then {} else cache.directory.locked)
  {
    var pending, downloaded, previous := pending0, downloaded0, previous0;
    order, starts, finishes := order0, starts0, finishes0;
    failed := Url("", "", Opaque(""), None, None);
    while pending != {}
      invariant Progress(missing, pending, order, starts, finishes, downloaded, t0, previous, fetch)
      invariant previous <= clock.now
      invariant cache != null ==> CacheAfter(cache, state0, kind0, order, step)
      invariant n < |clock.readings| && clock.readings[|clock.readings| - 1] == previous
      decreases pending
    {
      var link :| link in pending;
      ghost var start, read;
      var turn, finish;
      turn, finish, start, read := RequestNext(missing, pending, order, starts, finishes, downloaded, t0, previous,
                                               state0, kind0, step, link, cache, network, decode, fetch, clock, n);
      if turn.Panics? {
        return Panics(turn.message), order, starts, finishes, link;
      }
      pending := pending - {link};
      order, starts, finishes := order + [link], starts + [start], finishes + [finish];
      previous := finish;
      downloaded := turn.value;
    }
    return Returns(downloaded), order, starts, finishes, failed;
  }

  /** `let mut previous = time::now();` and the `for link in missing_links` loop: request
      each missing link once, in some order, each request throttled against the timestamp
      of the one before. A run that panics stops at the request for `failed`, after the
      requests in `order`. */
  method DownloadMissing(missing: set<Url>, cache: Cache?, network: Url -> Response,
                         decode: Json -> Run<Option<RedditEntry>>, ghost fetch: Url -> Run<Option<RedditEntry>>,
                         ghost step: (CacheState, Url) -> CacheState, clock: Clock)
    returns (r: Run<seq<RedditEntry>>, ghost order: seq<Url>, ghost starts: seq<int>, ghost finishes: seq<int>, ghost t0: int,
             ghost failed: Url)
    requires Fetches(fetch, network, decode)
    requires cache != null ==> Steps(step, cache.directory.kind, cache.directory.locked, cache.directory.full, network)
    modifies clock, if cache == null then {} else {cache as object, cache.directory as object}
    ensures r.Returns? ==> Fetched(order, fetch) == r
    ensures r.Returns? ==> Covers(missing, {}, order)
    ensures old(clock.now) <= t0 && |order| == |starts| && Spaced(t0, starts, finishes)
    ensures r.Returns? && cache != null ==> CacheAfter(cache, CacheState(old(cache.storage), old(cache.directory.files)),
                                                     old(cache.directory.kind), order, step)
    // a run that panics stops at a missing link not yet requested, after requests that did
    // not panic, because the clock did not move on, or the download, the store or the decode panicked
    ensures r.Panics? ==>
      StoppedAt(missing, order, failed, fetch, clock.readings, |old(clock.readings)|, network, decode, cache != null,
                old(if cache == null then Missing else cache.directory.kind),
                old(if cache == null then CacheState(map[], map[]) else CacheState(cache.storage, cache.directory.files)),
                step, if cache == null then {} else cache.directory.locked)
  {
    ghost var state0 := old(if cache == null then CacheState(map[], map[]) else CacheState(cache.storage, cache.directory.files));
    ghost var kind0 := old(if cache == null then Missing else cache.directory.kind);
    var previous := clock.Now();
    t0 := previous;
    ProgressStart(missing, t0, fetch);
    r, order, starts, finishes, failed := RequestPending(missing, missing, [], [], [], [], t0, previous, state0, kind0, step,
                                                         cache, network, decode, fetch, clock, |old(clock.readings)|);
  }

  /** `bookmark_to_reddit(bookmark, cache)` for a bookmark file read as `lines` (a line that
      could not be read is None): the entries decoded from the cache come first, followed by
      the entries downloaded for the links that were missing from it. The ghost results
      record the run: `order` is the order the missing links are requested in (the iteration
      order of a `HashSet`, which the program leaves open), `starts[i]` the time request `i`
      began and `finishes[i]` the timestamp `throttle` took after it; a run that panics in
      the download loop stops at the request for `failed`. */
  method BookmarkToReddit(lines: seq<Option<string>>, parseUrl: string -> Option<Url>, cache: Cache?,
                          network: Url -> Response, decode: Json -> Run<Option<RedditEntry>>, clock: Clock)
    returns (r: Run<seq<RedditEntry>>, ghost order: seq<Url>, ghost starts: seq<int>, ghost finishes: seq<int>,
             ghost failed: Url)
    modifies clock, if cache == null then {} else {cache as object, cache.directory as object}
    ensures r.Returns? ==>
      var links := BookmarkLinks(lines, parseUrl);
      var cached := DecodeAll(CachedDocuments(links, old(if cache == null then map[] else cache.storage)), decode);
      && cached.Returns?
      && Fetched(order, Fetcher(network, decode)).Returns?
      && r.value == cached.value + Fetched(order, Fetcher(network, decode)).value
      // every link missing from the cache is requested, exactly once
      && Covers(MissingLinks(links, cached.value), {}, order)
    // the requests keep the cooldown, the first one included
    ensures |order| == |starts| && Spaced(old(clock.now), starts, finishes)
    // the cache holds what the requests stored, in request order
    ensures r.Returns? && cache != null ==>
      CacheAfter(cache, CacheState(old(cache.storage), old(cache.directory.files)), old(cache.directory.kind), order,
                 Storing(old(cache.directory.kind), cache.directory.locked, cache.directory.full, Downloader(network)))
    // a cached response that fails to decode aborts the run before any request
    ensures var cached := DecodeAll(CachedDocuments(BookmarkLinks(lines, parseUrl), old(if cache == null then map[] else cache.storage)), decode);
      cached.Panics? ==> r.Panics? && order == []
    // otherwise a run panics only at a request for a missing link: the clock did not move on,
    // or the download, the store or the decode panicked
    ensures r.Panics? ==>
      var links := BookmarkLinks(lines, parseUrl);
      var cached := DecodeAll(CachedDocuments(links, old(if cache == null then map[] else cache.storage)), decode);
      || cached.Panics?
      || StoppedAt(MissingLinks(links, cached.value), order, failed, Fetcher(network, decode),
                   clock.readings, |old(clock.readings)|, network, decode, cache != null,
                   old(if cache == null then Missing else cache.directory.kind),
                   old(if cache == null then CacheState(map[], map[]) else CacheState(cache.storage, cache.directory.files)),
                   old(if cache == null then Storing(Missing, {}, false, Downloader(network))
                       else Storing(cache.directory.kind, cache.directory.locked, cache.directory.full, Downloader(network))),
                   if cache == null then {} else cache.directory.locked)
  {
    var links := ParseSongLinksFromFile(lines, BookmarkCleanup, parseUrl);
    links := RedditLinks(links);
    var reddits: seq<RedditEntry> := [];
    if cache != null {
      var jsons := GetEntries(links, cache);
      var cached := DecodeAll(jsons, decode);
      if cached.Panics? {
        return Panics(cached.message), [], [], [], Url("", "", Opaque(""), None, None);
      }
      reddits := cached.value;
    } else {
      NothingCached(links);
      assert DecodeAll([], decode) == Returns([]);
    }
    var downloaded;
    ghost var t0;
    FetcherFetches(network, decode);
    ghost var step := Storing(Missing, {}, false, Downloader(network));
    if cache != null {
      step := Storing(cache.directory.kind, cache.directory.locked, cache.directory.full, Downloader(network));
      StoringSteps(cache.directory.kind, cache.directory.locked, cache.directory.full, network);
    }
    downloaded, order, starts, finishes, t0, failed := DownloadMissing(MissingLinks(links, reddits), cache, network, decode,
                                                               Fetcher(network, decode), step, clock);
    SpacedEarlier(old(clock.now), t0, starts, finishes);
    if downloaded.Panics? {
      return Panics(downloaded.message), order, starts, finishes, failed;
    }
    return Returns(reddits + downloaded.value), order, starts, finishes, failed;
  }
}
