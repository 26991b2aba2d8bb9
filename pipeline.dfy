/** `bookmark_to_reddit` and the downloads it makes: take the site's links out of a
    bookmark file, use what the cache already holds, and fetch the rest one by one under
    the site's cooldown, storing every response in the cache. */
module Pipeline {
  import opened Wrappers
  import opened Strings
  import opened Urls
  import opened Entries
  import opened Links
  import opened Caching
  import opened Throttling

  /** The outcome of one transfer: the body (bytes that are UTF-8, as text), a transfer
      that failed, or a body that is not UTF-8. */
  datatype Response = Received(body: string) | TransferFailed | NotUtf8

  /** `download_json`: fetch the API form of `link` from `network`. A link without an API
      form and a failed transfer give None; a body that is not text panics; otherwise the
      body of the link's API form, which ends in `.json`. */
  function DownloadJson(link: Url, network: Url -> Response): (r: Run<Option<Json>>)
    ensures EnsureJsonLink(link).None? ==> r == Returns(None)
    ensures EnsureJsonLink(link).Some? ==> (r.Panics? <==> network(EnsureJsonLink(link).value) == NotUtf8)
    ensures EnsureJsonLink(link).Some? && network(EnsureJsonLink(link).value) == TransferFailed ==> r == Returns(None)
    ensures r.Returns? && r.value.Some? ==>
      && EnsureJsonLink(link).Some? && EndsWith(AsStr(EnsureJsonLink(link).value), JsonSuffix)
      && network(EnsureJsonLink(link).value) == Received(r.value.value)
    ensures EnsureJsonLink(link).Some? && network(EnsureJsonLink(link).value).Received? ==>
      r == Returns(Some(network(EnsureJsonLink(link).value).body))
  {
    match EnsureJsonLink(link)
    case None => Returns(None)
    case Some(api) =>
      match network(api)
      case TransferFailed => Returns(None)
      case NotUtf8 => Panics("could not stringify data")
      case Received(body) => Returns(Some(body))
  }

  /** What one download yields, whatever happens to the cache: the response decoded. */
  function FetchOne(link: Url, network: Url -> Response, decode: Json -> Run<Option<RedditEntry>>): Run<Option<RedditEntry>>
  {
    var json :- DownloadJson(link, network);
    if json.None? then Returns(None) else decode(json.value)
  }

  /** `download_reddit_and_cache((url, cache))`: download the response; when there is a cache
      and the link has an id, store the response under that id, ignoring an I/O error; then
      decode the response. */
  method DownloadRedditAndCache(url: Url, cache: Cache?, network: Url -> Response, decode: Json -> Run<Option<RedditEntry>>)
    returns (r: Run<Option<RedditEntry>>)
    modifies if cache == null then {} else {cache as object, cache.directory as object}
    ensures r.Returns? ==> r == FetchOne(url, network, decode)
    ensures (cache == null || IdFromLink(url).None?) ==> r == FetchOne(url, network, decode)
    // it panics exactly when the download or the decode does, or the store is refused
    ensures r.Panics? <==> FetchOne(url, network, decode).Panics?
                           || (cache != null && StoreRefused(url, network, old(cache.directory.kind), old(cache.directory.files), cache.directory.locked))
    ensures cache != null ==> cache.directory.kind == old(cache.directory.kind)
    ensures cache != null && !(IdFromLink(url).Some? && DownloadJson(url, network).Returns? && DownloadJson(url, network).value.Some?)
      ==> r == FetchOne(url, network, decode) && cache.storage == old(cache.storage) && cache.directory.files == old(cache.directory.files)
    ensures cache != null && IdFromLink(url).Some? && DownloadJson(url, network).Returns? && DownloadJson(url, network).value.Some?
      ==> (var stored := StoreSpec(old(cache.storage), old(cache.directory.kind), old(cache.directory.files),
                                   cache.directory.locked, cache.directory.full, IdFromLink(url).value, DownloadJson(url, network).value.value);
           && cache.storage == stored.1 && cache.directory.files == stored.2
           && r == (if stored.0.Panics? then Panics(stored.0.message) else FetchOne(url, network, decode)))
    // in short: the cache only gains, and only under the link's id
    ensures cache != null ==> old(cache.storage).Keys <= cache.storage.Keys
    ensures cache != null ==> forall k :: k in cache.storage && k !in old(cache.storage) ==> IdFromLink(url) == Some(k)
    // the same, as the step of the request loop
    ensures cache != null ==>
      CacheState(cache.storage, cache.directory.files)
        == StoreStep(CacheState(old(cache.storage), old(cache.directory.files)), old(cache.directory.kind),
                     cache.directory.locked, cache.directory.full, url, Downloader(network))
  {
    var json := DownloadJson(url, network);
    if json.Panics? {
      return Panics(json.message);
    }
    if json.value.None? {
      return Returns(None);
    }
    if cache != null {
      var key := IdFromLink(url);
      if key.Some? {
        var stored := cache.Store(key.value, json.value.value);
        if stored.Panics? {
          return Panics(stored.message);
        }
      }
    }
    r := decode(json.value.value);
  }

  const RedditHost := "www.reddit.com"

  /** `links.retain(|link| link.host_str() == Some("www.reddit.com"))`. */
  function RedditLinks(links: seq<Url>): (kept: seq<Url>)
    ensures |kept| <= |links|
    ensures forall i :: 0 <= i < |kept| ==> kept[i].host == RedditHost && kept[i].path.Hierarchical? && kept[i] in links
  {
    if links == [] then []
    else
      var before := RedditLinks(links[..|links| - 1]);
      var link := links[|links| - 1];
      if HostStr(link) == Some(RedditHost) then before + [link] else before
  }

  /** Every link of the site is kept, in its place among the others. */
  lemma {:induction false} RedditLinksAppend(a: seq<Url>, b: seq<Url>)
    ensures RedditLinks(a + b) == RedditLinks(a) + RedditLinks(b)
    decreases |b|
  {
    if b == [] {
      assert a + b == a;
    } else {
      assert (a + b)[..|a + b| - 1] == a + b[..|b| - 1];
      RedditLinksAppend(a, b[..|b| - 1]);
    }
  }

  /** A link is kept exactly when it is one of the site's. */
  lemma {:induction false} RedditLinksMembers(links: seq<Url>)
    ensures forall u :: u in RedditLinks(links) <==> u in links && u.path.Hierarchical? && u.host == RedditHost
  {
    if links != [] {
      var init := links[..|links| - 1];
      RedditLinksMembers(init);
      assert links == init + [links[|links| - 1]];
    }
  }

  /** The site's links in a bookmark file. */
  function BookmarkLinks(lines: seq<Option<string>>, parseUrl: string -> Option<Url>): seq<Url>
  {
    RedditLinks(SongLinks(lines, BookmarkCleanup, parseUrl))
  }

  /** `.filter_map(parse_reddit_json)` over the cached responses: a response that decodes to
      no entry is dropped, and one whose decoding panics panics. */
  function DecodeAll(docs: seq<Json>, decode: Json -> Run<Option<RedditEntry>>): (r: Run<seq<RedditEntry>>)
    ensures r.Returns? ==> |r.value| <= |docs|
  {
    if docs == [] then Returns([])
    else
      var before :- DecodeAll(docs[..|docs| - 1], decode);
      var entry :- decode(docs[|docs| - 1]);
      Returns(if entry.Some? then before + [entry.value] else before)
  }

  /** The decoded entries are exactly the entries the responses decode to, and decoding
      panics exactly when one of them does. */
  lemma {:induction false} DecodeAllEntries(docs: seq<Json>, decode: Json -> Run<Option<RedditEntry>>)
    ensures DecodeAll(docs, decode).Panics? <==> exists i :: 0 <= i < |docs| && decode(docs[i]).Panics?
    ensures DecodeAll(docs, decode).Returns? ==> forall e :: e in DecodeAll(docs, decode).value <==>
      exists i :: 0 <= i < |docs| && decode(docs[i]) == Returns(Some(e))
  {
    if docs != [] {
      var init := docs[..|docs| - 1];
      DecodeAllEntries(init, decode);
      assert forall i :: 0 <= i < |init| ==> init[i] == docs[i];
      if DecodeAll(docs, decode).Returns? {
        forall e | exists i :: 0 <= i < |docs| && decode(docs[i]) == Returns(Some(e))
          ensures e in DecodeAll(docs, decode).value
        {
          var i :| 0 <= i < |docs| && decode(docs[i]) == Returns(Some(e));
          if i < |init| {
            assert init[i] == docs[i];
          }
        }
      }
    }
  }

  /** `links_found_in_cache`: the permalinks of the cached entries. */
  function SelfLinks(entries: seq<RedditEntry>): (links: set<Url>)
    ensures forall u :: u in links <==> exists e :: e in entries && e.selfLink == Some(u)
  {
    assert forall e :: e in entries ==> exists i :: 0 <= i < |entries| && entries[i] == e;
    set i | 0 <= i < |entries| && entries[i].selfLink.Some? :: entries[i].selfLink.value
  }

  /** `links_set.difference(&links_found_in_cache)`: the distinct links whose page is
      not among the cached entries' permalinks. */
  function MissingLinks(links: seq<Url>, cached: seq<RedditEntry>): (missing: set<Url>)
    ensures forall u :: u in missing <==> u in links && forall e :: e in cached ==> e.selfLink != Some(u)
  {
    (set i | 0 <= i < |links| :: links[i]) - SelfLinks(cached)
  }

  /** Storing the response for `link` panics: the link has an id, its download gives a body,
      and the id's cache file may not be created in the directory. */
  predicate StoreRefused(link: Url, network: Url -> Response, kind: PathKind, files: map<string, FileNode>, locked: set<string>)
  {
    && IdFromLink(link).Some?
    && DownloadJson(link, network).Returns? && DownloadJson(link, network).value.Some?
    && !MayCreate(kind, files, locked, CacheFile(IdFromLink(link).value))
  }

  /** `FetchOne` as a function of the link. */
  function Fetcher(network: Url -> Response, decode: Json -> Run<Option<RedditEntry>>): Url -> Run<Option<RedditEntry>>
  {
    link => FetchOne(link, network, decode)
  }

  /** `fetch` yields what a download yields, link by link. */
  ghost predicate Fetches(fetch: Url -> Run<Option<RedditEntry>>, network: Url -> Response, decode: Json -> Run<Option<RedditEntry>>)
  {
    forall link {:trigger FetchOne(link, network, decode)} :: fetch(link) == FetchOne(link, network, decode)
  }

  lemma FetcherFetches(network: Url -> Response, decode: Json -> Run<Option<RedditEntry>>)
    ensures Fetches(Fetcher(network, decode), network, decode)
  {
  }

  /** The entries downloaded for the links in the order they are requested, when each
      request yields `fetch` of its link; the loop's `reddits.push`, kept apart from
      `DecodeAll` because it runs over links rather than responses, so that the loop's
      state (`Progress`) grows by one link per request without naming the bodies. */
  function Fetched(order: seq<Url>, fetch: Url -> Run<Option<RedditEntry>>): (r: Run<seq<RedditEntry>>)
    ensures r.Returns? ==> |r.value| <= |order|
  {
    if order == [] then Returns([])
    else
      var before :- Fetched(order[..|order| - 1], fetch);
      var entry :- fetch(order[|order| - 1]);
      Returns(if entry.Some? then before + [entry.value] else before)
  }

  /** One more request adds what it yields to the end. */
  lemma FetchedSnoc(order: seq<Url>, link: Url, fetch: Url -> Run<Option<RedditEntry>>)
    requires Fetched(order, fetch).Returns? && fetch(link).Returns?
    ensures var entry := fetch(link).value;
      Fetched(order + [link], fetch) == Returns(Fetched(order, fetch).value + if entry.Some? then [entry.value] else [])
  {
    var extended := order + [link];
    assert extended[..|extended| - 1] == order && extended[|extended| - 1] == link;
    var entry := fetch(link).value;
    assert Fetched(extended, fetch)
      == Returns(if entry.Some? then Fetched(order, fetch).value + [entry.value] else Fetched(order, fetch).value);
    assert Fetched(order, fetch).value + [] == Fetched(order, fetch).value;
  }

  /** Without a cache nothing is found in it, and every distinct link is missing. */
  lemma NothingCached(links: seq<Url>)
    ensures CachedDocuments(links, map[]) == []
    ensures forall u :: u in MissingLinks(links, []) <==> u in links
  {
    CachedDocumentsFromLinks(links, map[]);
  }

  /** `download_json` as a function of the link. */
  function Downloader(network: Url -> Response): Url -> Run<Option<Json>>
  {
    link => DownloadJson(link, network)
  }

  /** What a cache holds: its responses in memory and the files of its directory. */
  datatype CacheState = CacheState(storage: map<string, Json>, files: map<string, FileNode>)

  /** What one request does to the cache, whatever it yields, when `download` is what
      `download_json` gives (`Downloader(network)`): a link with an id whose download gives
      a body has that body stored as `Cache::store` stores it; any other request leaves the
      cache as it was. */
  function StoreStep(state: CacheState, kind: PathKind, locked: set<string>, full: bool,
                     link: Url, download: Url -> Run<Option<Json>>): CacheState
  {
    var key := IdFromLink(link);
    var json := download(link);
    if key.Some? && json.Returns? && json.value.Some? then
      var stored := StoreSpec(state.storage, kind, state.files, locked, full, key.value, json.value.value);
      CacheState(stored.1, stored.2)
    else
      state
  }

  /** `StoreStep` on a directory of the given kind, locked entries and fullness. */
  function Storing(kind: PathKind, locked: set<string>, full: bool, download: Url -> Run<Option<Json>>)
    : (CacheState, Url) -> CacheState
  {
    (state, link) => StoreStep(state, kind, locked, full, link, download)
  }

  /** The cache after the requests for `order`, made in that order, each changing it by
      `step` (the program's step is `Storing(..)`). */
  function StoredAfter(state: CacheState, order: seq<Url>, step: (CacheState, Url) -> CacheState): CacheState
    decreases |order|
  {
    if order == [] then state
    else StoredAfter(step(state, order[0]), order[1..], step)
  }

  /** `step` changes the cache as a request does, on a directory of the given kind, locked
      entries and fullness. */
  ghost predicate Steps(step: (CacheState, Url) -> CacheState, kind: PathKind, locked: set<string>, full: bool,
                        network: Url -> Response)
  {
    forall state, link {:trigger StoreStep(state, kind, locked, full, link, Downloader(network))} ::
      step(state, link) == StoreStep(state, kind, locked, full, link, Downloader(network))
  }

  lemma StoringSteps(kind: PathKind, locked: set<string>, full: bool, network: Url -> Response)
    ensures Steps(Storing(kind, locked, full, Downloader(network)), kind, locked, full, network)
  {
  }

  /** One more request changes the cache by one more step. */
  lemma {:induction false} StoredAfterSnoc(state: CacheState, order: seq<Url>, link: Url, step: (CacheState, Url) -> CacheState)
    ensures StoredAfter(state, order + [link], step) == step(StoredAfter(state, order, step), link)
    decreases |order|
  {
    if order == [] {
      assert [link][1..] == [];
    } else {
      assert (order + [link])[1..] == order[1..] + [link];
      StoredAfterSnoc(step(state, order[0]), order[1..], link, step);
    }
  }

  /** What one request cannot touch: nothing is lost, and only its own id and cache file change. */
  lemma StoreStepFrame(state: CacheState, kind: PathKind, locked: set<string>, full: bool,
                       link: Url, download: Url -> Run<Option<Json>>)
    ensures var after := StoreStep(state, kind, locked, full, link, download);
      && state.storage.Keys <= after.storage.Keys && state.files.Keys <= after.files.Keys
      && (forall k :: k in after.storage && (k !in state.storage || after.storage[k] != state.storage[k]) ==>
            IdFromLink(link) == Some(k))
      && (forall n :: n in after.files && (n !in state.files || after.files[n] != state.files[n]) ==>
            IdFromLink(link).Some? && n == CacheFile(IdFromLink(link).value))
  {
  }

  /** What the requests cannot touch: no response and no file is lost, a response that is
      new or replaced is held under the id of a requested link, and a file that is new or
      rewritten is the cache file of the id of a requested link. */
  lemma {:induction false} StoredAfterFrame(state: CacheState, kind: PathKind, locked: set<string>, full: bool,
                                            order: seq<Url>, download: Url -> Run<Option<Json>>)
    ensures var after := StoredAfter(state, order, Storing(kind, locked, full, download));
      && state.storage.Keys <= after.storage.Keys && state.files.Keys <= after.files.Keys
      && (forall k :: k in after.storage && (k !in state.storage || after.storage[k] != state.storage[k]) ==>
            exists i :: 0 <= i < |order| && IdFromLink(order[i]) == Some(k))
      && (forall n :: n in after.files && (n !in state.files || after.files[n] != state.files[n]) ==>
            exists i :: 0 <= i < |order| && IdFromLink(order[i]).Some? && n == CacheFile(IdFromLink(order[i]).value))
    decreases |order|
  {
    if order != [] {
      var step := Storing(kind, locked, full, download);
      var rest := order[1..];
      var mid := StoreStep(state, kind, locked, full, order[0], download);
      var after := StoredAfter(state, order, step);
      assert after == StoredAfter(mid, rest, step);
      StoreStepFrame(state, kind, locked, full, order[0], download);
      StoredAfterFrame(mid, kind, locked, full, rest, download);
      assert forall j :: 0 <= j < |rest| ==> rest[j] == order[j + 1];
      forall k | k in after.storage && (k !in state.storage || after.storage[k] != state.storage[k])
        ensures exists i :: 0 <= i < |order| && IdFromLink(order[i]) == Some(k)
      {
        if k in mid.storage && after.storage[k] == mid.storage[k] {
          assert IdFromLink(order[0]) == Some(k);
        } else {
          var j :| 0 <= j < |rest| && IdFromLink(rest[j]) == Some(k);
          assert IdFromLink(order[j + 1]) == Some(k);
        }
      }
      forall n | n in after.files && (n !in state.files || after.files[n] != state.files[n])
        ensures exists i :: 0 <= i < |order| && IdFromLink(order[i]).Some? && n == CacheFile(IdFromLink(order[i]).value)
      {
        if n in mid.files && after.files[n] == mid.files[n] {
          assert IdFromLink(order[0]).Some? && n == CacheFile(IdFromLink(order[0]).value);
        } else {
          var j :| 0 <= j < |rest| && IdFromLink(rest[j]).Some? && n == CacheFile(IdFromLink(rest[j]).value);
          assert IdFromLink(order[j + 1]).Some? && n == CacheFile(IdFromLink(order[j + 1]).value);
        }
      }
    }
  }

  /** Requests for links whose id is not `key` leave what is held under `key`, and in its
      cache file, alone. */
  lemma {:induction false} StoredAfterUntouched(state: CacheState, kind: PathKind, locked: set<string>, full: bool,
                                                order: seq<Url>, download: Url -> Run<Option<Json>>, key: string)
    requires forall j :: 0 <= j < |order| ==> IdFromLink(order[j]) != Some(key)
    ensures var after := StoredAfter(state, order, Storing(kind, locked, full, download));
      && (key in state.storage ==> key in after.storage && after.storage[key] == state.storage[key])
      && (CacheFile(key) in state.files ==>
            CacheFile(key) in after.files && after.files[CacheFile(key)] == state.files[CacheFile(key)])
    decreases |order|
  {
    if order != [] {
      var step := Storing(kind, locked, full, download);
      var rest := order[1..];
      var mid := StoreStep(state, kind, locked, full, order[0], download);
      assert StoredAfter(state, order, step) == StoredAfter(mid, rest, step);
      StoreStepElsewhere(state, kind, locked, full, order[0], download, key);
      assert forall j :: 0 <= j < |rest| ==> rest[j] == order[j + 1];
      StoredAfterUntouched(mid, kind, locked, full, rest, download, key);
    }
  }

  /** What the last request for an id leaves behind: when its download gave a body and the
      cache file may be written, the file holds the body (an empty file when the device is
      full), and a body that was written completely is also the response held in memory. */
  lemma {:induction false} StoredAfterLast(state: CacheState, kind: PathKind, locked: set<string>, full: bool,
                                           order: seq<Url>, download: Url -> Run<Option<Json>>,
                                           i: nat, key: string, body: Json)
    requires i < |order| && IdFromLink(order[i]) == Some(key)
    requires forall j :: i < j < |order| ==> IdFromLink(order[j]) != Some(key)
    requires download(order[i]) == Returns(Some(body))
    requires MayCreate(kind, state.files, locked, CacheFile(key))
    ensures var after := StoredAfter(state, order, Storing(kind, locked, full, download));
      && CacheFile(key) in after.files && after.files[CacheFile(key)] == Text(if full && body != "" then "" else body)
      && (!full || body == "" ==> key in after.storage && after.storage[key] == body)
    decreases |order|
  {
    var step := Storing(kind, locked, full, download);
    var rest := order[1..];
    var mid := StoreStep(state, kind, locked, full, order[0], download);
    assert StoredAfter(state, order, step) == StoredAfter(mid, rest, step);
    assert forall j :: 0 <= j < |rest| ==> rest[j] == order[j + 1];
    if i == 0 {
      StoreStepHere(state, kind, locked, full, order[0], download, key, body);
      StoredAfterUntouched(mid, kind, locked, full, rest, download, key);
    } else {
      StoredAfterLast(mid, kind, locked, full, rest, download, i - 1, key, body);
    }
  }

  /** A request for a link with an id and a body, into a directory where its file may be
      written, writes the body (or an empty file on a full device) and, when written, holds it. */
  lemma StoreStepHere(state: CacheState, kind: PathKind, locked: set<string>, full: bool,
                      link: Url, download: Url -> Run<Option<Json>>, key: string, body: Json)
    requires IdFromLink(link) == Some(key) && download(link) == Returns(Some(body))
    requires MayCreate(kind, state.files, locked, CacheFile(key))
    ensures var after := StoreStep(state, kind, locked, full, link, download);
      && CacheFile(key) in after.files && after.files[CacheFile(key)] == Text(if full && body != "" then "" else body)
      && (!full || body == "" ==> key in after.storage && after.storage[key] == body)
  {
  }

  /** A request for a link with another id, or none, leaves what is held under `key` and
      in its file alone. */
  lemma StoreStepElsewhere(state: CacheState, kind: PathKind, locked: set<string>, full: bool,
                           link: Url, download: Url -> Run<Option<Json>>, key: string)
    requires IdFromLink(link) != Some(key)
    ensures var after := StoreStep(state, kind, locked, full, link, download);
      && (key in state.storage ==> key in after.storage && after.storage[key] == state.storage[key])
      && (CacheFile(key) in state.files ==> CacheFile(key) in after.files && after.files[CacheFile(key)] == state.files[CacheFile(key)])
  {
    var other := IdFromLink(link);
    if other.Some? && CacheFile(other.value) == CacheFile(key) {
      CacheFileInjective(other.value, key);
    }
  }

  /** `throttle(previous, download_reddit_and_cache, (link, cache))`: wait out the cooldown
      since `previous`, download, and return the result with the time read afterwards. */
  method ThrottledDownload(previous: int, link: Url, cache: Cache?, network: Url -> Response,
                           decode: Json -> Run<Option<RedditEntry>>, ghost fetch: Url -> Run<Option<RedditEntry>>, clock: Clock)
    returns (r: Run<Option<RedditEntry>>, finish: int, ghost start: int, ghost read: int)
    requires previous <= clock.now && Fetches(fetch, network, decode)
    modifies clock, if cache == null then {} else {cache as object, cache.directory as object}
    // `read` is the first instant this call reads off the clock
    ensures old(clock.now) <= read && |clock.readings| > |old(clock.readings)|
    ensures clock.readings[..|old(clock.readings)| + 1] == old(clock.readings) + [read]
    // a clock still at `previous` trips the `assert!`, before anything is downloaded
    ensures SleepFor(previous, read).Panics? ==>
      && r.Panics? && clock.readings == old(clock.readings) + [read]
      && (cache != null ==> cache.storage == old(cache.storage) && cache.directory.files == old(cache.directory.files))
    // otherwise it panics exactly when the download, the store or the decode does
    ensures SleepFor(previous, read).Returns? ==>
      (r.Panics? <==> fetch(link).Panics?
                      || (cache != null && StoreRefused(link, network, old(cache.directory.kind), old(cache.directory.files), cache.directory.locked)))
    ensures r.Returns? ==> r == fetch(link)
    ensures r.Returns? ==> read + SleepFor(previous, read).value <= start
    ensures r.Returns? ==> old(clock.now) <= start && previous + Cooldown <= start <= finish == clock.now
    ensures r.Returns? ==> clock.readings[|clock.readings| - 1] == finish
    ensures cache != null ==> cache.directory.kind == old(cache.directory.kind)
    ensures cache != null ==> old(cache.storage).Keys <= cache.storage.Keys
    ensures cache != null ==> forall k :: k in cache.storage && k !in old(cache.storage) ==> IdFromLink(link) == Some(k)
    // a request that does not panic stores its response
    ensures cache != null && r.Returns? ==>
      CacheState(cache.storage, cache.directory.files)
        == StoreStep(CacheState(old(cache.storage), old(cache.directory.files)), old(cache.directory.kind),
                     cache.directory.locked, cache.directory.full, link, Downloader(network))
  {
    var now := clock.Now();
    read := now;
    var pause := SleepFor(previous, now);
    if pause.Panics? {
      return Panics(pause.message), now, now, read;
    }
    clock.Sleep(pause.value);
    start := clock.now;
    r := DownloadRedditAndCache(link, cache, network, decode);
    finish := clock.Now();
  }

  /** Request `i` began at `starts[i]` and its timestamp was taken at `finishes[i]`: each
      request begins at least a cooldown after the timestamp of the one before, and the
      first at least a cooldown after `t0`. */
  ghost predicate Spaced(t0: int, starts: seq<int>, finishes: seq<int>)
  {
    && |starts| == |finishes|
    && (forall i :: 0 <= i < |starts| ==> starts[i] <= finishes[i])
    && (forall i :: 0 < i < |starts| ==> starts[i] >= finishes[i - 1] + Cooldown)
    && (|starts| > 0 ==> starts[0] >= t0 + Cooldown)
  }

  lemma SpacedEarlier(t: int, t0: int, starts: seq<int>, finishes: seq<int>)
    requires t <= t0 && Spaced(t0, starts, finishes)
    ensures Spaced(t, starts, finishes)
  {
  }

  lemma SpacedSnoc(t0: int, starts: seq<int>, finishes: seq<int>, start: int, finish: int)
    requires Spaced(t0, starts, finishes)
    requires (if starts == [] then t0 else finishes[|finishes| - 1]) + Cooldown <= start <= finish
    ensures Spaced(t0, starts + [start], finishes + [finish])
  {
  }

  /** `order` lists without repetition the links of `missing` taken so far, and `pending`
      holds the rest. */
  ghost predicate Covers(missing: set<Url>, pending: set<Url>, order: seq<Url>)
  {
    && (forall u :: u in missing <==> u in pending || u in order)
    && (forall i :: 0 <= i < |order| ==> order[i] !in pending)
    && (forall i, j :: 0 <= i < j < |order| ==> order[i] != order[j])
  }

  lemma CoversStep(missing: set<Url>, pending: set<Url>, order: seq<Url>, link: Url)
    requires Covers(missing, pending, order) && link in pending
    ensures Covers(missing, pending - {link}, order + [link])
  {
  }

  /** The state of the download loop: `order` and `pending` split `missing`, `downloaded`
      is what the requests in `order` yielded, the requests so far kept the cooldown, and
      `previous` is the last timestamp taken (`t0` before the first request). */
  ghost predicate Progress(missing: set<Url>, pending: set<Url>, order: seq<Url>, starts: seq<int>, finishes: seq<int>,
                           downloaded: seq<RedditEntry>, t0: int, previous: int, fetch: Url -> Run<Option<RedditEntry>>)
  {
    && Covers(missing, pending, order)
    && Fetched(order, fetch) == Returns(downloaded)
    && |order| == |starts| && Spaced(t0, starts, finishes)
    && previous == if starts == [] then t0 else finishes[|finishes| - 1]
  }

  /** Before the first request nothing is taken and nothing downloaded. */
  lemma ProgressStart(missing: set<Url>, t0: int, fetch: Url -> Run<Option<RedditEntry>>)
    ensures Progress(missing, missing, [], [], [], [], t0, t0, fetch)
  {
  }

  /** One more request that did not panic keeps the loop's state. */
  lemma ProgressStep(missing: set<Url>, pending: set<Url>, order: seq<Url>, starts: seq<int>, finishes: seq<int>,
                     downloaded: seq<RedditEntry>, t0: int, previous: int, fetch: Url -> Run<Option<RedditEntry>>,
                     link: Url, entry: Option<RedditEntry>, start: int, finish: int)
    requires Progress(missing, pending, order, starts, finishes, downloaded, t0, previous, fetch)
    requires link in pending && fetch(link) == Returns(entry)
    requires previous + Cooldown <= start <= finish
    ensures Progress(missing, pending - {link}, order + [link], starts + [start], finishes + [finish],
                     downloaded + (if entry.Some? then [entry.value] else []), t0, finish, fetch)
  {
    FetchedSnoc(order, link, fetch);
    CoversStep(missing, pending, order, link);
    SpacedSnoc(t0, starts, finishes, start, finish);
  }
}
