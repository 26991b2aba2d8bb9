# redditscrape-rs in Dafny

A model of the enrichment core of `redditscrape-rs`. The program reads links from a
bookmark export (or a plain list of links) and keeps the links that point at reddit. It
looks each one up in an on-disk cache of API responses and downloads whatever is still
missing, waiting for reddit's three-second cooldown between requests. A downloaded
response is stored in the cache when there is a cache, the link has an id and the file can
be written. Nothing is stored without a cache or for a link without an id (such as
`https://www.reddit.com/r/Metal/`). A write the directory refuses panics. On a full device
the file is left empty and the response is not kept in memory. It then decodes each response into a `RedditEntry`
holding url, id, title, subreddit, votes, comments and permalink.

The model is split into these modules:

- `Wrappers`: `Option`, `Result` and `Run`. `Run` is a value or a panic with its message;
  it models Rust's `unwrap`, `expect` and `assert!`, which abort the program.
- `Strings`: the `str` methods the program uses (`ends_with`, `split`), with `join` and
  `replace` as the URL serialisation and serde_json's pointer unescaping need them.
- `Urls`: a URL as a record: scheme, authority, hierarchical path segments or an opaque
  path, query and fragment. It has its serialisation (`as_str`) and `join` of one segment,
  as section 5.2 of RFC 3986 defines it.
- `Links`: `id_from_link`, `filename_from_link`, `bookmark_cleanup` and the line loop of
  `parse_song_links_from_file`.
- `JsonValues`: `serde_json::Value` as a datatype, with `get`, `as_str`, `as_u64` and
  `pointer`, which is RFC 6901 with serde_json's rule for array indices.
- `Entries`: `parse_reddit_json`, including every place where it panics.
- `Caching`: the cache directory as a `Disk` object (a map from file name to content, a
  set of entries that cannot be opened, and a flag for a full device). An entry holds text,
  content that is not UTF-8, or a subdirectory, which opens but cannot be read or created. It also holds the
  `Cache` class (`new`, `try_to_get`, `store`, `load_cache_from_directory`) and `get_entries`.
- `Throttling`: the sleep computation of `throttle`, plus a monotone `Clock` object.
- `Pipeline`: `download_json`, `download_reddit_and_cache`, the host filter, the
  cached-entries step and the set difference of `bookmark_to_reddit`, and the ghost
  predicates that describe the download loop.
- `Bookmarks`: the download loop and `bookmark_to_reddit` itself.
- `Fixtures`: the post link used by the program's own tests, instantiated.

Foreign code is passed in as parameters:

- `parseUrl` stands for `Url::parse` and `parseJson` for `serde_json::from_str`.
- `network` stands for the curl transfer. It maps an API link to a body, a failed
  transfer, or a body that is not UTF-8.
- Reading the bookmark file is a sequence of lines. A line the reader fails on is `None`.
- The directory listing of `read_dir` is a sequence of entry names.
- The clock is a `Clock` object whose `Now` returns some time no earlier than the last one and records it in `readings`.

The cache loader, the download loop and `bookmark_to_reddit` take the decoder as a
parameter `decode`. The program's decoder is `Caching.Decoder(parseJson, parseUrl)`, that
is `parse_reddit_json`. None of the properties proved about these operations depends on
which decoder is used.

Where the code and its documented intent differ, the model follows the code:

- A post whose `url` member is absent, or is present but not a string, panics. It does
  not yield an entry without a url.
- A `url` string that does not parse gives an entry whose url is `None`.
- `ensure_json_link` on `.../<id>/<slug>` (no trailing `/`) replaces the slug by `.json`.
  It does not append `.json`.
- The loop sets `previous` to the current time right before its first `throttle`, so the
  first request also waits out a full cooldown, although the test of `throttle` remarks that
  a first call may return immediately. The model's spacing starts from the time before the
  loop.

## Model

| member | source | states |
|---|---|---|
| Urls.JoinSegment | src/main.rs:453 | `link.join(".json")` keeps scheme and authority, drops query and fragment, and its text ends in the joined name; it fails exactly for a cannot-be-a-base URL |
| Urls.EnsureJsonLink | src/main.rs:450-455 | the result is None exactly for an opaque link not already ending in `.json`; any result ends in `.json`; a link already ending in `.json` is returned unchanged |
| Urls.EnsureJsonLinkIdempotent | src/main.rs:590-601 | rewriting the rewritten link again gives the same link |
| Urls.EnsureJsonLinkTrailingSlash | src/main.rs:590-596 | for a link without query or fragment whose path ends in `/`, the API link has `.json` as a new last segment, and its text is the link's text followed by `.json` |
| Urls.EnsureJsonLinkReplacesLastSegment | src/main.rs:450-455 | for a path whose last segment is not empty and a link whose text does not already end in `.json`, `.json` replaces that segment and the query and fragment are dropped |
| Links.Qualifying | src/main.rs:194 | the kept segments are all longer than one character and come from the path |
| Links.IdFromLink | src/main.rs:187-203 | an id exists exactly when the path is hierarchical with at least two segments longer than one character; the id is one of the path's segments and longer than one character |
| Links.QualifyingPostPath | src/main.rs:194 | after `.../<id>/<slug>`, segments of at most one character are dropped, so the last two kept segments are id and slug |
| Links.IdOfPostLink | src/main.rs:187-203 | a post link `.../<id>/<slug>`, followed only by empty or one-character segments, is keyed by `id` |
| Links.IdIgnoresShortSegment | src/main.rs:187-203 | a segment of at most one character anywhere in the path (a trailing `/`, the `x` of `/<id>/x/<slug>`) does not change the key |
| Links.QualifyingIgnoresShort | src/main.rs:194 | a segment of at most one character anywhere in the path leaves the kept segments unchanged |
| Links.QualifyingLast | src/main.rs:194 | when any segment is kept, the last kept one is a path segment longer than one character after which only shorter segments follow |
| Links.QualifyingLastTwo | src/main.rs:194 | when two segments are kept, the last two kept ones are path segments at positions `i < k`, both longer than one character, and every other segment after `i` is at most one character |
| Links.PathJoin | src/main.rs:222 | the joined path ends in the name |
| Links.PathJoinRelative | src/main.rs:222 | a relative name under a base not ending in `/` is joined with exactly one `/` |
| Links.FilenameFromLink | src/main.rs:208-223 | it panics exactly when `IdFromLink` gives None; otherwise the file is `base/<id>_<slug>.json`, whose prefix is the id `IdFromLink` gives and whose slug is longer than one character |
| Links.FilenameFromLinkSegments | src/main.rs:208-223 | the file of a link with an id is `base/<id>_<slug>.json` where `id` and `slug` are the path segments at positions `i < k`, `id` is the key `IdFromLink` gives, both are longer than one character, and every other segment after `id` is at most one character |
| Links.FilenameOfPostLink | src/main.rs:208-223 | for a post link the file is `base/<id>_<slug>.json` with that link's id and slug |
| Links.BookmarkCleanupQuoted | src/main.rs:242-244 | None exactly when the line has no `"`; otherwise the text after the first `"` up to the next `"` or to the end of the line |
| Links.ParseSongLinksFromFile | src/main.rs:335-357 | the loop yields `SongLinks`: the lines' links in line order, skipping unreadable lines, lines the preprocessing drops and text that is not a URL |
| Links.SongLinksAppend | src/main.rs:335-357 | reading a file in two parts yields the first part's links followed by the second's |
| Links.PlainLinks | src/main.rs:237-240 | reading a plain list of links, a URL is among the links exactly when some line could be read and parses to it |
| Links.SongLinksFromLines | src/main.rs:335-357 | at most one link per line, and a URL is among the links exactly when some line yields it |
| JsonValues.Get | src/main.rs:377 | a member exists exactly for an object holding that key |
| JsonValues.ParseIndex | src/main.rs:367 | an array index with a leading zero is refused, and so is one with a `+` or `-` sign, since only decimal digits are read |
| JsonValues.UnescapeAll | src/main.rs:367 | each reference token is unescaped on its own, and the number of tokens is kept |
| JsonValues.UnescapeAllPlain | src/main.rs:367 | tokens without `~` are left as they are |
| JsonValues.Pointer | src/main.rs:367 | the empty pointer finds the value itself, and a pointer not starting with `/` finds nothing |
| JsonValues.PointerOfJoin | src/main.rs:367 | a pointer of `/`-separated tokens without escapes follows exactly those tokens |
| Entries.ValueToString | src/main.rs:373-375 | it panics exactly for a member that is present but not a string; otherwise it gives that string, or None for an absent member |
| Entries.DecodePost | src/main.rs:377-402 | it panics exactly when `url` is absent or one of url, permalink, id, title or subreddit is present but not a string; each string field mirrors its member; votes and comments are present exactly when the member holds a u64; the url and the permalink (site origin followed by the relative permalink) are parsed, and text that does not parse is dropped |
| Entries.DecodeDocument | src/main.rs:366-402 | no entry when the data pointer finds nothing; otherwise the entry or panic of the post it finds |
| Entries.ParseRedditJson | src/main.rs:360-364 | text that is not JSON gives no entry; otherwise the document is decoded |
| Entries.DataPointerNavigates | src/main.rs:366-367 | `/0/data/children/0/data` follows the tokens `0`, `data`, `children`, `0`, `data` |
| Entries.NavigateListing | src/main.rs:367-370 | those tokens reach the first listing's first child's data whatever other children and listings follow |
| Entries.ResponsePointer | src/main.rs:366-370 | the data pointer of a response finds exactly the post of its first listing's first child |
| Entries.ResponseDecodes | src/main.rs:530-546 | a response whose post carries every field with its API type decodes to exactly those fields, with the permalink resolved against the site origin |
| Caching.SaveJsonFile | src/main.rs:180-184 | it panics exactly when the directory is gone, the file cannot be opened, or the name is a subdirectory; a full device reports an error and leaves the file empty; otherwise the file holds the data; no other file changes |
| Caching.LoadJsonFile | src/main.rs:168-178 | it panics exactly when the file cannot be opened; it gives the text of a readable file and None for one that cannot be read as text, including a subdirectory |
| Caching.Disk.CreateDirAll | src/main.rs:88-92 | an existing directory is kept, and a missing one is created empty when it can be created; success exactly when the path is a directory or a missing path that can be created |
| Caching.Disk.Save | src/main.rs:180-184 | the directory's new files are those `SaveJsonFile` gives |
| Caching.CacheFile | src/main.rs:105 | the file of a key is the key followed by `.json` |
| Caching.CacheFileInjective | src/main.rs:105 | different keys are stored in different files |
| Caching.JsonExtensionStem | src/main.rs:145 | a name has the `json` extension exactly when it is the cache file of its non-empty stem; the cache file of a key has it exactly when the key is not empty |
| Caching.StoreSpec | src/main.rs:104-114 | it panics exactly when the file cannot be created (the directory is gone, the file cannot be opened, or the name is a subdirectory), and then nothing changes; it succeeds exactly when the write does; on success memory and file both hold the data under the key; a full device leaves an empty file and memory unchanged |
| Caching.StoreTwice | src/main.rs:104-114 | storing the same response twice gives the same outcome, memory and files as storing it once |
| Caching.StoreOverSubdirectory | src/main.rs:104-114 | storing under a key whose file name is a subdirectory panics and changes nothing, while loading that name gives None |
| Caching.Cache.Init | src/main.rs:94-97 | the new cache holds the given directory and storage |
| Caching.Cache.New | src/main.rs:84-98 | it panics exactly when the path is neither a directory nor a missing path that can be created; a missing path that can be created becomes an empty directory; on success a fresh, empty cache over the directory |
| Caching.Cache.TryToGet | src/main.rs:100-102 | a response exactly for a stored key, and it is the stored one |
| Caching.Cache.Store | src/main.rs:104-114 | the new memory and files are those of `StoreSpec`; after a successful write `TryToGet(key)` gives the data; after a failed write memory is unchanged; other keys keep their responses |
| Caching.ReadJsonFiles | src/main.rs:144-147 | at most one document per listed entry |
| Caching.ReadJsonFilesPanicStays | src/main.rs:144-147 | a panic while reading part of the listing is the outcome of reading all of it |
| Caching.ReadJsonFilesContents | src/main.rs:144-147 | reading panics exactly when a listed `.json` entry cannot be opened; a document is read exactly when it is the text of a listed `.json` entry |
| Caching.IndexPanicStays | src/main.rs:149-154 | a panic while indexing part of the documents is the outcome of indexing all of them |
| Caching.IndexPanics | src/main.rs:149-154 | indexing panics exactly when decoding one of the documents panics |
| Caching.IndexSnoc | src/main.rs:149-154 | one more document extends the index under its id, if it has one |
| Caching.IndexKeys | src/main.rs:149-154 | a key is indexed exactly when some document decodes to an entry with that id |
| Caching.IndexById | src/main.rs:149-154 | the document under a key is the last one decoding to that id |
| Caching.Cache.LoadCacheFromDirectory | src/main.rs:117-163 | None unless the path is a directory; otherwise the panic of reading or decoding, or a fresh cache over the directory whose storage is `LoadedStorage` |
| Caching.ReloadAfterStore | src/main.rs:104-163 | storing a response in an empty directory and loading that directory gives back a storage holding the response under its id |
| Caching.GetEntries | src/main.rs:405-419 | the loop yields `CachedDocuments`: in link order, the stored responses for links whose key can be derived and is held; the cache is not changed |
| Caching.CachedDocumentsAppend | src/main.rs:405-419 | looking up two parts of the links finds the first part's responses, then the second's |
| Caching.CachedDocumentsFromLinks | src/main.rs:405-419 | at most one response per link, and a response is found exactly when some link's key is held with it |
| Throttling.SleepFor | src/main.rs:251-261 | it panics exactly when the clock has not moved on since `previous`; otherwise the call starts at least a cooldown after `previous`, with no sleep when the cooldown has already passed and no longer than needed otherwise |
| Throttling.Throttle | src/main.rs:251-265 | `func` is applied to `arg` once, and its result is returned; the returned time follows the call; it panics exactly when the clock has not moved on |
| Throttling.ThrottledBackToBack | src/main.rs:761-771 | the second of two calls in a row returns at least a cooldown, so more than a second, after the first's timestamp |
| Throttling.Clock.Now | src/main.rs:254 | the time read is no earlier than the last one, and is appended to the clock's `readings` |
| Throttling.Clock.Sleep | src/main.rs:259-260 | sleeping returns no earlier than the duration asked for, and reads nothing off the clock |
| Pipeline.DownloadJson | src/main.rs:421-448 | no API form, or a failed transfer, gives None; it panics exactly when the body is not UTF-8; a body is the one the network returns for an API link ending in `.json`, and a body the network returns for the API link is returned |
| Pipeline.DownloadRedditAndCache | src/main.rs:268-288 | it panics exactly when the download or the decode panics (`FetchOne`), or when the link has an id, its download gave a body and the id's cache file may not be created (`StoreRefused`); otherwise the result is the downloaded response decoded; with a cache and a key the new cache state is `StoreSpec` of the response; otherwise the cache is unchanged; the cache only gains keys, and only the link's own key; the new cache state is `StoreStep` of the old one |
| Pipeline.RedditLinks | src/main.rs:292 | the kept links come from the input, have a hierarchical path and the host `www.reddit.com` |
| Pipeline.RedditLinksAppend | src/main.rs:292 | the filter keeps the order of the links |
| Pipeline.RedditLinksMembers | src/main.rs:292 | a link is kept exactly when it is in the input and `host_str` gives `www.reddit.com`: its path is hierarchical and its host is `www.reddit.com` |
| Pipeline.DecodeAll | src/main.rs:299-301 | at most one entry per response |
| Pipeline.DecodeAllEntries | src/main.rs:299-301 | decoding panics exactly when one response's decoding panics; an entry is kept exactly when some response decodes to it |
| Pipeline.SelfLinks | src/main.rs:307-308 | a link is found in the cache exactly when it is the permalink of some cached entry |
| Pipeline.MissingLinks | src/main.rs:307-311 | a link is missing exactly when it is one of the links and no cached entry has it as its permalink |
| Pipeline.NothingCached | src/main.rs:297-305 | without a cache nothing is found, and every link is missing |
| Pipeline.FetcherFetches | src/main.rs:319 | each request yields what downloading that link yields |
| Pipeline.FetchedSnoc | src/main.rs:322-329 | one more request appends its entry, if any |
| Pipeline.StoringSteps | src/main.rs:319 | `Storing` changes the cache exactly as one request does |
| Pipeline.StoredAfterSnoc | src/main.rs:316-320 | one more request changes the cache by one more step |
| Pipeline.StoreStepFrame | src/main.rs:268-288 | one request loses no response and no file, and changes only the response under its link's id and that id's cache file |
| Pipeline.StoreStepHere | src/main.rs:268-288 | a request for a link with an id whose download gives a body, into a directory where the file may be created (it is not refused and is not a subdirectory), writes the body (an empty file on a full device) and, when written, holds it in memory |
| Pipeline.StoreStepElsewhere | src/main.rs:268-288 | a request for a link with another id, or none, leaves the response under a key and that key's file alone |
| Pipeline.StoredAfterFrame | src/main.rs:316-329 | the requests lose no response and no file; a new or replaced response is under the id of a requested link, and a new or rewritten file is the cache file of such an id |
| Pipeline.StoredAfterUntouched | src/main.rs:316-329 | requests for links whose id is not the key leave the response under the key, and its file, as they were |
| Pipeline.StoredAfterLast | src/main.rs:316-329 | after the requests, the last request for an id whose download gave a body has left that body in the id's file (an empty file on a full device) and, when the write succeeded, in memory |
| Pipeline.ThrottledDownload | src/main.rs:319-320 | when the first clock reading equals `previous` (`SleepFor` panics) it panics at once, after that one reading and with the cache unchanged; otherwise it panics exactly when the download or the decode panics or the cache file is refused (`StoreRefused`); a request that does not panic yields `fetch(link)`, begins no earlier than the first reading plus the pause `SleepFor` gives, so at least a cooldown after `previous`, and ends at the clock's last reading; the cache only gains keys, under the link's key; the directory keeps its kind; the new cache state is `StoreStep` of the old one |
| Pipeline.SpacedSnoc | src/main.rs:316-320 | a request a cooldown after the last timestamp keeps the spacing |
| Pipeline.CoversStep | src/main.rs:317 | taking one pending link keeps `order` and `pending` a partition of the missing links, without repetition |
| Pipeline.ProgressStart | src/main.rs:316-317 | before the first request nothing is taken and nothing downloaded |
| Pipeline.ProgressStep | src/main.rs:317-330 | a request that does not panic extends the loop state by its link, its times and its entry |
| Bookmarks.RequestNext | src/main.rs:318-329 | one turn of the loop: a request that does not panic yields the loop state extended by that link, and the cache state is `StoredAfter` of the requests made so far, with the directory's kind kept; a request that panics stops the run at its link, not requested before, for a reason `PanicCause` names (`StoppedAt`) |
| Bookmarks.TurnStopped | src/main.rs:318-320 | a turn whose request panicked, because the clock stayed at `previous`, because of its download or decode, or because of a refused cache file in the state the earlier requests left, stops the run at its link (`StoppedAt`) |
| Bookmarks.RequestPending | src/main.rs:318-329 | the loop over the pending links: on a run that does not panic, the entries are those the requests yield and every missing link is requested exactly once; each request keeps the cooldown; the cache state is `StoredAfter` of the requests; a run that panics stopped at a missing link not yet requested, for a reason `PanicCause` names |
| Bookmarks.DownloadMissing | src/main.rs:316-330 | on a run that does not panic, the entries are those the requests yield, in request order, and every missing link is requested exactly once; on every run, each request begins at least a cooldown after the timestamp before it; on a run that does not panic, the directory keeps its kind and the cache state is `StoredAfter` of the requests in request order; a run panics only by stopping at a missing link not yet requested, after requests that did not panic, because the clock did not move on, because that link's download or decode panicked, or because its cache file may not be created in the state the earlier requests left (`StoppedAt`) |
| Bookmarks.BookmarkToReddit | src/main.rs:290-333 | on a run that does not panic, the result is the entries decoded from the cache for the bookmark's reddit links, followed by the entries downloaded for exactly the missing links, each requested once; the requests keep the cooldown; on a run that does not panic, the directory keeps its kind and the cache state is `StoredAfter` of the requests in request order, each stored as `Cache::store` stores it (see `StoredAfterFrame`, `StoredAfterUntouched` and `StoredAfterLast` for what that state holds); a cached document whose decoding panics panics the run before any request; otherwise a run panics only as `StoppedAt` says for the missing links |
| Fixtures.PostLinkId | src/main.rs:187-203 | the test post link is keyed `5elhkp` |
| Fixtures.PostLinkFile | src/main.rs:208-223 | the test post link is stored as `5elhkp_spectral_lore_cosmic_significance.json` under any base |
| Fixtures.PostLinkFilename | src/main.rs:617-623 | under `/tmp` that file is `/tmp/5elhkp_spectral_lore_cosmic_significance.json` |
| Fixtures.PostLinkApi | src/main.rs:590-595 | the test post link is rewritten to `.../spectral_lore_cosmic_significance/.json`, which is kept as it is |
| Fixtures.BookmarkEntryLink | src/main.rs:562-571 | a bookmark entry `<DT><A HREF="<link>" ...>` yields its link |

## Left out

- `main`, command-line parsing, CSV output, the `Serialize` and `Display` impls of `Link`, and `println!` logging are not modelled. They are input and output glue.
- URL parsing (`Url::parse`) and JSON parsing (`serde_json::from_str`) are left out because they are foreign libraries. They are the parameters `parseUrl` and `parseJson`. `Url` equality is record equality.
- The host filter compares the whole authority with `www.reddit.com`. Userinfo and a port are not split out. As with `host_str`, a URL that cannot be a base (an opaque path) has no host.
- Segment lengths are counted in characters. This equals `len()` in bytes because segments are percent-encoded ASCII.
- The curl transfer is the parameter `network`. `handle.url(..).expect(..)` and `write_function(..).expect(..)` are not modelled; they only fail for a malformed handle setup.
- The real filesystem is the `Disk` object. The errors `read_dir` reports, and the entry errors it skips, are not modelled. The listing order is the parameter `listing`, which must name entries present in the directory.
- A failed write leaves an empty file. Partial writes of other lengths are not modelled.
- Wall-clock time and `std::thread::sleep` are the `Clock` object with integer nanoseconds. `Duration::to_std().expect(..)` cannot fail on a positive sleep and is not modelled.
- `HashSet` iteration order is left open: the loop picks any pending link.
- Bookmarks.DownloadMissing: on a run that panics, the spacing of the requests made and the cause of the panic are stated. The cache after the panic is not described.
- Pipeline.ThrottledDownload: after a download, decode or write that panics the cache state is not stated as `StoreStep`. A write may already have happened. After a stuck clock the cache is stated unchanged.
- Bookmarks.BookmarkToReddit: on a run that panics, the spacing of the requests made and the cause of the panic are stated. The cache is not described, because the panicking request may already have stored its response.
- Bookmarks.BookmarkToReddit: the start time of the panicking request itself is not recorded.
