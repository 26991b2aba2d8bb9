/** `Cache`: API responses kept in memory by post id and mirrored as one `<id>.json`
    file per post in a cache directory. */
module Caching {
  import opened Wrappers
  import opened Strings
  import opened Urls
  import opened JsonValues
  import opened Entries
  import opened Links

  /** A directory entry: a file holding text, a file whose content is not UTF-8, or an
      entry that is itself a directory (`File::open` opens it, reading it fails, and
      `File::create` refuses it). */
  datatype FileNode = Text(content: string) | Unreadable | Subdirectory

  /** What the cache path names. */
  datatype PathKind = Missing | Directory | NotDirectory

  /** The error `write_all` reports. */
  datatype IoError = StorageFull

  /** Whether `File::create` opens the entry `name` for writing: the directory exists, the
      entry is not refused, and it is not itself a directory. */
  predicate MayCreate(kind: PathKind, files: map<string, FileNode>, locked: set<string>, name: string)
  {
    kind == Directory && name !in locked && !(name in files && files[name].Subdirectory?)
  }

  /** `save_json_file` on the entry `name` of a directory: `File::create` panics when the
      directory is gone, the entry may not be opened or it is a directory; otherwise it
      truncates the file, and `write_all` either writes `json` or fails on a full device,
      leaving the file empty. */
  function SaveJsonFile(kind: PathKind, files: map<string, FileNode>, locked: set<string>, full: bool,
                        name: string, json: Json): (r: (Run<Result<(), IoError>>, map<string, FileNode>))
    ensures r.0.Panics? <==> !MayCreate(kind, files, locked, name)
    ensures r.0.Panics? ==> r.1 == files
    ensures r.0 == Returns(Ok(())) ==> name in r.1 && r.1[name] == Text(json)
    ensures r.0 == Returns(Err(StorageFull)) ==> full && json != "" && name in r.1 && r.1[name] == Text("")
    ensures r.1.Keys <= files.Keys + {name}
    ensures forall n :: n in files && n != name ==> n in r.1 && r.1[n] == files[n]
  {
    if !MayCreate(kind, files, locked, name) then (Panics("could not open file"), files)
    else if full && json != "" then (Returns(Err(StorageFull)), files[name := Text("")])
    else (Returns(Ok(())), files[name := Text(json)])
  }

  /** `load_json_file` on the entry `name`: `File::open` panics on an entry that may not be
      opened, and a read error (content that is not UTF-8, or a directory) gives None. */
  function LoadJsonFile(files: map<string, FileNode>, locked: set<string>, name: string): (r: Run<Option<Json>>)
    requires name in files
    ensures r.Panics? <==> name in locked
    ensures r.Returns? ==> (r.value.Some? <==> files[name].Text?)
    ensures r.Returns? && r.value.Some? ==> files[name] == Text(r.value.value)
  {
    if name in locked then Panics("could not open file")
    else match files[name]
      case Text(content) => Returns(Some(content))
      case Unreadable => Returns(None)
      case Subdirectory => Returns(None)
  }

  /** The cache directory: what its path names, and the entries in it by file name. */
  class Disk {
    var kind: PathKind
    var files: map<string, FileNode>
    /** Entries `File::open` and `File::create` refuse. */
    const locked: set<string>
    /** Whether the device has no room left for another byte. */
    const full: bool
    /** Whether `create_dir_all` may create the path when it is missing: its parents exist
        or can be created, and may be written to. */
    const creatable: bool

    constructor (kind: PathKind, files: map<string, FileNode>, locked: set<string>, full: bool, creatable: bool)
      ensures this.kind == kind && this.files == files && this.locked == locked && this.full == full
      ensures this.creatable == creatable
    {
      this.kind := kind;
      this.files := files;
      this.locked := locked;
      this.full := full;
      this.creatable := creatable;
    }

    /** `create_dir_all` followed by the `is_dir` test: an existing directory is kept, a
        missing one is created empty when it can be, and a path naming anything else, or a
        missing directory that cannot be created, fails. */
    method CreateDirAll() returns (ok: bool)
      modifies this
      ensures ok <==> old(kind) == Directory || (old(kind) == Missing && creatable)
      ensures kind == (if old(kind) == Missing && creatable then Directory else old(kind))
      ensures files == (if old(kind) == Missing && creatable then map[] else old(files))
    {
      if kind == Missing && creatable {
        kind := Directory;
        files := map[];
      }
      ok := kind == Directory;
    }

    /** `save_json_file(directory.join(name), json)`. */
    method Save(name: string, json: Json) returns (r: Run<Result<(), IoError>>)
      modifies this
      ensures kind == old(kind)
      ensures (r, files) == SaveJsonFile(kind, old(files), locked, full, name, json)
    {
      var saved := SaveJsonFile(kind, files, locked, full, name, json);
      r := saved.0;
      files := saved.1;
    }
  }

  /** The file a post's response is stored in: `format!("{}.json", key)`, the key
      followed by `.json`. */
  function CacheFile(key: string): (name: string)
    ensures |name| == |key| + |JsonSuffix| && name[..|key|] == key && EndsWith(name, JsonSuffix)
  {
    key + JsonSuffix
  }

  /** Different keys are stored in different files. */
  lemma CacheFileInjective(a: string, b: string)
    requires CacheFile(a) == CacheFile(b)
    ensures a == b
  {
    assert a == CacheFile(a)[..|a|];
  }

  /** `Path::extension() == Some("json")` for a file name: a non-empty stem before `.json`. */
  predicate HasJsonExtension(name: string)
  {
    |name| > |JsonSuffix| && EndsWith(name, JsonSuffix)
  }

  /** The names with the `json` extension are exactly the cache files of non-empty keys:
      a name has it when it is the cache file of its non-empty stem, and the cache file of
      a key has it exactly when the key is not empty. */
  lemma JsonExtensionStem(name: string, key: string)
    ensures HasJsonExtension(name) <==> |name| > |JsonSuffix| && CacheFile(name[..|name| - |JsonSuffix|]) == name
    ensures HasJsonExtension(CacheFile(key)) <==> key != ""
  {
    assert CacheFile(key)[..|CacheFile(key)| - |JsonSuffix|] == key;
  }

  /** `Cache::store` on values: write the file first, and only after it was written
      remember the response in memory. */
  function StoreSpec(storage: map<string, Json>, kind: PathKind, files: map<string, FileNode>,
                     locked: set<string>, full: bool, key: string, data: Json)
    : (r: (Run<Result<(), IoError>>, map<string, Json>, map<string, FileNode>))
    ensures r.0.Panics? <==> !MayCreate(kind, files, locked, CacheFile(key))
    ensures r.0 == Returns(Ok(())) <==> r.0.Returns? && (!full || data == "")
    ensures r.0 == Returns(Ok(())) ==> r.1 == storage[key := data] && r.2 == files[CacheFile(key) := Text(data)]
    ensures r.0 != Returns(Ok(())) ==> r.1 == storage
    // a refused write leaves the directory alone, a failed one leaves an empty file
    ensures r.0.Panics? ==> r.2 == files
    ensures r.0 == Returns(Err(StorageFull)) ==> r.2 == files[CacheFile(key) := Text("")]
  {
    var saved := SaveJsonFile(kind, files, locked, full, CacheFile(key), data);
    (saved.0, if saved.0 == Returns(Ok(())) then storage[key := data] else storage, saved.1)
  }

  /** Storing the same response twice leaves everything as storing it once. */
  lemma StoreTwice(storage: map<string, Json>, kind: PathKind, files: map<string, FileNode>,
                   locked: set<string>, full: bool, key: string, data: Json)
    ensures var once := StoreSpec(storage, kind, files, locked, full, key, data);
      StoreSpec(once.1, kind, once.2, locked, full, key, data) == once
  {
    var once := StoreSpec(storage, kind, files, locked, full, key, data);
    var name := CacheFile(key);
    if once.0.Returns? {
      var written := if full && data != "" then Text("") else Text(data);
      assert once.2 == files[name := written];
      assert once.2[name := written] == once.2;
      if once.0 == Returns(Ok(())) {
        assert once.1[key := data] == once.1;
      }
    }
  }

  /** A directory standing where a response's file would go: storing panics and changes
      nothing, and loading it reads nothing. */
  lemma StoreOverSubdirectory(storage: map<string, Json>, kind: PathKind, files: map<string, FileNode>,
                              locked: set<string>, full: bool, key: string, data: Json)
    requires CacheFile(key) in files && files[CacheFile(key)] == Subdirectory
    ensures var stored := StoreSpec(storage, kind, files, locked, full, key, data);
      stored.0.Panics? && stored.1 == storage && stored.2 == files
    ensures CacheFile(key) !in locked ==> LoadJsonFile(files, locked, CacheFile(key)) == Returns(None)
  {
  }

  /** The files `load_cache_from_directory` reads, in listing order: entries without the
      `json` extension are skipped, and so are entries that cannot be read as text. */
  function ReadJsonFiles(files: map<string, FileNode>, locked: set<string>, names: seq<string>): (r: Run<seq<Json>>)
    requires forall i :: 0 <= i < |names| ==> names[i] in files
    ensures r.Returns? ==> |r.value| <= |names|
  {
    if names == [] then Returns([])
    else
      var before :- ReadJsonFiles(files, locked, names[..|names| - 1]);
      var name := names[|names| - 1];
      if !HasJsonExtension(name) then Returns(before)
      else
        var loaded :- LoadJsonFile(files, locked, name);
        Returns(if loaded.Some? then before + [loaded.value] else before)
  }

  /** The in-memory index over the documents read: each one that decodes to an entry with
      an id is kept under that id, a later document replacing an earlier one (`HashMap::insert`). */
  function Index(docs: seq<Json>, decode: Json -> Run<Option<RedditEntry>>): (r: Run<map<string, Json>>)
  {
    if docs == [] then Returns(map[])
    else
      var before :- Index(docs[..|docs| - 1], decode);
      var doc := docs[|docs| - 1];
      var entry :- decode(doc);
      Returns(if entry.Some? && entry.value.redditId.Some? then before[entry.value.redditId.value := doc] else before)
  }

  /** The id a document is indexed under, if any. */
  function DecodedId(doc: Json, decode: Json -> Run<Option<RedditEntry>>): Option<string>
  {
    var entry := decode(doc);
    if entry.Returns? && entry.value.Some? then entry.value.value.redditId else None
  }

  /** The decoder the cache indexes with: `parse_reddit_json`. */
  function Decoder(parseJson: string -> Option<Value>, parseUrl: string -> Option<Url>): Json -> Run<Option<RedditEntry>>
  {
    doc => ParseRedditJson(doc, parseJson, parseUrl)
  }

  /** The storage a cache loaded from a directory listing holds. */
  function LoadedStorage(files: map<string, FileNode>, locked: set<string>, listing: seq<string>,
                         decode: Json -> Run<Option<RedditEntry>>): Run<map<string, Json>>
    requires forall i :: 0 <= i < |listing| ==> listing[i] in files
  {
    var docs :- ReadJsonFiles(files, locked, listing);
    Index(docs, decode)
  }

  /** Once reading a prefix of the listing panics, reading all of it panics the same way. */
  lemma {:induction false} ReadJsonFilesPanicStays(files: map<string, FileNode>, locked: set<string>, names: seq<string>, j: nat)
    requires forall i :: 0 <= i < |names| ==> names[i] in files
    requires j <= |names| && ReadJsonFiles(files, locked, names[..j]).Panics?
    ensures ReadJsonFiles(files, locked, names) == ReadJsonFiles(files, locked, names[..j])
    decreases |names|
  {
    if j < |names| {
      var init := names[..|names| - 1];
      assert init[..j] == names[..j];
      ReadJsonFilesPanicStays(files, locked, init, j);
    } else {
      assert names[..j] == names;
    }
  }

  /** Once indexing a prefix of the documents panics, indexing all of them panics the same way. */
  lemma {:induction false} IndexPanicStays(docs: seq<Json>, j: nat, decode: Json -> Run<Option<RedditEntry>>)
    requires j <= |docs| && Index(docs[..j], decode).Panics?
    ensures Index(docs, decode) == Index(docs[..j], decode)
    decreases |docs|
  {
    if j < |docs| {
      var init := docs[..|docs| - 1];
      assert init[..j] == docs[..j];
      IndexPanicStays(init, j, decode);
    } else {
      assert docs[..j] == docs;
    }
  }

  /** Which documents are read: exactly the text of the listed entries with the `json`
      extension, and reading panics exactly when one of those entries may not be opened. */
  lemma {:induction false} ReadJsonFilesContents(files: map<string, FileNode>, locked: set<string>, names: seq<string>)
    requires forall i :: 0 <= i < |names| ==> names[i] in files
    ensures ReadJsonFiles(files, locked, names).Panics? <==>
      exists i :: 0 <= i < |names| && HasJsonExtension(names[i]) && names[i] in locked
    ensures ReadJsonFiles(files, locked, names).Returns? ==> forall doc :: doc in ReadJsonFiles(files, locked, names).value <==>
      exists i :: 0 <= i < |names| && HasJsonExtension(names[i]) && files[names[i]] == Text(doc)
  {
    if names != [] {
      var init := names[..|names| - 1];
      var name := names[|names| - 1];
      ReadJsonFilesContents(files, locked, init);
      assert forall i :: 0 <= i < |init| ==> init[i] == names[i];
      if ReadJsonFiles(files, locked, init).Returns? && ReadJsonFiles(files, locked, names).Returns? {
        forall doc | exists i :: 0 <= i < |names| && HasJsonExtension(names[i]) && files[names[i]] == Text(doc)
          ensures doc in ReadJsonFiles(files, locked, names).value
        {
          var i :| 0 <= i < |names| && HasJsonExtension(names[i]) && files[names[i]] == Text(doc);
          if i < |init| {
            assert init[i] == names[i];
          }
        }
      }
    }
  }

  /** Indexing panics exactly when decoding one of the documents panics. */
  lemma {:induction false} IndexPanics(docs: seq<Json>, decode: Json -> Run<Option<RedditEntry>>)
    ensures Index(docs, decode).Panics? <==>
      exists i :: 0 <= i < |docs| && decode(docs[i]).Panics?
  {
    if docs != [] {
      var init := docs[..|docs| - 1];
      IndexPanics(init, decode);
      assert forall i :: 0 <= i < |init| ==> init[i] == docs[i];
    }
  }

  /** One more document: the index is extended by it when it decodes to an id. */
  lemma IndexSnoc(docs: seq<Json>, decode: Json -> Run<Option<RedditEntry>>)
    requires docs != [] && Index(docs, decode).Returns?
    ensures Index(docs[..|docs| - 1], decode).Returns? && decode(docs[|docs| - 1]).Returns?
    ensures var last := docs[|docs| - 1];
      var before := Index(docs[..|docs| - 1], decode).value;
      Index(docs, decode).value ==
        if DecodedId(last, decode).Some? then before[DecodedId(last, decode).value := last] else before
  {
  }

  /** The index holds a key exactly when some document decodes to that id. */
  lemma {:induction false} IndexKeys(docs: seq<Json>, decode: Json -> Run<Option<RedditEntry>>)
    requires Index(docs, decode).Returns?
    ensures forall key :: key in Index(docs, decode).value <==>
      exists i :: 0 <= i < |docs| && DecodedId(docs[i], decode) == Some(key)
  {
    if docs != [] {
      var init := docs[..|docs| - 1];
      IndexSnoc(docs, decode);
      IndexKeys(init, decode);
      assert forall i :: 0 <= i < |init| ==> init[i] == docs[i];
      forall key | exists i :: 0 <= i < |docs| && DecodedId(docs[i], decode) == Some(key)
        ensures key in Index(docs, decode).value
      {
        var i :| 0 <= i < |docs| && DecodedId(docs[i], decode) == Some(key);
        if i < |init| {
          assert DecodedId(init[i], decode) == Some(key);
        }
      }
    }
  }

  /** What the index holds under a key is the LAST document that decodes to that id. */
  lemma {:induction false} IndexById(docs: seq<Json>, decode: Json -> Run<Option<RedditEntry>>)
    requires Index(docs, decode).Returns?
    ensures forall key :: key in Index(docs, decode).value ==>
      exists i :: (0 <= i < |docs| && docs[i] == Index(docs, decode).value[key]
                   && DecodedId(docs[i], decode) == Some(key)
                   && forall j :: i < j < |docs| ==> DecodedId(docs[j], decode) != Some(key))
  {
    if docs != [] {
      var init := docs[..|docs| - 1];
      var last := docs[|docs| - 1];
      IndexSnoc(docs, decode);
      IndexById(init, decode);
      var index := Index(docs, decode).value;
      forall key | key in index
        ensures exists i :: (0 <= i < |docs| && docs[i] == index[key]
                             && DecodedId(docs[i], decode) == Some(key)
                             && forall j :: i < j < |docs| ==> DecodedId(docs[j], decode) != Some(key))
      {
        if DecodedId(last, decode) == Some(key) {
          assert docs[|docs| - 1] == index[key];
        } else {
          var i :| 0 <= i < |init| && init[i] == Index(init, decode).value[key]
            && DecodedId(init[i], decode) == Some(key)
            && forall j :: i < j < |init| ==> DecodedId(init[j], decode) != Some(key);
          assert docs[i] == init[i] == index[key];
          forall j | i < j < |docs| ensures DecodedId(docs[j], decode) != Some(key) {
            if j < |init| { assert docs[j] == init[j]; }
          }
        }
      }
    }
  }

  /** An in-memory cache in front of its directory. */
  class Cache {
    var storage: map<string, Json>
    const directory: Disk

    /** The struct literal `Cache { storage, directory }`. */
    constructor Init(directory: Disk, storage: map<string, Json>)
      ensures this.directory == directory && this.storage == storage
    {
      this.directory := directory;
      this.storage := storage;
    }

    /** `Cache::new`: an empty cache over the directory, created when missing; a path
        that names something other than a directory, or a missing directory that cannot
        be created, panics. */
    static method New(directory: Disk) returns (r: Run<Cache>)
      modifies directory
      ensures r.Panics? <==> !(old(directory.kind) == Directory || (old(directory.kind) == Missing && directory.creatable))
      ensures var created := old(directory.kind) == Missing && directory.creatable;
        && directory.kind == (if created then Directory else old(directory.kind))
        && directory.files == (if created then map[] else old(directory.files))
      ensures r.Returns? ==> fresh(r.value) && r.value.directory == directory && r.value.storage == map[]
    {
      var created := directory.CreateDirAll();
      if !created {
        return Panics("Cache error: could not create directory");
      }
      var cache := new Cache.Init(directory, map[]);
      return Returns(cache);
    }

    /** `Cache::try_to_get`: the response held for `key`, if any. */
    function TryToGet(key: string): (r: Option<Json>)
      reads this
      ensures r.Some? <==> key in storage
      ensures r.Some? ==> r.value == storage[key]
    {
      if key in storage then Some(storage[key]) else None
    }

    /** `Cache::store`: write `<key>.json`, and remember `data` under `key` only when the
        write succeeded; an error leaves the memory as it was, other keys are untouched. */
    method Store(key: string, data: Json) returns (r: Run<Result<(), IoError>>)
      modifies this, directory
      ensures directory.kind == old(directory.kind)
      ensures (r, storage, directory.files)
        == StoreSpec(old(storage), directory.kind, old(directory.files), directory.locked, directory.full, key, data)
      ensures r == Returns(Ok(())) ==> TryToGet(key) == Some(data)
      ensures r != Returns(Ok(())) ==> storage == old(storage)
      ensures forall k :: k in old(storage) && k != key ==> k in storage && storage[k] == old(storage)[k]
    {
      r := directory.Save(CacheFile(key), data);
      if r == Returns(Ok(())) {
        storage := storage[key := data];
      }
    }

    /** `Cache::load_cache_from_directory` for a directory whose readable entries come in
        the order `listing`: None unless the path is a directory, otherwise a cache whose
        storage indexes the documents read by the ids they decode to. `decode` is the
        program's `parse_reddit_json`, `Decoder(parseJson, parseUrl)`; nothing here depends
        on which decoder it is. */
    static method LoadCacheFromDirectory(directory: Disk, listing: seq<string>, decode: Json -> Run<Option<RedditEntry>>)
      returns (r: Run<Option<Cache>>)
      requires forall i :: 0 <= i < |listing| ==> listing[i] in directory.files
      ensures directory.kind != Directory ==> r == Returns(None)
      ensures directory.kind == Directory && LoadedStorage(directory.files, directory.locked, listing, decode).Panics?
        ==> r == Panics(LoadedStorage(directory.files, directory.locked, listing, decode).message)
      ensures directory.kind == Directory && LoadedStorage(directory.files, directory.locked, listing, decode).Returns?
        ==> (r.Returns? && r.value.Some? && fresh(r.value.value) && r.value.value.directory == directory
             && r.value.value.storage == LoadedStorage(directory.files, directory.locked, listing, decode).value)
    {
      if directory.kind != Directory {
        return Returns(None);
      }
      var docs: seq<Json> := [];
      for i := 0 to |listing|
        invariant ReadJsonFiles(directory.files, directory.locked, listing[..i]) == Returns(docs)
      {
        assert listing[..i + 1][..i] == listing[..i];
        var name := listing[i];
        if HasJsonExtension(name) {
          var loaded := LoadJsonFile(directory.files, directory.locked, name);
          if loaded.Panics? {
            ReadJsonFilesPanicStays(directory.files, directory.locked, listing, i + 1);
            return Panics(loaded.message);
          }
          if loaded.value.Some? {
            docs := docs + [loaded.value.value];
          }
        }
      }
      assert listing[..|listing|] == listing;
      var storage: map<string, Json> := map[];
      for i := 0 to |docs|
        invariant Index(docs[..i], decode) == Returns(storage)
      {
        assert docs[..i + 1][..i] == docs[..i];
        var entry := decode(docs[i]);
        if entry.Panics? {
          IndexPanicStays(docs, i + 1, decode);
          return Panics(entry.message);
        }
        if entry.value.Some? && entry.value.value.redditId.Some? {
          storage := storage[entry.value.value.redditId.value := docs[i]];
        }
      }
      assert docs[..|docs|] == docs;
      var cache := new Cache.Init(directory, storage);
      return Returns(Some(cache));
    }
  }

  /** Storing a response in an empty cache directory and loading the directory again gives
      back a cache holding that response under its id. */
  lemma ReloadAfterStore(key: string, data: Json, decode: Json -> Run<Option<RedditEntry>>)
    requires key != "" && decode(data).Returns? && DecodedId(data, decode) == Some(key)
    ensures var stored := StoreSpec(map[], Directory, map[], {}, false, key, data);
      && stored.0 == Returns(Ok(()))
      && stored.1 == map[key := data]
      && CacheFile(key) in stored.2
      && LoadedStorage(stored.2, {}, [CacheFile(key)], decode) == Returns(stored.1)
  {
    var name := CacheFile(key);
    var files := map[name := Text(data)];
    assert StoreSpec(map[], Directory, map[], {}, false, key, data) == (Returns(Ok(())), map[key := data], files);
    EndsWithAppend(key, JsonSuffix);
    assert HasJsonExtension(name);
    assert [name][..0] == [];
    assert ReadJsonFiles(files, {}, [name][..0]) == Returns([]);
    assert [name][|[name]| - 1] == name;
    assert LoadJsonFile(files, {}, name) == Returns(Some(data));
    var read := ReadJsonFiles(files, {}, [name]);
    assert read.Returns? && read.value == [data];
    assert [data][..0] == [];
    assert [data][|[data]| - 1] == data;
    assert Index([data], decode) == Returns(map[][key := data]);
  }

  /** The responses `get_entries` finds in the cache for a list of links, in link order:
      links without an id, and ids not held, are skipped. */
  function CachedDocuments(links: seq<Url>, storage: map<string, Json>): (docs: seq<Json>)
  {
    if links == [] then []
    else
      var before := CachedDocuments(links[..|links| - 1], storage);
      var key := IdFromLink(links[|links| - 1]);
      if key.Some? && key.value in storage then before + [storage[key.value]] else before
  }

  /** `get_entries`. */
  method GetEntries(links: seq<Url>, cache: Cache) returns (jsons: seq<Json>)
    ensures jsons == CachedDocuments(links, cache.storage)
  {
    jsons := [];
    for i := 0 to |links|
      invariant jsons == CachedDocuments(links[..i], cache.storage)
    {
      assert links[..i + 1][..i] == links[..i];
      var key := IdFromLink(links[i]);
      if key.None? {
        continue;
      }
      var json := cache.TryToGet(key.value);
      if json.Some? {
        jsons := jsons + [json.value];
      }
    }
    assert links[..|links|] == links;
  }

  /** Looking the links up in two parts finds the first part's responses, then the second's. */
  lemma {:induction false} CachedDocumentsAppend(a: seq<Url>, b: seq<Url>, storage: map<string, Json>)
    ensures CachedDocuments(a + b, storage) == CachedDocuments(a, storage) + CachedDocuments(b, storage)
    decreases |b|
  {
    if b == [] {
      assert a + b == a;
    } else {
      var init := b[..|b| - 1];
      assert (a + b)[..|a + b| - 1] == a + init;
      CachedDocumentsAppend(a, init, storage);
    }
  }

  /** At most one response per link, and a response is found exactly when some link's id is held. */
  lemma {:induction false} CachedDocumentsFromLinks(links: seq<Url>, storage: map<string, Json>)
    ensures |CachedDocuments(links, storage)| <= |links|
    ensures forall doc :: doc in CachedDocuments(links, storage) <==>
      exists i :: 0 <= i < |links| && IdFromLink(links[i]).Some? && IdFromLink(links[i]).value in storage
        && storage[IdFromLink(links[i]).value] == doc
  {
    if links != [] {
      var init := links[..|links| - 1];
      CachedDocumentsFromLinks(init, storage);
      assert forall i :: 0 <= i < |init| ==> init[i] == links[i];
      forall doc | exists i :: (0 <= i < |links| && IdFromLink(links[i]).Some? && IdFromLink(links[i]).value in storage
                                && storage[IdFromLink(links[i]).value] == doc)
        ensures doc in CachedDocuments(links, storage)
      {
        var i :| 0 <= i < |links| && IdFromLink(links[i]).Some? && IdFromLink(links[i]).value in storage
          && storage[IdFromLink(links[i]).value] == doc;
        if i < |init| {
          assert init[i] == links[i];
        }
      }
    }
  }
}
