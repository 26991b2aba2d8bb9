/** The parts of `url::Url` the program relies on: its serialisation (`as_str`),
    its path segments (`path_segments`) and reference resolution (`join`). */
module Urls {
  import opened Wrappers
  import opened Strings

  /** A hierarchical path after the authority is the list `path_segments` yields
      (`/a/b/` is `["a", "b", ""]`); a cannot-be-a-base URL (`mailto:x`) has an opaque path. */
  datatype UrlPath = Hierarchical(segments: seq<string>) | Opaque(text: string)

  /** An absolute URL as the `url` crate stores it: `host` stands for the whole
      authority (user info, host and port). */
  datatype Url = Url(scheme: string, host: string, path: UrlPath, query: Option<string>, fragment: Option<string>)

  /** `Url::host_str`: a cannot-be-a-base URL, and one with an empty authority, has none. */
  function HostStr(u: Url): Option<string>
  {
    if u.path.Opaque? || u.host == "" then None else Some(u.host)
  }

  function PathText(p: UrlPath): string
  {
    match p
    case Hierarchical(segments) => "/" + Join(segments, '/')
    case Opaque(text) => text
  }

  function Component(marker: string, part: Option<string>): string
  {
    match part
    case None => ""
    case Some(text) => marker + text
  }

  /** `Url::as_str`: the serialisation of the URL. */
  function AsStr(u: Url): string
  {
    u.scheme + ":" + (if u.path.Hierarchical? then "//" + u.host else "")
      + PathText(u.path) + Component("?", u.query) + Component("#", u.fragment)
  }

  /** `base.join(name)` for a reference that is one plain path segment (no `/`, `?`, `#`,
      not `.` or `..`), following section 5.2 of RFC 3986: the base's path is merged by
      replacing everything after its last `/` with `name`, and the base's query and
      fragment are dropped. A cannot-be-a-base URL cannot be joined. */
  function JoinSegment(base: Url, name: string): (r: Option<Url>)
    ensures r.Some? <==> base.path.Hierarchical?
    ensures r.Some? ==> r.value.scheme == base.scheme && r.value.host == base.host
    ensures r.Some? ==> r.value.query.None? && r.value.fragment.None?
    ensures r.Some? ==> EndsWith(AsStr(r.value), name)
  {
    match base.path
    case Opaque(_) => None
    case Hierarchical(segments) =>
      var init := if segments == [] then [] else segments[..|segments| - 1];
      var joined := Url(base.scheme, base.host, Hierarchical(init + [name]), None, None);
      JoinSnoc(init, name, '/');
      assert AsStr(joined) == base.scheme + ":" + "//" + base.host + "/"
        + (if init == [] then name else Join(init, '/') + "/" + name);
      EndsWithAppend(base.scheme + ":" + "//" + base.host + "/" + (if init == [] then "" else Join(init, '/') + "/"), name);
      Some(joined)
  }

  const JsonSuffix := ".json"

  /** `ensure_json_link`: a link already ending in `.json` is kept, any other is
      joined with the relative reference `.json`. */
  function EnsureJsonLink(link: Url): (r: Option<Url>)
    ensures r.None? <==> link.path.Opaque? && !EndsWith(AsStr(link), JsonSuffix)
    ensures r.Some? ==> EndsWith(AsStr(r.value), JsonSuffix)
    ensures EndsWith(AsStr(link), JsonSuffix) ==> r == Some(link)
  {
    if EndsWith(AsStr(link), JsonSuffix) then Some(link) else JoinSegment(link, JsonSuffix)
  }

  /** Rewriting a link to its API form twice is the same as doing it once. */
  lemma EnsureJsonLinkIdempotent(link: Url)
    requires EnsureJsonLink(link).Some?
    ensures EnsureJsonLink(EnsureJsonLink(link).value) == EnsureJsonLink(link)
  {
  }

  lemma JoinTrailingEmpty(init: seq<string>)
    ensures Join(init + [""], '/') + JsonSuffix == Join(init + [JsonSuffix], '/')
    ensures "/" + Join(init + [""], '/') == "/" + (if init == [] then "" else Join(init, '/') + "/")
  {
    JoinSnoc(init, "", '/');
    JoinSnoc(init, JsonSuffix, '/');
  }

  /** The text of a hierarchical URL without query or fragment whose path ends in `/` ends in `/`. */
  lemma TrailingSlashText(link: Url, init: seq<string>)
    requires link.path == Hierarchical(init + [""])
    requires link.query.None? && link.fragment.None?
    ensures !EndsWith(AsStr(link), JsonSuffix)
  {
    JoinTrailingEmpty(init);
    var head := link.scheme + ":" + "//" + link.host;
    var tail := "/" + (if init == [] then "" else Join(init, '/') + "/");
    assert AsStr(link) == head + tail;
    assert tail[|tail| - 1] == '/';
    assert AsStr(link)[|AsStr(link)| - 1] == '/';
  }

  lemma TrailingSlashAppendText(link: Url, init: seq<string>)
    requires link.path == Hierarchical(init + [""])
    requires link.query.None? && link.fragment.None?
    ensures AsStr(Url(link.scheme, link.host, Hierarchical(init + [JsonSuffix]), None, None)) == AsStr(link) + JsonSuffix
  {
    JoinTrailingEmpty(init);
    var head := link.scheme + ":" + "//" + link.host + "/";
    assert AsStr(link) == head + Join(init + [""], '/');
  }

  /** For a link whose path ends in `/` (and that has no query or fragment) the API
      link is the link's own text with `.json` appended as a new last segment. */
  lemma {:induction false} EnsureJsonLinkTrailingSlash(link: Url, init: seq<string>)
    requires link.path == Hierarchical(init + [""])
    requires link.query.None? && link.fragment.None?
    ensures EnsureJsonLink(link) == Some(Url(link.scheme, link.host, Hierarchical(init + [JsonSuffix]), None, None))
    ensures AsStr(EnsureJsonLink(link).value) == AsStr(link) + JsonSuffix
  {
    TrailingSlashText(link, init);
    TrailingSlashAppendText(link, init);
    assert (init + [""])[..|init|] == init;
  }

  /** For a link whose last segment is not empty (and whose text does not already end
      in `.json`), joining `.json` REPLACES that last segment instead of appending to it:
      `.../comments/5elhkp/slug` becomes `.../comments/5elhkp/.json`. */
  lemma EnsureJsonLinkReplacesLastSegment(link: Url, init: seq<string>, last: string)
    requires link.path == Hierarchical(init + [last]) && last != ""
    requires !EndsWith(AsStr(link), JsonSuffix)
    ensures EnsureJsonLink(link) == Some(Url(link.scheme, link.host, Hierarchical(init + [JsonSuffix]), None, None))
  {
    assert (init + [last])[..|init|] == init;
  }
}
