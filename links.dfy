/** Link keying (`id_from_link`, `filename_from_link`) and reading links from a
    text or bookmark file (`bookmark_cleanup`, `parse_song_links_from_file`). */
module Links {
  import opened Wrappers
  import opened Strings
  import opened Urls

  /** The path segments `retain(|elem| elem.len() > 1)` keeps, in order. Segments are
      percent-encoded ASCII, so their length in characters is their length in bytes. */
  function Qualifying(segments: seq<string>): (kept: seq<string>)
    ensures |kept| <= |segments|
    ensures forall i :: 0 <= i < |kept| ==> |kept[i]| > 1 && kept[i] in segments
  {
    if segments == [] then []
    else (if |segments[0]| > 1 then [segments[0]] else []) + Qualifying(segments[1..])
  }

  lemma {:induction false} QualifyingAppend(a: seq<string>, b: seq<string>)
    ensures Qualifying(a + b) == Qualifying(a) + Qualifying(b)
  {
    if a == [] {
      assert a + b == b;
    } else {
      assert (a + b)[1..] == a[1..] + b;
      QualifyingAppend(a[1..], b);
    }
  }

  lemma {:induction false} QualifyingShort(segments: seq<string>)
    requires forall i :: 0 <= i < |segments| ==> |segments[i]| <= 1
    ensures Qualifying(segments) == []
  {
    if segments != [] {
      QualifyingShort(segments[1..]);
    }
  }

  /** One more segment at the end is kept exactly when it is longer than one character. */
  lemma QualifyingSnoc(segments: seq<string>)
    requires segments != []
    ensures var last := segments[|segments| - 1];
      Qualifying(segments) == Qualifying(segments[..|segments| - 1]) + if |last| > 1 then [last] else []
  {
    var n := |segments|;
    var init, last := segments[..n - 1], segments[n - 1];
    FrontLast(segments);
    QualifyingAppend(init, [last]);
    assert [last][1..] == [];
    assert Qualifying([last]) == (if |last| > 1 then [last] else []) + Qualifying([]);
  }

  /** Position `k` holds the last segment longer than one character. */
  predicate LastLong(segments: seq<string>, k: nat)
  {
    k < |segments| && |segments[k]| > 1 && forall j :: k < j < |segments| ==> |segments[j]| <= 1
  }

  /** Positions `i < k` hold the last two segments longer than one character: every
      other segment after position `i` is at most one character long. */
  predicate LastTwoLong(segments: seq<string>, i: nat, k: nat)
  {
    && i < k < |segments| && |segments[i]| > 1 && |segments[k]| > 1
    && forall j :: i < j < |segments| && j != k ==> |segments[j]| <= 1
  }

  /** A short segment at the end keeps the last long ones where they were. */
  lemma ShortSnoc(segments: seq<string>, i: nat, k: nat)
    requires segments != [] && |segments[|segments| - 1]| <= 1
    ensures LastLong(segments[..|segments| - 1], k) ==> LastLong(segments, k)
    ensures LastTwoLong(segments[..|segments| - 1], i, k) ==> LastTwoLong(segments, i, k)
  {
  }

  /** A long segment at the end is the last long one, and the one before it the second-to-last. */
  lemma LongSnoc(segments: seq<string>, i: nat)
    requires segments != [] && |segments[|segments| - 1]| > 1
    ensures LastLong(segments, |segments| - 1)
    ensures LastLong(segments[..|segments| - 1], i) ==> LastTwoLong(segments, i, |segments| - 1)
  {
  }

  /** The last kept segment is the segment at position `k`, after which only short
      segments follow. */
  lemma {:induction false} QualifyingLast(segments: seq<string>) returns (k: nat)
    requires Qualifying(segments) != []
    ensures LastLong(segments, k) && segments[k] == Qualifying(segments)[|Qualifying(segments)| - 1]
    decreases |segments|
  {
    var n := |segments|;
    QualifyingSnoc(segments);
    if |segments[n - 1]| > 1 {
      k := n - 1;
      LongSnoc(segments, 0);
    } else {
      k := QualifyingLast(segments[..n - 1]);
      ShortSnoc(segments, 0, k);
    }
  }

  /** The last two kept segments are the segments at positions `i < k`, and every other
      segment after position `i` is at most one character long. */
  lemma {:induction false} QualifyingLastTwo(segments: seq<string>) returns (i: nat, k: nat)
    requires |Qualifying(segments)| >= 2
    ensures LastTwoLong(segments, i, k)
    ensures segments[i] == Qualifying(segments)[|Qualifying(segments)| - 2]
    ensures segments[k] == Qualifying(segments)[|Qualifying(segments)| - 1]
    decreases |segments|
  {
    var n := |segments|;
    var init := segments[..n - 1];
    QualifyingSnoc(segments);
    var kept, front := Qualifying(segments), Qualifying(init);
    if |segments[n - 1]| > 1 {
      i := QualifyingLast(init);
      k := n - 1;
      LongSnoc(segments, i);
      assert kept == front + [segments[n - 1]];
      assert kept[|kept| - 2] == front[|front| - 1] == init[i] == segments[i];
    } else {
      i, k := QualifyingLastTwo(init);
      ShortSnoc(segments, i, k);
      assert kept == front;
      assert init[i] == segments[i] && init[k] == segments[k];
    }
  }

  /** `id_from_link`: the second-to-last path segment longer than one character. */
  function IdFromLink(link: Url): (id: Option<string>)
    ensures id.Some? <==> link.path.Hierarchical? && |Qualifying(link.path.segments)| >= 2
    ensures id.Some? ==> |id.value| > 1 && id.value in link.path.segments
  {
    match link.path
    case Opaque(_) => None
    case Hierarchical(segments) =>
      var kept := Qualifying(segments);
      if |kept| >= 2 then Some(kept[|kept| - 2]) else None
  }

  /** The segments a post link `.../<id>/<slug>` keeps when only segments of at most one
      character (the empty one a trailing `/` leaves, a stray `r`) follow the slug. */
  lemma {:induction false} QualifyingPostPath(before: seq<string>, id: string, slug: string, after: seq<string>)
    requires |id| > 1 && |slug| > 1
    requires forall i :: 0 <= i < |after| ==> |after[i]| <= 1
    ensures Qualifying(before + [id, slug] + after) == Qualifying(before) + [id, slug]
  {
    var pair := [id, slug];
    assert Qualifying(pair) == pair by {
      assert pair[1..] == [slug];
      assert [slug][1..] == [];
    }
    QualifyingAppend(before, pair);
    QualifyingAppend(before + pair, after);
    QualifyingShort(after);
    assert Qualifying(before) + pair + [] == Qualifying(before) + pair;
  }

  /** Such a post link is keyed by `id`. */
  lemma IdOfPostLink(link: Url, before: seq<string>, id: string, slug: string, after: seq<string>)
    requires link.path == Hierarchical(before + [id, slug] + after)
    requires |id| > 1 && |slug| > 1
    requires forall i :: 0 <= i < |after| ==> |after[i]| <= 1
    ensures IdFromLink(link) == Some(id)
  {
    QualifyingPostPath(before, id, slug, after);
    var kept := Qualifying(before) + [id, slug];
    assert kept[|kept| - 2] == id;
  }

  /** The file such a post link is stored in: `<base>/<id>_<slug>.json`, under the same
      id `IdFromLink` gives. */
  lemma FilenameOfPostLink(link: Url, before: seq<string>, id: string, slug: string, after: seq<string>, base: string)
    requires link.path == Hierarchical(before + [id, slug] + after)
    requires |id| > 1 && |slug| > 1
    requires forall i :: 0 <= i < |after| ==> |after[i]| <= 1
    ensures FilenameFromLink(link, base) == Returns(PathJoin(base, id + "_" + slug + JsonSuffix))
  {
    QualifyingPostPath(before, id, slug, after);
    var kept := Qualifying(before) + [id, slug];
    assert kept[|kept| - 2] == id && kept[|kept| - 1] == slug;
  }

  /** A segment of at most one character never changes the key, wherever it stands: the
      trailing `/` form and the bare form of a link have the same id, and so do
      `/<id>/x/<slug>` and `/<id>/<slug>`. */
  lemma QualifyingIgnoresShort(before: seq<string>, short: string, after: seq<string>)
    requires |short| <= 1
    ensures Qualifying(before + [short] + after) == Qualifying(before + after)
  {
    assert before + [short] + after == before + ([short] + after);
    assert Qualifying([short] + after) == Qualifying(after) by {
      assert ([short] + after)[1..] == after;
    }
    QualifyingAppend(before, [short] + after);
    QualifyingAppend(before, after);
  }

  lemma {:induction false} IdIgnoresShortSegment(s: string, q: Option<string>, f: Option<string>, host: string,
                                                 before: seq<string>, short: string, after: seq<string>)
    requires |short| <= 1
    ensures IdFromLink(Url(s, host, Hierarchical(before + [short] + after), q, f))
         == IdFromLink(Url(s, host, Hierarchical(before + after), q, f))
  {
    var with, without := before + [short] + after, before + after;
    QualifyingIgnoresShort(before, short, after);
    var kept := Qualifying(without);
    assert Qualifying(with) == kept;
    assert IdFromLink(Url(s, host, Hierarchical(with), q, f)) == if |kept| >= 2 then Some(kept[|kept| - 2]) else None;
  }

  /** `Path::join`: an absolute `name` replaces the base; otherwise a separator is
      inserted unless the base is empty or already ends in one. */
  function PathJoin(base: string, name: string): (p: string)
    ensures EndsWith(p, name)
  {
    if |name| > 0 && name[0] == '/' then (assert name[|name| - |name|..] == name; name)
    else if base == "" then (assert name[|name| - |name|..] == name; name)
    else if base[|base| - 1] == '/' then (EndsWithAppend(base, name); base + name)
    else (EndsWithAppend(base + "/", name); base + "/" + name)
  }

  /** A relative name under a base that does not end in `/` is joined with one `/`. */
  lemma PathJoinRelative(base: string, name: string)
    requires base != "" && base[|base| - 1] != '/'
    requires name != [] && name[0] != '/'
    ensures PathJoin(base, name) == base + "/" + name
  {
  }

  /** `filename_from_link`: `<base>/<id>_<slug>.json`, where `id` and `slug` are the last
      two qualifying segments; a link without path segments or with fewer than two
      qualifying ones trips the `expect` or the `assert!`. */
  function FilenameFromLink(link: Url, base: string): (r: Run<string>)
    ensures r.Returns? <==> IdFromLink(link).Some?
    ensures r.Returns? ==>
      (exists slug :: |slug| > 1 && r.value == PathJoin(base, IdFromLink(link).value + "_" + slug + JsonSuffix))
  {
    match link.path
    case Opaque(_) => Panics("could not extract path segments")
    case Hierarchical(segments) =>
      var kept := Qualifying(segments);
      if |kept| < 2 then Panics("assertion failed: path_vec.len() >= 2")
      else
        var id, slug := kept[|kept| - 2], kept[|kept| - 1];
        assert IdFromLink(link).value == id && |slug| > 1;
        Returns(PathJoin(base, id + "_" + slug + JsonSuffix))
  }

  /** `link` is stored in `base/<id>_<slug>.json` where `id` and `slug` are the path
      segments at positions `i < k`, the last two longer than one character, and `id` is
      the key `IdFromLink` gives. */
  predicate NamedBySegments(link: Url, base: string, i: nat, k: nat)
  {
    && link.path.Hierarchical?
    && LastTwoLong(link.path.segments, i, k)
    && IdFromLink(link) == Some(link.path.segments[i])
    && FilenameFromLink(link, base) == Returns(PathJoin(base, link.path.segments[i] + "_" + link.path.segments[k] + JsonSuffix))
  }

  /** The file of any link with an id: `id` and `slug` are the last two segments longer
      than one character, so only shorter ones follow `id`, apart from `slug`. */
  lemma FilenameFromLinkSegments(link: Url, base: string)
    requires FilenameFromLink(link, base).Returns?
    ensures exists i: nat, k: nat :: NamedBySegments(link, base, i, k)
  {
    FilenameOfKept(link, base);
    var segments := link.path.segments;
    var i, k := QualifyingLastTwo(segments);
    var kept := Qualifying(segments);
    var id, slug := kept[|kept| - 2], kept[|kept| - 1];
    assert segments[i] == id && segments[k] == slug;
    assert IdFromLink(link) == Some(id);
    assert FilenameFromLink(link, base) == Returns(PathJoin(base, id + "_" + slug + JsonSuffix));
    assert NamedBySegments(link, base, i, k);
  }

  /** The file of a link with an id is named after its last two kept segments. */
  lemma FilenameOfKept(link: Url, base: string)
    requires FilenameFromLink(link, base).Returns?
    ensures link.path.Hierarchical? && |Qualifying(link.path.segments)| >= 2
    ensures var kept := Qualifying(link.path.segments);
      IdFromLink(link) == Some(kept[|kept| - 2])
    ensures var kept := Qualifying(link.path.segments);
      FilenameFromLink(link, base) == Returns(PathJoin(base, kept[|kept| - 2] + "_" + kept[|kept| - 1] + JsonSuffix))
  {
  }

  /** `bookmark_cleanup`: `line.split('"').nth(1)`. */
  function BookmarkCleanup(line: string): Option<string>
  {
    var pieces := Split(line, '"');
    if |pieces| >= 2 then Some(pieces[1]) else None
  }

  /** The identity preprocessing `parse_song_links_from_plain` passes. */
  function PlainLine(line: string): Option<string>
  {
    Some(line)
  }

  /** `bookmark_cleanup` yields the text after the first `"` up to the next `"` or, when
      there is none, to the end of the line; a line without `"` yields nothing. */
  lemma BookmarkCleanupQuoted(line: string)
    ensures BookmarkCleanup(line).None? <==> '"' !in line
    ensures BookmarkCleanup(line).Some? ==>
      var i := IndexOf(line, '"');
      var t := BookmarkCleanup(line).value;
      && i + 1 + |t| <= |line|
      && t == line[i + 1..i + 1 + |t|]
      && '"' !in t
      && (i + 1 + |t| == |line| || line[i + 1 + |t|] == '"')
  {
    if '"' in line {
      var i := IndexOf(line, '"');
      var rest := line[i + 1..];
      assert Split(line, '"') == [line[..i]] + Split(rest, '"');
      if '"' in rest {
        var j := IndexOf(rest, '"');
        assert Split(rest, '"')[0] == rest[..j];
        assert rest[..j] == line[i + 1..i + 1 + j];
      } else {
        assert Split(rest, '"') == [rest];
      }
    }
  }

  /** What one line of the file contributes: a line that could be read, whose
      preprocessing keeps something and whose text parses as a URL. */
  function LineLink(line: Option<string>, preprocess: string -> Option<string>, parseUrl: string -> Option<Url>): Option<Url>
  {
    match line
    case None => None
    case Some(text) =>
      match preprocess(text)
      case None => None
      case Some(prepared) => parseUrl(prepared)
  }

  /** The links of a file, in line order (a line is `None` when the reader fails on it). */
  function SongLinks(lines: seq<Option<string>>, preprocess: string -> Option<string>, parseUrl: string -> Option<Url>): seq<Url>
  {
    if lines == [] then []
    else
      var previous := SongLinks(lines[..|lines| - 1], preprocess, parseUrl);
      match LineLink(lines[|lines| - 1], preprocess, parseUrl)
      case None => previous
      case Some(u) => previous + [u]
  }

  /** `parse_song_links_from_file`: the loop over the lines of the file. */
  method ParseSongLinksFromFile(lines: seq<Option<string>>, preprocess: string -> Option<string>, parseUrl: string -> Option<Url>)
    returns (res: seq<Url>)
    ensures res == SongLinks(lines, preprocess, parseUrl)
  {
    res := [];
    for i := 0 to |lines|
      invariant res == SongLinks(lines[..i], preprocess, parseUrl)
    {
      assert lines[..i + 1][..i] == lines[..i];
      var line := lines[i];
      if line.None? {
        continue;  // buf reader error
      }
      var preprocessed := preprocess(line.value);
      if preprocessed.None? {
        continue;
      }
      var url := parseUrl(preprocessed.value);
      if url.Some? {
        res := res + [url.value];
      }
    }
    assert lines[..|lines|] == lines;
  }

  /** Reading a file in two parts gives the links of the first part followed by
      those of the second: the order of the lines is kept. */
  lemma {:induction false} SongLinksAppend(a: seq<Option<string>>, b: seq<Option<string>>, preprocess: string -> Option<string>, parseUrl: string -> Option<Url>)
    ensures SongLinks(a + b, preprocess, parseUrl) == SongLinks(a, preprocess, parseUrl) + SongLinks(b, preprocess, parseUrl)
    decreases |b|
  {
    if b == [] {
      assert a + b == a;
    } else {
      assert (a + b)[..|a + b| - 1] == a + b[..|b| - 1];
      SongLinksAppend(a, b[..|b| - 1], preprocess, parseUrl);
    }
  }

  /** `parse_song_links_from_plain`: with the identity preprocessing, a URL is among the
      links exactly when some line could be read and parses to it. */
  lemma PlainLinks(lines: seq<Option<string>>, parseUrl: string -> Option<Url>)
    ensures forall u :: (u in SongLinks(lines, PlainLine, parseUrl)
      <==> exists i :: 0 <= i < |lines| && lines[i].Some? && parseUrl(lines[i].value) == Some(u))
  {
    SongLinksFromLines(lines, PlainLine, parseUrl);
    assert forall i :: 0 <= i < |lines| ==>
      LineLink(lines[i], PlainLine, parseUrl) == if lines[i].Some? then parseUrl(lines[i].value) else None;
  }

  /** At most one link per line, and a URL is among the links exactly when some line yields it. */
  lemma {:induction false} SongLinksFromLines(lines: seq<Option<string>>, preprocess: string -> Option<string>, parseUrl: string -> Option<Url>)
    ensures |SongLinks(lines, preprocess, parseUrl)| <= |lines|
    ensures forall u :: (u in SongLinks(lines, preprocess, parseUrl)
      <==> exists i :: 0 <= i < |lines| && LineLink(lines[i], preprocess, parseUrl) == Some(u))
  {
    if lines != [] {
      var init := lines[..|lines| - 1];
      SongLinksFromLines(init, preprocess, parseUrl);
      forall u | (exists i :: 0 <= i < |lines| && LineLink(lines[i], preprocess, parseUrl) == Some(u))
        ensures u in SongLinks(lines, preprocess, parseUrl)
      {
        var i :| 0 <= i < |lines| && LineLink(lines[i], preprocess, parseUrl) == Some(u);
        if i < |lines| - 1 {
          assert init[i] == lines[i];
        }
      }
    }
  }
}
