/** Concrete instances of the link helpers on the post link the program's own tests use,
    `https://www.reddit.com/r/BlackMetal/comments/5elhkp/spectral_lore_cosmic_significance/`. */
module Fixtures {
  import opened Wrappers
  import opened Strings
  import opened Urls
  import opened Links

  const Slug := "spectral_lore_cosmic_significance"

  const PostSegments: seq<string> := ["r", "BlackMetal", "comments", "5elhkp", Slug]

  /** The post link as the `url` crate parses it: the trailing `/` leaves an empty last segment. */
  const PostLink := Url("https", "www.reddit.com", Hierarchical(PostSegments + [""]), None, None)

  /** Its API form, `.../spectral_lore_cosmic_significance/.json`. */
  const ApiLink := Url("https", "www.reddit.com", Hierarchical(PostSegments + [JsonSuffix]), None, None)

  /** The post link is keyed by the post id. */
  lemma PostLinkId()
    ensures IdFromLink(PostLink) == Some("5elhkp")
  {
    assert PostSegments + [""] == ["r", "BlackMetal", "comments"] + ["5elhkp", Slug] + [""];
    IdOfPostLink(PostLink, ["r", "BlackMetal", "comments"], "5elhkp", Slug, [""]);
  }

  /** The file name the post is stored under, `5elhkp_spectral_lore_cosmic_significance.json`. */
  const PostFile := "5elhkp" + "_" + Slug + JsonSuffix

  lemma PostLinkFile(base: string)
    ensures FilenameFromLink(PostLink, base) == Returns(PathJoin(base, PostFile))
  {
    assert PostSegments + [""] == ["r", "BlackMetal", "comments"] + ["5elhkp", Slug] + [""];
    FilenameOfPostLink(PostLink, ["r", "BlackMetal", "comments"], "5elhkp", Slug, [""], base);
  }

  /** `filename_from_link(url, "/tmp")` is `/tmp/5elhkp_spectral_lore_cosmic_significance.json`. */
  lemma PostLinkFilename()
    ensures FilenameFromLink(PostLink, "/tmp") == Returns("/tmp" + "/" + PostFile)
  {
    PostLinkFile("/tmp");
    assert PostFile[0] == '5';
    assert "/tmp"[|"/tmp"| - 1] == 'p';
    PathJoinRelative("/tmp", PostFile);
  }

  /** The post link is rewritten to the API link, and the API link is kept as it is. */
  lemma PostLinkApi()
    ensures EnsureJsonLink(PostLink) == Some(ApiLink)
    ensures EnsureJsonLink(ApiLink) == Some(ApiLink)
  {
    EnsureJsonLinkTrailingSlash(PostLink, PostSegments);
    EndsWithAppend(AsStr(PostLink), JsonSuffix);
  }

  /** A bookmark entry `<prefix>"<link>"<rest>` whose prefix and link hold no `"` yields the
      link, whatever follows it: `<DT><A HREF="<link>" ADD_DATE="...">` becomes `<link>`. */
  lemma BookmarkEntryLink(prefix: string, link: string, rest: string)
    requires '"' !in prefix && '"' !in link
    ensures BookmarkCleanup(prefix + ['"'] + link + ['"'] + rest) == Some(link)
  {
    assert prefix + ['"'] + link + ['"'] + rest == prefix + ['"'] + (link + ['"'] + rest);
    SplitAfter(prefix, '"', link + ['"'] + rest);
    SplitAfter(link, '"', rest);
  }
}
