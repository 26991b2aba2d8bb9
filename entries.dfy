/** `parse_reddit_json`: decoding one post of the site's read API into a `RedditEntry`. */
module Entries {
  import opened Wrappers
  import opened Strings
  import opened Urls
  import opened JsonValues

  /** The raw JSON text of one API response (the source's `type Json = String`). */
  type Json = string

  const RedditOrigin := "https://www.reddit.com"

  /** The reference tokens of the pointer to a post's fields in an API response, the
      data of the first listing's first child. */
  const PostPath: seq<string> := ["0", "data", "children", "0", "data"]

  /** The JSON pointer `/0/data/children/0/data`: the tokens of `PostPath`, each after a `/`. */
  const DataPointer: string := Join([""] + PostPath, '/')

  datatype RedditEntry = RedditEntry(
    url: Option<Url>,
    redditId: Option<string>,
    title: Option<string>,
    subreddit: Option<string>,
    votes: Option<u64>,
    comments: Option<u64>,
    selfLink: Option<Url>)

  /** The source's `value_to_string` closure: `val.map(|x| x.as_str().unwrap())`, so a
      member that is present but not a string (a number, `null`, ...) panics. */
  function ValueToString(val: Option<Value>): (r: Run<Option<string>>)
    ensures r.Panics? <==> val.Some? && !val.value.String?
    ensures r.Returns? ==> (r.value.Some? <==> val.Some?)
    ensures r.Returns? && r.value.Some? ==> val == Some(Value.String(r.value.value))
  {
    match val
    case None => Returns(None)
    case Some(v) => if v.String? then Returns(Some(v.s)) else Panics("called `Option::unwrap()` on a `None` value")
  }

  /** A member of `post` that is there but would make `value_to_string` panic. */
  predicate Mistyped(post: Value, key: string)
  {
    Get(post, key).Some? && !Get(post, key).value.String?
  }

  /** The decoding of the fields of one post (`deref` in the source). */
  function DecodePost(post: Value, parseUrl: string -> Option<Url>): (r: Run<RedditEntry>)
    // `url.expect(..)` is applied to the Option: an absent `url` panics, and so does
    // any of the string fields when it is present with another type.
    ensures r.Panics? <==>
      || Get(post, "url").None?
      || Mistyped(post, "url") || Mistyped(post, "permalink")
      || Mistyped(post, "id") || Mistyped(post, "title") || Mistyped(post, "subreddit")
    // A `url` string that does not parse is only dropped.
    ensures r.Returns? ==> r.value.url == parseUrl(Get(post, "url").value.s)
    ensures r.Returns? ==> (r.value.redditId.Some? <==> Get(post, "id").Some?)
    ensures r.Returns? && r.value.redditId.Some? ==> Get(post, "id") == Some(Value.String(r.value.redditId.value))
    ensures r.Returns? ==> (r.value.title.Some? <==> Get(post, "title").Some?)
    ensures r.Returns? && r.value.title.Some? ==> Get(post, "title") == Some(Value.String(r.value.title.value))
    ensures r.Returns? ==> (r.value.subreddit.Some? <==> Get(post, "subreddit").Some?)
    ensures r.Returns? && r.value.subreddit.Some? ==> Get(post, "subreddit") == Some(Value.String(r.value.subreddit.value))
    // Counts are tolerant: absent or not a u64 gives None, never a panic.
    ensures r.Returns? ==> (r.value.votes.Some? <==> Get(post, "score").Some? && AsU64(Get(post, "score").value).Some?)
    ensures r.Returns? && r.value.votes.Some? ==> Get(post, "score") == Some(Number(PosInt(r.value.votes.value)))
    ensures r.Returns? ==> (r.value.comments.Some? <==> Get(post, "num_comments").Some? && AsU64(Get(post, "num_comments").value).Some?)
    ensures r.Returns? && r.value.comments.Some? ==> Get(post, "num_comments") == Some(Number(PosInt(r.value.comments.value)))
    // The permalink is a path on the site's origin; one that does not parse is only dropped.
    ensures r.Returns? ==>
      r.value.selfLink == (if Get(post, "permalink").Some? then parseUrl(RedditOrigin + Get(post, "permalink").value.s) else None)
  {
    var urlString :- ValueToString(Get(post, "url"));
    if urlString.None? then Panics("could not parse json url")
    else
      var url := parseUrl(urlString.value);
      var relativePermalink :- ValueToString(Get(post, "permalink"));
      var permalink := match relativePermalink
        case Some(relative) => parseUrl(RedditOrigin + relative)
        case None => None;
      var redditId :- ValueToString(Get(post, "id"));
      var title :- ValueToString(Get(post, "title"));
      var subreddit :- ValueToString(Get(post, "subreddit"));
      var score := Get(post, "score");
      var numComments := Get(post, "num_comments");
      Returns(RedditEntry(
        url, redditId, title, subreddit,
        if score.Some? then AsU64(score.value) else None,
        if numComments.Some? then AsU64(numComments.value) else None,
        permalink))
  }

  /** A parsed API response: no entry when the data pointer finds nothing. */
  function DecodeDocument(doc: Value, parseUrl: string -> Option<Url>): (r: Run<Option<RedditEntry>>)
    ensures Pointer(doc, DataPointer).None? ==> r == Returns(None)
    ensures Pointer(doc, DataPointer).Some? ==>
      r == (var post := DecodePost(Pointer(doc, DataPointer).value, parseUrl);
            if post.Panics? then Panics(post.message) else Returns(Some(post.value)))
  {
    match Pointer(doc, DataPointer)
    case None => Returns(None)
    case Some(post) =>
      var entry :- DecodePost(post, parseUrl);
      Returns(Some(entry))
  }

  /** `parse_reddit_json`: text that is not JSON gives no entry. */
  function ParseRedditJson(json: Json, parseJson: string -> Option<Value>, parseUrl: string -> Option<Url>): (r: Run<Option<RedditEntry>>)
    ensures parseJson(json).None? ==> r == Returns(None)
    ensures parseJson(json).Some? ==> r == DecodeDocument(parseJson(json).value, parseUrl)
  {
    match parseJson(json)
    case None => Returns(None)
    case Some(doc) => DecodeDocument(doc, parseUrl)
  }

  /** The shape of an API response for one post: a listing whose first child carries
      `post`, possibly followed by other children and other listings. */
  function Response(post: map<string, Value>, otherChildren: seq<Value>, otherListings: seq<Value>): Value
  {
    var child := Object(map["data" := Object(post)]);
    var listing := Object(map["data" := Object(map["children" := Array([child] + otherChildren)])]);
    Array([listing] + otherListings)
  }

  /** Following the data pointer is following the tokens of `PostPath`. */
  lemma DataPointerNavigates(v: Value)
    ensures Pointer(v, DataPointer) == Navigate(v, PostPath)
  {
    var pieces := [""] + PostPath;
    assert forall i :: 0 <= i < |pieces| ==> '/' !in pieces[i] && '~' !in pieces[i];
    PointerOfJoin(v, pieces);
    assert pieces[1..] == PostPath;
  }

  /** The path of `PostPath` through a response built around `post`, with the tokens held
      abstract: two array indices that read as 0 and three member names. */
  lemma {:induction false} NavigateListing(post: map<string, Value>, otherChildren: seq<Value>, otherListings: seq<Value>, t: seq<string>)
    requires |t| == 5 && ParseIndex(t[0]) == Some(0) && ParseIndex(t[3]) == Some(0) && t[1] == t[4]
    ensures var child := Object(map[t[4] := Object(post)]);
      var listing := Object(map[t[1] := Object(map[t[2] := Array([child] + otherChildren)])]);
      Navigate(Array([listing] + otherListings), t) == Some(Object(post))
  {
    var child := Object(map[t[4] := Object(post)]);
    var children := Array([child] + otherChildren);
    var listingData := Object(map[t[2] := children]);
    var listing := Object(map[t[1] := listingData]);
    var doc := Array([listing] + otherListings);
    NavigateThrough(doc, t, listing);
    NavigateThrough(listing, t[1..], listingData);
    NavigateThrough(listingData, t[2..], children);
    NavigateThrough(children, t[3..], child);
    NavigateThrough(child, t[4..], Object(post));
    assert t[4..][1..] == [];
  }

  /** Only the first listing's first child is consulted. */
  lemma ResponsePointer(post: map<string, Value>, otherChildren: seq<Value>, otherListings: seq<Value>)
    ensures Pointer(Response(post, otherChildren, otherListings), DataPointer) == Some(Object(post))
  {
    DataPointerNavigates(Response(post, otherChildren, otherListings));
    ParseIndexZero();
    NavigateListing(post, otherChildren, otherListings, PostPath);
  }

  /** A well-formed response whose post carries every field as the API sends it decodes
      to exactly those fields, with the permalink resolved against the site's origin. */
  lemma ResponseDecodes(post: map<string, Value>, otherChildren: seq<Value>, otherListings: seq<Value>,
                        json: Json, parseJson: string -> Option<Value>, parseUrl: string -> Option<Url>,
                        url: string, id: string, title: string, subreddit: string, score: u64, numComments: u64, permalink: string)
    requires parseJson(json) == Some(Response(post, otherChildren, otherListings))
    requires "url" in post && post["url"] == Value.String(url)
    requires "id" in post && post["id"] == Value.String(id)
    requires "title" in post && post["title"] == Value.String(title)
    requires "subreddit" in post && post["subreddit"] == Value.String(subreddit)
    requires "score" in post && post["score"] == Number(PosInt(score))
    requires "num_comments" in post && post["num_comments"] == Number(PosInt(numComments))
    requires "permalink" in post && post["permalink"] == Value.String(permalink)
    ensures ParseRedditJson(json, parseJson, parseUrl) == Returns(Some(RedditEntry(
      parseUrl(url), Some(id), Some(title), Some(subreddit), Some(score), Some(numComments),
      parseUrl(RedditOrigin + permalink))))
  {
    ResponsePointer(post, otherChildren, otherListings);
  }
}
