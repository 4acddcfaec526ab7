/** The Publisher (publisher.py): building WordPress posts field by field,
    the category lookup, and the MIME guess; the XML-RPC client is an oracle. */
module Publishing {
  import opened Common
  import opened Text

  const DefaultStatus := "publish"
  const OctetStream := "application/octet-stream"

  /** A WordPress post object; a field is `None` while it has not been assigned
      and is then left out of the request. */
  class WordPressPost {
    var id: Option<string>
    var title: Option<string>
    var content: Option<string>
    var postStatus: Option<string>
    var tags: Option<seq<string>>
    var categories: Option<seq<string>>

    constructor (id: Option<string>)
      ensures this.id == id
      ensures title.None? && content.None? && postStatus.None? && tags.None? && categories.None?
    {
      this.id := id;
      title, content, postStatus := None, None, None;
      tags, categories := None, None;
    }
  }

  /** `publish_post`: title, content and status are always set, tags and
      categories only when their list is non-empty (an absent list is the
      empty list); the post id comes back unless the call raises. */
  method PublishPost(title: string, contentMd: string, tags: seq<string>, categories: seq<string>,
                     status: string, reply: Attempt<string>)
    returns (post: WordPressPost, postId: Option<string>)
    ensures fresh(post)
    ensures post.id.None? && post.title == Some(title) && post.content == Some(contentMd)
    ensures post.postStatus == Some(status)
    ensures post.tags == (if tags != [] then Some(tags) else None)
    ensures post.categories == (if categories != [] then Some(categories) else None)
    ensures postId == (if reply.Returned? then Some(reply.value) else None)
  {
    post := new WordPressPost(None);
    post.title := Some(title);
    post.content := Some(contentMd);
    post.postStatus := Some(status);
    if tags != [] {
      post.tags := Some(tags);
    }
    if categories != [] {
      post.categories := Some(categories);
    }
    match reply {
      case Returned(id) => postId := Some(id);
      case Raised => postId := None;
    }
  }

  /** `update_post`: a post carrying only the id, then each field assigned
      only when its argument is truthy (an absent argument is "" or []);
      true unless the edit call raises. */
  method UpdatePost(postId: string, title: string, contentMd: string, tags: seq<string>,
                    categories: seq<string>, status: string, callRaised: bool)
    returns (post: WordPressPost, ok: bool)
    ensures fresh(post)
    ensures post.id == Some(postId)
    ensures post.title == (if title != "" then Some(title) else None)
    ensures post.content == (if contentMd != "" then Some(contentMd) else None)
    ensures post.tags == (if tags != [] then Some(tags) else None)
    ensures post.categories == (if categories != [] then Some(categories) else None)
    ensures post.postStatus == (if status != "" then Some(status) else None)
    ensures ok == !callRaised
  {
    post := new WordPressPost(Some(postId));
    if title != "" { post.title := Some(title); }
    if contentMd != "" { post.content := Some(contentMd); }
    if tags != [] { post.tags := Some(tags); }
    if categories != [] { post.categories := Some(categories); }
    if status != "" { post.postStatus := Some(status); }
    ok := !callRaised;
  }

  /** A taxonomy term as the term listing returns it. */
  datatype Term = Term(name: string)

  /** `ensure_category_exists`: looks the name up in the category listing and
      creates the term only when it is absent. `created` says whether the
      create call was made; any raised call makes the answer false. */
  method EnsureCategoryExists(categoryName: string, listing: Attempt<seq<Term>>, createRaised: bool)
    returns (ok: bool, created: bool)
    ensures listing.Raised? ==> !ok && !created
    ensures listing.Returned? && (exists k :: 0 <= k < |listing.value| && listing.value[k].name == categoryName)
      ==> ok && !created
    ensures listing.Returned? && (forall k :: 0 <= k < |listing.value| ==> listing.value[k].name != categoryName)
      ==> created && ok == !createRaised
  {
    if listing.Raised? {
      return false, false;
    }
    var categories := listing.value;
    for i := 0 to |categories|
      invariant forall k :: 0 <= k < i ==> categories[k].name != categoryName
    {
      if categories[i].name == categoryName {
        return true, false;
      }
    }
    created := true;
    ok := !createRaised;
  }

  /** Some character of `p[lo..hi]` is not a dot. */
  predicate HasNonDot(p: string, lo: int, hi: int) {
    exists k :: lo <= k < hi && 0 <= k < |p| && p[k] != '.'
  }

  /** Python's `os.path.splitext` on POSIX paths: the extension runs from the
      last dot of the last path component to the end, unless that dot is
      preceded in the component only by dots. */
  function SplitExt(p: string): (r: (string, string))
    ensures r.0 + r.1 == p
    ensures r.1 == "" || (r.1[0] == '.' && '.' !in r.1[1..] && '/' !in r.1)
    // the dot that starts an extension has a non-dot before it in its component
    ensures r.1 != "" ==> HasNonDot(p, RFind(p, '/') + 1, |r.0|)
    // no extension: every dot of the last component has only dots before it there
    ensures r.1 == "" ==>
      forall k :: RFind(p, '/') < k < |p| && p[k] == '.' ==> !HasNonDot(p, RFind(p, '/') + 1, k)
  {
    var sepIndex := RFind(p, '/');
    var dotIndex := RFind(p, '.');
    if dotIndex > sepIndex && HasNonDot(p, sepIndex + 1, dotIndex) then
      assert p[..dotIndex] + p[dotIndex..] == p;
      (p[..dotIndex], p[dotIndex..])
    else
      (p, "")
  }

  /** `_guess_mime_type`: the MIME type for the lower-cased extension. */
  function GuessMimeType(filePath: string): (mime: string)
    ensures var ext := Lower(SplitExt(filePath).1);
      && (mime == "image/png" <==> ext == ".png")
      && (mime == "image/jpeg" <==> ext == ".jpg" || ext == ".jpeg")
      && (mime == "image/gif" <==> ext == ".gif")
      && (mime == "application/pdf" <==> ext == ".pdf")
      && (mime == OctetStream <==> ext !in {".png", ".jpg", ".jpeg", ".gif", ".pdf"})
  {
    var ext := Lower(SplitExt(filePath).1);
    if ext == ".png" then "image/png"
    else if ext == ".jpg" || ext == ".jpeg" then "image/jpeg"
    else if ext == ".gif" then "image/gif"
    else if ext == ".pdf" then "application/pdf"
    else OctetStream
  }

  /** Lower-casing leaves the positions of '/' and '.' where they were. */
  lemma {:induction false} RFindLower(s: string, c: char)
    requires c == '/' || c == '.'
    ensures RFind(Lower(s), c) == RFind(s, c)
    decreases |s|
  {
    if s != [] {
      var s' := s[..|s| - 1];
      assert Lower(s)[..|s| - 1] == Lower(s');
      RFindLower(s', c);
    }
  }

  /** Lower-casing changes no character into or out of a dot. */
  lemma HasNonDotLower(p: string, lo: int, hi: int)
    ensures HasNonDot(Lower(p), lo, hi) == HasNonDot(p, lo, hi)
  {
    if HasNonDot(p, lo, hi) {
      var k :| lo <= k < hi && 0 <= k < |p| && p[k] != '.';
      assert Lower(p)[k] != '.';
    }
    if HasNonDot(Lower(p), lo, hi) {
      var k :| lo <= k < hi && 0 <= k < |p| && Lower(p)[k] != '.';
      assert p[k] != '.';
    }
  }

  /** The extension of a lower-cased path is the lower-cased extension. */
  lemma SplitExtLower(p: string)
    ensures SplitExt(Lower(p)).1 == Lower(SplitExt(p).1)
  {
    RFindLower(p, '/');
    RFindLower(p, '.');
    var sepIndex, dotIndex := RFind(p, '/'), RFind(p, '.');
    HasNonDotLower(p, sepIndex + 1, dotIndex);
    if dotIndex > sepIndex && HasNonDot(p, sepIndex + 1, dotIndex) {
      assert Lower(p[dotIndex..]) == Lower(p)[dotIndex..];
    }
  }

  /** Lower-casing twice is lower-casing once. */
  lemma LowerTwice(s: string)
    ensures Lower(Lower(s)) == Lower(s)
  {
  }

  /** The MIME guess ignores the case of the path. */
  lemma GuessMimeTypeIgnoresCase(filePath: string)
    ensures GuessMimeType(Lower(filePath)) == GuessMimeType(filePath)
  {
    SplitExtLower(filePath);
    LowerTwice(SplitExt(filePath).1);
  }
}
