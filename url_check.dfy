/**
  `validateUrl` of src/App.tsx. Both regular expressions are tested without anchors, so a
  URL is accepted when SOME substring has the pattern's shape; the optional leading
  groups `(https?://)?` and `(www.)?` can always match empty and so do not change the
  verdict. The shapes are stated as ghost predicates with explicit witnesses; the
  executable check scans the string and is proved to agree with them.
*/
module UrlValidation {
  import opened Wrappers

  /** The service whose links are story links rather than reel/post links. */
  const StoryService := "story_views"

  const StoryPrefix := "instagram.com/stories/"
  const SiteSlash := "instagram.com/"

  /** `[A-Za-z0-9._-]`, the story's account name. */
  predicate IsStoryNameChar(c: char)
  {
    ('A' <= c <= 'Z') || ('a' <= c <= 'z') || ('0' <= c <= '9') || c == '.' || c == '_' || c == '-'
  }

  /** `[A-Za-z0-9_-]`, a reel or post code. */
  predicate IsPostCodeChar(c: char)
  {
    ('A' <= c <= 'Z') || ('a' <= c <= 'z') || ('0' <= c <= '9') || c == '_' || c == '-'
  }

  predicate IsDigit(c: char)
  {
    '0' <= c <= '9'
  }

  /** `instagram.com/stories/NAME/D` occurs at position i with the name ending at j:
      a non-empty name, a slash, and at least one digit (the rest of `[0-9]+` is optional
      for an unanchored test). */
  ghost predicate StoryMatch(s: string, i: int, j: int)
  {
    && 0 <= i && i + |StoryPrefix| < j && j + 1 < |s|
    && s[i..i + |StoryPrefix|] == StoryPrefix
    && (forall m :: i + |StoryPrefix| <= m < j ==> IsStoryNameChar(s[m]))
    && s[j] == '/'
    && IsDigit(s[j + 1])
  }

  ghost predicate ContainsStoryLink(s: string)
  {
    exists i, j :: StoryMatch(s, i, j)
  }

  /** `instagram.com/KIND/C` occurs at position i, for KIND one of reel, p, tv and C one
      code character (the rest of `[A-Za-z0-9_-]+` is optional for an unanchored test). */
  ghost predicate PostMatch(s: string, i: int, kind: string)
  {
    && kind in {"reel", "p", "tv"}
    && 0 <= i && i + |SiteSlash + kind + "/"| < |s|
    && s[i..i + |SiteSlash + kind + "/"|] == SiteSlash + kind + "/"
    && IsPostCodeChar(s[i + |SiteSlash + kind + "/"|])
  }

  ghost predicate ContainsPostLink(s: string)
  {
    exists i, kind :: PostMatch(s, i, kind)
  }

  /** The end of the longest run of name characters starting at p. */
  function NameRunEnd(s: string, p: nat): (e: nat)
    requires p <= |s|
    ensures p <= e <= |s|
    ensures forall m :: p <= m < e ==> IsStoryNameChar(s[m])
    ensures e < |s| ==> !IsStoryNameChar(s[e])
    decreases |s| - p
  {
    if p < |s| && IsStoryNameChar(s[p]) then NameRunEnd(s, p + 1) else p
  }

  /** Whether a story link starts at i. Since '/' is not a name character, the name can
      only end where the longest run of name characters ends. */
  function StoryAt(s: string, i: nat): (b: bool)
    requires i <= |s|
    ensures b <==> exists j :: StoryMatch(s, i, j)
  {
    if i + |StoryPrefix| <= |s| && s[i..i + |StoryPrefix|] == StoryPrefix then
      var e := NameRunEnd(s, i + |StoryPrefix|);
      var b := i + |StoryPrefix| < e && e + 1 < |s| && s[e] == '/' && IsDigit(s[e + 1]);
      assert b ==> StoryMatch(s, i, e);
      assert forall j :: StoryMatch(s, i, j) ==> j == e;
      b
    else
      false
  }

  function PostAtKind(s: string, i: nat, kind: string): bool
  {
    var p := SiteSlash + kind + "/";
    i + |p| < |s| && s[i..i + |p|] == p && IsPostCodeChar(s[i + |p|])
  }

  /** Whether a reel or post link starts at i. */
  function PostAt(s: string, i: nat): (b: bool)
    ensures b <==> exists kind :: PostMatch(s, i, kind)
  {
    var b := PostAtKind(s, i, "reel") || PostAtKind(s, i, "p") || PostAtKind(s, i, "tv");
    assert PostAtKind(s, i, "reel") ==> PostMatch(s, i, "reel");
    assert PostAtKind(s, i, "p") ==> PostMatch(s, i, "p");
    assert PostAtKind(s, i, "tv") ==> PostMatch(s, i, "tv");
    b
  }

  /** The unanchored test: a match starts somewhere at or after i. */
  function StoryFrom(s: string, i: nat): (b: bool)
    requires i <= |s|
    ensures b <==> exists k, j :: i <= k && StoryMatch(s, k, j)
    decreases |s| - i
  {
    if i == |s| then
      false
    else if StoryAt(s, i) then
      true
    else
      var b := StoryFrom(s, i + 1);
      assert forall k, j :: i <= k && StoryMatch(s, k, j) ==> i + 1 <= k;
      b
  }

  function PostFrom(s: string, i: nat): (b: bool)
    requires i <= |s|
    ensures b <==> exists k, kind :: i <= k && PostMatch(s, k, kind)
    decreases |s| - i
  {
    if i == |s| then
      false
    else if PostAt(s, i) then
      true
    else
      var b := PostFrom(s, i + 1);
      assert forall k, kind :: i <= k && PostMatch(s, k, kind) ==> i + 1 <= k;
      b
  }

  /** `validateUrl(url)` for the selected service: story links for story views, reel /
      post / tv links for every other service and when no service is selected. */
  function ValidateUrl(service: Option<string>, url: string): (ok: bool)
    ensures service == Some(StoryService) ==> (ok <==> ContainsStoryLink(url))
    ensures service != Some(StoryService) ==> (ok <==> ContainsPostLink(url))
  {
    if service == Some(StoryService) then StoryFrom(url, 0) else PostFrom(url, 0)
  }

  /** A story match in `url` is a story match, shifted, in any text around it. */
  lemma StoryMatchShifts(pre: string, url: string, post: string, i: int, j: int)
    requires StoryMatch(url, i, j)
    ensures StoryMatch(pre + url + post, |pre| + i, |pre| + j)
  {
    var s := pre + url + post;
    var d := |pre|;
    assert s[d..d + |url|] == url;
    assert s[d + i..d + i + |StoryPrefix|] == url[i..i + |StoryPrefix|];
    forall m | d + i + |StoryPrefix| <= m < d + j ensures IsStoryNameChar(s[m]) {
      assert s[m] == url[m - d];
    }
    assert s[d + j] == url[j] && s[d + j + 1] == url[j + 1];
  }

  /** A reel/post match in `url` is a match, shifted, in any text around it. */
  lemma PostMatchShifts(pre: string, url: string, post: string, i: int, kind: string)
    requires PostMatch(url, i, kind)
    ensures PostMatch(pre + url + post, |pre| + i, kind)
  {
    var s := pre + url + post;
    var d := |pre|;
    var n := |SiteSlash + kind + "/"|;
    assert s[d..d + |url|] == url;
    assert s[d + i..d + i + n] == url[i..i + n];
    assert s[d + i + n] == url[i + n];
  }

  /** The test is unanchored: text before and after an accepted URL keeps it accepted. */
  lemma AcceptedInContext(service: Option<string>, pre: string, url: string, post: string)
    requires ValidateUrl(service, url)
    ensures ValidateUrl(service, pre + url + post)
  {
    if service == Some(StoryService) {
      var i, j :| StoryMatch(url, i, j);
      StoryMatchShifts(pre, url, post, i, j);
    } else {
      var i, kind :| PostMatch(url, i, kind);
      PostMatchShifts(pre, url, post, i, kind);
    }
  }

  /** A reel link with scheme, as the buyer pastes it, is accepted for a reel service. */
  lemma ReelLinkAccepted()
    ensures ValidateUrl(Some("views"), "https://instagram.com/reel/xyz")
  {
    var p := SiteSlash + "reel" + "/";
    var s := "https://" + p + "xyz";
    assert s == "https://instagram.com/reel/xyz";
    assert s[8..8 + |p|] == p;
    assert PostMatch(s, 8, "reel");
  }

  /** A story link with an account name containing a dot is accepted for story views. */
  lemma StoryLinkAccepted()
    ensures ValidateUrl(Some(StoryService), "https://www." + StoryPrefix + "deoxy.boost/3141")
  {
    var s := "https://www." + StoryPrefix + "deoxy.boost/3141";
    assert s[12..12 + |StoryPrefix|] == StoryPrefix;
    assert s[34..] == "deoxy.boost/3141";
    assert StoryMatch(s, 12, 45);
  }

  /** A reel link is not a story link: for story views it is rejected. */
  lemma ReelLinkRejectedForStories()
    ensures !ValidateUrl(Some(StoryService), "instagram.com/reel/xyz")
  {
  }
}
