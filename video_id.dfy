/**
 * The link parser `extract_video_id` (main.py:28-40).
 *
 * Each of its three regular expressions is
 *   (?:https?://)?(?:www\.)?<path>([a-zA-Z0-9_-]+)
 * applied with `re.match`, so it is anchored at the start of the link only and
 * is case-sensitive. The optional scheme and `www.` groups never need
 * backtracking: every alternative starts with `h`, `w` or `y`, and every path
 * starts with `y`. The model therefore strips them greedily (MatchPattern)
 * and proves that this agrees with the regular language itself (IsMatch).
 */
module VideoId {
  import opened Wrappers

  /** The choices of `(?:https?://)?`, the empty one included. */
  predicate IsScheme(s: string) {
    s == "" || s == "http://" || s == "https://"
  }

  /** The choices of `(?:www\.)?`. */
  predicate IsWww(s: string) {
    s == "" || s == "www."
  }

  const WatchPath: string := "youtube.com/watch?v="
  const EmbedPath: string := "youtube.com/embed/"
  const ShortPath: string := "youtu.be/"
  /** The literal part of each pattern, in the order the source tries them. */
  const Paths: seq<string> := [WatchPath, EmbedPath, ShortPath]

  /** The character class `[a-zA-Z0-9_-]`. */
  predicate IsIdChar(c: char) {
    ('a' <= c <= 'z') || ('A' <= c <= 'Z') || ('0' <= c <= '9') || c == '_' || c == '-'
  }

  /** What the capture group `([a-zA-Z0-9_-]+)` can hold. */
  predicate IsVideoId(id: string) {
    |id| > 0 && forall i :: 0 <= i < |id| ==> IsIdChar(id[i])
  }

  /** The length of the greedy run of id characters at the start of `s`. */
  function IdRunLength(s: string): (n: nat)
    ensures n <= |s|
    ensures forall i :: 0 <= i < n ==> IsIdChar(s[i])
    ensures n < |s| ==> !IsIdChar(s[n])
  {
    if s == [] || !IsIdChar(s[0]) then 0 else 1 + IdRunLength(s[1..])
  }

  /** The length of the scheme `(?:https?://)?` takes, greedily. */
  function SchemeLength(url: string): (n: nat)
    ensures n <= |url| && IsScheme(url[..n])
  {
    if "https://" <= url then 8
    else if "http://" <= url then 7
    else 0
  }

  function StripScheme(url: string): string {
    url[SchemeLength(url)..]
  }

  /** The length of the prefix `(?:www\.)?` takes, greedily. */
  function WwwLength(s: string): (n: nat)
    ensures n <= |s| && IsWww(s[..n])
  {
    if "www." <= s then 4 else 0
  }

  function StripWww(s: string): string {
    s[WwwLength(s)..]
  }

  /** The path and the greedy id group, matched at the start of `s`. */
  function MatchPath(path: string, s: string): (r: Option<string>)
    ensures r.Some? ==> IsVideoId(r.value)
  {
    if path <= s then
      var n := IdRunLength(s[|path|..]);
      if n == 0 then None else Some(s[|path|..][..n])
    else None
  }

  /** `re.match(pattern, url).group(1)` for the pattern whose literal part is `path`. */
  function MatchPattern(path: string, url: string): (r: Option<string>)
    ensures r.Some? ==> IsVideoId(r.value)
  {
    MatchPath(path, StripWww(StripScheme(url)))
  }

  /**
   * The regular language of one pattern, stated without any parsing strategy:
   * the link is an allowed scheme, an allowed `www.`, the path, the id, and a
   * rest that does not continue the id (the group is greedy).
   */
  ghost predicate Decomposes(url: string, scheme: string, www: string, path: string, id: string, rest: string) {
    && IsScheme(scheme)
    && IsWww(www)
    && url == scheme + (www + (path + (id + rest)))
    && IsVideoId(id)
    && (rest == [] || !IsIdChar(rest[0]))
  }

  ghost predicate IsMatch(path: string, url: string, id: string) {
    exists scheme: string, www: string, rest: string :: Decomposes(url, scheme, www, path, id, rest)
  }

  /** Some one of the three patterns captures `id` from `url`. */
  ghost predicate AnyMatch(url: string, id: string) {
    IsMatch(WatchPath, url, id) || IsMatch(EmbedPath, url, id) || IsMatch(ShortPath, url, id)
  }

  /** The first pattern, in the order of `paths`, that matches decides the result. */
  function FirstMatch(paths: seq<string>, url: string): Option<string> {
    if paths == [] then None
    else if MatchPattern(paths[0], url).Some? then MatchPattern(paths[0], url)
    else FirstMatch(paths[1..], url)
  }

  /**
   * Trying patterns in order gives None exactly when none of them matches,
   * and otherwise the capture of one of them.
   */
  lemma {:induction false} FirstMatchSpec(paths: seq<string>, url: string)
    ensures FirstMatch(paths, url).None? <==> forall k :: 0 <= k < |paths| ==> MatchPattern(paths[k], url).None?
    ensures FirstMatch(paths, url).Some? ==>
      exists k :: 0 <= k < |paths| && MatchPattern(paths[k], url) == FirstMatch(paths, url)
  {
    if paths != [] && MatchPattern(paths[0], url).None? {
      FirstMatchSpec(paths[1..], url);
      if FirstMatch(paths, url).Some? {
        var k :| 0 <= k < |paths[1..]| && MatchPattern(paths[1..][k], url) == FirstMatch(paths, url);
        assert paths[1..][k] == paths[k + 1];
      }
    }
  }

  /** The value `extract_video_id(url)` returns. */
  function VideoIdOf(url: string): Option<string> {
    FirstMatch(Paths, url)
  }

  /** The source's loop over the pattern list, leaving it at the first match. */
  method ExtractVideoId(url: string) returns (videoId: Option<string>)
    ensures videoId == VideoIdOf(url)
  {
    videoId := None;
    var i := 0;
    while i < |Paths|
      invariant 0 <= i <= |Paths|
      invariant videoId == None
      invariant FirstMatch(Paths[i..], url) == VideoIdOf(url)
    {
      var m := MatchPattern(Paths[i], url);
      if m.Some? {
        videoId := m;
        break;
      }
      assert Paths[i..][1..] == Paths[i + 1..];
      i := i + 1;
    }
  }

  /** Stripping the optional scheme leaves what follows it when that cannot begin another scheme. */
  lemma StripSchemeExact(scheme: string, t: string)
    requires IsScheme(scheme)
    requires scheme == "" ==> !("http://" <= t) && !("https://" <= t)
    ensures StripScheme(scheme + t) == t
  {
    var url := scheme + t;
    if scheme == "" {
      assert url == t;
    } else if scheme == "http://" {
      assert url[4] == ':';
      assert url[..7] == scheme;
    } else {
      assert url[..8] == scheme;
    }
  }

  /** Stripping the optional `www.` leaves what follows it when that cannot begin another `www.`. */
  lemma StripWwwExact(www: string, u: string)
    requires IsWww(www)
    requires www == "" ==> !("www." <= u)
    ensures StripWww(www + u) == u
  {
    var t := www + u;
    if www == "" {
      assert t == u;
    } else {
      assert t[..4] == www;
    }
  }

  lemma SplitScheme(url: string)
    ensures url == url[..SchemeLength(url)] + StripScheme(url)
  {}

  lemma SplitWww(s: string)
    ensures s == s[..WwwLength(s)] + StripWww(s)
  {}

  /** A successful match splits what follows the optional groups into path, id and rest. */
  lemma SplitAfterPath(path: string, s: string)
    requires MatchPath(path, s).Some?
    ensures var id := MatchPath(path, s).value;
      && |path| + |id| <= |s|
      && s == path + (id + s[|path| + |id|..])
      && (|path| + |id| == |s| || !IsIdChar(s[|path| + |id|]))
  {
    var after := s[|path|..];
    var n := IdRunLength(after);
    assert s == path + after;
    assert after == after[..n] + after[n..];
    assert after[n..] == s[|path| + n..];
  }

  /** Puts the pieces of a link back together as a decomposition of the pattern's language. */
  lemma Assemble(url: string, scheme: string, afterScheme: string, www: string, s: string, path: string, id: string, rest: string)
    requires url == scheme + afterScheme && afterScheme == www + s && s == path + (id + rest)
    requires IsScheme(scheme) && IsWww(www) && IsVideoId(id) && (rest == [] || !IsIdChar(rest[0]))
    ensures IsMatch(path, url, id)
  {
    assert Decomposes(url, scheme, www, path, id, rest);
  }

  /** What MatchPattern captures is in the pattern's regular language. */
  lemma MatchPatternSound(path: string, url: string)
    ensures MatchPattern(path, url).Some? ==> IsMatch(path, url, MatchPattern(path, url).value)
  {
    if MatchPattern(path, url).Some? {
      var id := MatchPattern(path, url).value;
      var afterScheme := StripScheme(url);
      SplitScheme(url);
      var s := StripWww(afterScheme);
      SplitWww(afterScheme);
      SplitAfterPath(path, s);
      var rest := s[|path| + |id|..];
      Assemble(url, url[..SchemeLength(url)], afterScheme, afterScheme[..WwwLength(afterScheme)], s, path, id, rest);
    }
  }

  /** Every link in a pattern's regular language is captured by MatchPattern, with the same id. */
  lemma MatchPatternComplete(path: string, url: string, id: string)
    requires path in Paths && IsMatch(path, url, id)
    ensures MatchPattern(path, url) == Some(id)
  {
    var scheme, www, rest :| Decomposes(url, scheme, www, path, id, rest);
    var u := path + (id + rest);
    assert u[0] == 'y';
    StripWwwExact(www, u);
    StripSchemeExact(scheme, www + u);
    var after := u[|path|..];
    assert after == id + rest;
    IdRunOfIdThenRest(id, rest);
    assert after[..|id|] == id;
  }

  /** A run of id characters followed by a non-id character has exactly its own length. */
  lemma IdRunOfIdThenRest(id: string, rest: string)
    requires IsVideoId(id)
    requires rest == [] || !IsIdChar(rest[0])
    ensures IdRunLength(id + rest) == |id|
  {
    var s := id + rest;
    assert forall i :: 0 <= i < |id| ==> s[i] == id[i];
    assert |id| < |s| ==> s[|id|] == rest[0];
  }

  /** One pattern captures `id` exactly when the link is in that pattern's regular language with that id. */
  lemma MatchPatternCorrect(path: string, url: string, id: string)
    requires path in Paths
    ensures MatchPattern(path, url) == Some(id) <==> IsMatch(path, url, id)
  {
    MatchPatternSound(path, url);
    if IsMatch(path, url, id) {
      MatchPatternComplete(path, url, id);
    }
  }

  /** No string starts with two of the paths. */
  lemma PathsExclusive(s: string)
    ensures !(WatchPath <= s && EmbedPath <= s)
    ensures !(WatchPath <= s && ShortPath <= s)
    ensures !(EmbedPath <= s && ShortPath <= s)
  {
    if WatchPath <= s {
      assert s[12] == WatchPath[12] == 'w';
      assert s[5] == WatchPath[5] == 'b';
    }
    if EmbedPath <= s {
      assert s[5] == EmbedPath[5] == 'b';
    }
  }

  /** No link matches two of the patterns. */
  lemma PatternsExclusive(url: string, i: nat, j: nat)
    requires i < |Paths| && j < |Paths|
    requires MatchPattern(Paths[i], url).Some? && MatchPattern(Paths[j], url).Some?
    ensures i == j
  {
    var s := StripWww(StripScheme(url));
    assert MatchPath(Paths[i], s).Some? && MatchPath(Paths[j], s).Some?;
    PathMatchesExclusive(s, i, j);
  }

  lemma PathMatchesExclusive(s: string, i: nat, j: nat)
    requires i < |Paths| && j < |Paths|
    requires MatchPath(Paths[i], s).Some? && MatchPath(Paths[j], s).Some?
    ensures i == j
  {
    PathsExclusive(s);
  }

  /** Whichever pattern matches, its capture is what `extract_video_id` returns. */
  lemma VideoIdOfAnyPattern(url: string, k: nat)
    requires k < |Paths|
    ensures MatchPattern(Paths[k], url).Some? ==> VideoIdOf(url) == MatchPattern(Paths[k], url)
  {
    if MatchPattern(Paths[k], url).Some? {
      var r := VideoIdOf(url);
      FirstMatchSpec(Paths, url);
      assert r.Some?;
      var k' :| 0 <= k' < |Paths| && MatchPattern(Paths[k'], url) == r;
      PatternsExclusive(url, k, k');
    }
  }

  /**
   * `extract_video_id` returns `id` exactly when one of the three patterns,
   * read as a regular language, matches the link with that id.
   */
  lemma VideoIdOfCorrect(url: string, id: string)
    ensures VideoIdOf(url) == Some(id) <==> AnyMatch(url, id)
  {
    if VideoIdOf(url) == Some(id) {
      VideoIdOfSound(url, id);
    }
    if AnyMatch(url, id) {
      VideoIdOfComplete(url, id);
    }
  }

  /** Whatever a list of patterns returns was captured by one of them. */
  lemma FirstMatchSound(paths: seq<string>, url: string)
    ensures FirstMatch(paths, url).Some? ==>
      exists k :: 0 <= k < |paths| && IsMatch(paths[k], url, FirstMatch(paths, url).value)
  {
    if FirstMatch(paths, url).Some? {
      FirstMatchSpec(paths, url);
      var k :| 0 <= k < |paths| && MatchPattern(paths[k], url) == FirstMatch(paths, url);
      MatchPatternSound(paths[k], url);
    }
  }

  lemma VideoIdOfSound(url: string, id: string)
    requires VideoIdOf(url) == Some(id)
    ensures AnyMatch(url, id)
  {
    FirstMatchSound(Paths, url);
    var k :| 0 <= k < |Paths| && IsMatch(Paths[k], url, id);
    assert Paths[k] == WatchPath || Paths[k] == EmbedPath || Paths[k] == ShortPath;
  }

  lemma VideoIdOfComplete(url: string, id: string)
    requires AnyMatch(url, id)
    ensures VideoIdOf(url) == Some(id)
  {
    var k: nat := if IsMatch(WatchPath, url, id) then 0 else if IsMatch(EmbedPath, url, id) then 1 else 2;
    assert IsMatch(Paths[k], url, id);
    MatchPatternComplete(Paths[k], url, id);
    VideoIdOfAnyPattern(url, k);
  }

  /** The id is a proper part of the link, so a link that yields an id is never empty. */
  lemma IdShorterThanLink(url: string)
    ensures VideoIdOf(url).Some? ==> |VideoIdOf(url).value| < |url|
  {
    var r := VideoIdOf(url);
    if r.Some? {
      FirstMatchSound(Paths, url);
      var k :| 0 <= k < |Paths| && IsMatch(Paths[k], url, r.value);
      assert Paths[k] != [];
      IdShorterThanMatch(Paths[k], url, r.value);
    }
  }

  lemma IdShorterThanMatch(path: string, url: string, id: string)
    requires path != [] && IsMatch(path, url, id)
    ensures |id| < |url|
  {
    var scheme, www, rest :| Decomposes(url, scheme, www, path, id, rest);
  }

  /** A link assembled from the pieces of a pattern's language yields that pattern's id. */
  lemma VideoIdOfDecomposed(url: string, scheme: string, www: string, path: string, id: string, rest: string)
    requires path in Paths && Decomposes(url, scheme, www, path, id, rest)
    ensures VideoIdOf(url) == Some(id)
  {
    VideoIdOfCorrect(url, id);
  }

  /**
   * A link whose text after its scheme and `www.` starts with none of the
   * three paths yields None, whatever site it names. The two conditions on
   * empty groups say that the greedy groups take exactly `scheme` and `www`.
   */
  lemma NoPathNoId(url: string, scheme: string, www: string, host: string)
    requires IsScheme(scheme) && IsWww(www) && url == scheme + (www + host)
    requires scheme == "" && www == "" ==> !("http://" <= host) && !("https://" <= host)
    requires www == "" ==> !("www." <= host)
    requires !(WatchPath <= host) && !(EmbedPath <= host) && !(ShortPath <= host)
    ensures VideoIdOf(url).None?
  {
    StripsToHost(url, scheme, www, host);
    FirstMatchNone(Paths, url);
  }

  /** Under the conditions of `NoPathNoId`, the greedy groups take exactly `scheme` and `www`. */
  lemma StripsToHost(url: string, scheme: string, www: string, host: string)
    requires IsScheme(scheme) && IsWww(www) && url == scheme + (www + host)
    requires scheme == "" && www == "" ==> !("http://" <= host) && !("https://" <= host)
    requires www == "" ==> !("www." <= host)
    ensures StripWww(StripScheme(url)) == host
  {
    StripWwwExact(www, host);
    if www != "" {
      assert (www + host)[0] == 'w';
    }
    StripSchemeExact(scheme, www + host);
  }

  /** When no path begins the stripped link, trying the paths finds nothing. */
  lemma {:induction false} FirstMatchNone(paths: seq<string>, url: string)
    requires forall k :: 0 <= k < |paths| ==> !(paths[k] <= StripWww(StripScheme(url)))
    ensures FirstMatch(paths, url).None?
  {
    if paths != [] {
      FirstMatchNone(paths[1..], url);
    }
  }

  /** A link that no pattern matches, under any id, yields None. */
  lemma VideoIdOfNone(url: string)
    ensures VideoIdOf(url).None? <==> forall id :: !AnyMatch(url, id)
  {
    if VideoIdOf(url).Some? {
      VideoIdOfCorrect(url, VideoIdOf(url).value);
    } else {
      forall id ensures !AnyMatch(url, id) {
        VideoIdOfCorrect(url, id);
      }
    }
  }

  /**
   * Trying the patterns in any other order gives the same answer, because at
   * most one of them can match.
   */
  lemma {:induction false} OrderIrrelevant(order: seq<string>, url: string)
    requires forall p :: p in order <==> p in Paths
    ensures FirstMatch(order, url) == VideoIdOf(url)
  {
    var r, v := FirstMatch(order, url), VideoIdOf(url);
    FirstMatchSpec(order, url);
    FirstMatchSpec(Paths, url);
    if r.None? {
      forall k | 0 <= k < |Paths| ensures MatchPattern(Paths[k], url).None? {
        var p := Paths[k];
        assert p in order;
        var k' :| 0 <= k' < |order| && order[k'] == p;
      }
    } else {
      var k :| 0 <= k < |order| && MatchPattern(order[k], url) == r;
      assert order[k] in Paths;
      var i :| 0 <= i < |Paths| && Paths[i] == order[k];
      var j :| 0 <= j < |Paths| && MatchPattern(Paths[j], url) == v;
      PatternsExclusive(url, i, j);
    }
  }
}
