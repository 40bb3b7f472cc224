/**
 * `ThumbnailUrl#thumb_name`: the size token of a thumbnail ("160c", "72u", "800", ...),
 * taken from its url by the scan `/([^/]+)/[^/]+$` and the first capture of its first match.
 *
 * The model follows the regular expression as Ruby runs it: the leftmost match wins;
 * `[^/]` also matches a line break; and `$` matches at the end of the string or just
 * before any '\n'. For urls without a line break, `ThumbNameIsPenultimateSegment`
 * says the result is exactly the segment between the last two slashes.
 */
module ThumbnailUrl {
  import opened Wrappers

  /** Ruby's PhotoUrl and ThumbnailUrl records; `url` is the only attribute with behaviour. */
  datatype PhotoUrl = PhotoUrl(url: string)

  predicate NoSlash(s: string)
  {
    forall i :: 0 <= i < |s| ==> s[i] != '/'
  }

  predicate NoNewline(s: string)
  {
    forall i :: 0 <= i < |s| ==> s[i] != '\n'
  }

  /** `s` occurs in `u` starting at position `a`. */
  ghost predicate OccursAt(s: string, u: string, a: int)
  {
    0 <= a && a + |s| <= |u| && u[a..a + |s|] == s
  }

  /** The position of the first '/' at or after `i`, or |u| when there is none. */
  function NextSlash(u: string, i: nat): (j: nat)
    requires i <= |u|
    ensures i <= j <= |u|
    ensures j < |u| ==> u[j] == '/'
    ensures forall k :: i <= k < j ==> u[k] != '/'
    decreases |u| - i
  {
    if i == |u| || u[i] == '/' then i else NextSlash(u, i + 1)
  }

  /** `$` matches at some position p with lo < p <= hi: p == |u|, or a '\n' is at p. */
  predicate LineEndIn(u: string, lo: nat, hi: nat)
    requires lo <= hi <= |u|
  {
    (lo < hi && hi == |u|) || exists p :: lo < p <= hi && p < |u| && u[p] == '\n'
  }

  /**
   * The pattern matches starting at position `i`: a '/', a non-empty run without '/'
   * (the capture, which must end at the next '/'), that '/', and a non-empty run
   * without '/' after which `$` matches.
   */
  predicate MatchAt(u: string, i: nat)
    requires i < |u|
  {
    u[i] == '/' &&
    var j := NextSlash(u, i + 1);
    i + 1 < j < |u| && LineEndIn(u, j + 1, NextSlash(u, j + 1))
  }

  /** The capture group of the match starting at `i`. */
  function Capture(u: string, i: nat): string
    requires i < |u|
  {
    u[i + 1..NextSlash(u, i + 1)]
  }

  /** The capture of the leftmost match that starts at or after `i`. */
  function FirstMatch(u: string, i: nat): (r: Option<string>)
    requires i <= |u|
    ensures r.Some? ==> r.value != [] && NoSlash(r.value) && exists a :: OccursAt(r.value, u, a)
    decreases |u| - i
  {
    if i == |u| then None
    else if MatchAt(u, i) then
      assert OccursAt(Capture(u, i), u, i + 1);
      Some(Capture(u, i))
    else FirstMatch(u, i + 1)
  }

  /**
   * `url.scan(%r{/([^/]+)/[^/]+$}).flatten.compact.first`: when non-nil, the token is
   * non-empty, has no '/', and is a contiguous piece of the url.
   */
  function ThumbName(url: string): (r: Option<string>)
    ensures r.Some? ==> r.value != [] && NoSlash(r.value) && exists a :: OccursAt(r.value, url, a)
  {
    FirstMatch(url, 0)
  }

  /** `u` is `p + "/" + s + "/" + t` with `s` and `t` non-empty path segments. */
  ghost predicate PathEnd(u: string, p: string, s: string, t: string)
  {
    u == p + ['/'] + s + ['/'] + t && s != [] && t != [] && NoSlash(s) && NoSlash(t)
  }

  lemma {:induction false} NextSlashIs(u: string, i: nat, j: nat)
    requires i <= j <= |u|
    requires forall k :: i <= k < j ==> u[k] != '/'
    requires j < |u| ==> u[j] == '/'
    ensures NextSlash(u, i) == j
    decreases j - i
  {
    if i < j {
      NextSlashIs(u, i + 1, j);
    }
  }

  /** Without a line break, `$` can only match at the very end of the url. */
  lemma MatchAtWithoutNewline(u: string, i: nat)
    requires NoNewline(u) && i < |u|
    ensures MatchAt(u, i) <==>
      u[i] == '/' && i + 1 < NextSlash(u, i + 1) < |u| - 1 &&
      NextSlash(u, NextSlash(u, i + 1) + 1) == |u|
  {
  }

  /** No match in [i, a) means the scan continues at `a`. */
  lemma {:induction false} FirstMatchSkips(u: string, i: nat, a: nat)
    requires i <= a <= |u|
    requires forall m :: i <= m < a ==> !MatchAt(u, m)
    ensures FirstMatch(u, i) == FirstMatch(u, a)
    decreases a - i
  {
    if i < a {
      FirstMatchSkips(u, i + 1, a);
    }
  }

  /** A non-nil result is the capture of a match, and no match starts earlier. */
  lemma {:induction false} FirstMatchFound(u: string, i: nat) returns (m: nat)
    requires i <= |u| && FirstMatch(u, i).Some?
    ensures i <= m < |u| && MatchAt(u, m) && FirstMatch(u, i) == Some(Capture(u, m))
    ensures forall k :: i <= k < m ==> !MatchAt(u, k)
    decreases |u| - i
  {
    if MatchAt(u, i) {
      m := i;
    } else {
      m := FirstMatchFound(u, i + 1);
    }
  }

  /** Where the two slashes of "/s/t" sit, and where the scan from each of them stops. */
  lemma PathEndSlashes(u: string, p: string, s: string, t: string)
    requires PathEnd(u, p, s, t)
    ensures |p| + 1 + |s| < |u| - 1 && u[|p|] == '/' && s != []
    ensures NextSlash(u, |p| + 1) == |p| + 1 + |s|
    ensures NextSlash(u, |p| + 2 + |s|) == |u|
    ensures u[|p| + 1..|p| + 1 + |s|] == s
  {
    var a := |p|;
    var b := a + 1 + |s|;
    assert u[a] == '/' && u[b] == '/';
    assert forall k :: a + 1 <= k < b ==> u[k] == s[k - a - 1];
    assert forall k :: b + 1 <= k < |u| ==> u[k] == t[k - b - 1];
    NextSlashIs(u, a + 1, b);
    NextSlashIs(u, b + 1, |u|);
    assert u[a + 1..b] == s;
  }

  /**
   * With a '/' at `a` followed by the last two segments, no match starts before `a`:
   * any earlier one would have to end at or before `a`, and `$` matches only at the end.
   */
  lemma NoMatchBefore(u: string, a: nat)
    requires NoNewline(u) && a < |u| && u[a] == '/'
    requires NextSlash(u, a + 1) < |u| && NextSlash(u, NextSlash(u, a + 1) + 1) == |u|
    ensures forall m :: 0 <= m < a ==> !MatchAt(u, m)
  {
    forall m | 0 <= m < a
      ensures !MatchAt(u, m)
    {
      if u[m] == '/' {
        var j := NextSlash(u, m + 1);
        assert j <= a;
        if j < |u| {
          assert NextSlash(u, j + 1) <= NextSlash(u, a + 1);
        }
      }
    }
  }

  /** The match at the '/' that starts the last two segments is the leftmost one. */
  lemma FirstMatchAtLastSegments(u: string, a: nat)
    requires NoNewline(u) && a < |u| && u[a] == '/' && a + 1 < NextSlash(u, a + 1) < |u| - 1
    requires NextSlash(u, NextSlash(u, a + 1) + 1) == |u|
    ensures ThumbName(u) == Some(Capture(u, a))
  {
    MatchAtWithoutNewline(u, a);
    NoMatchBefore(u, a);
    FirstMatchSkips(u, 0, a);
  }

  /** A url ending in "/s/t" yields `s` when it has no line break. */
  lemma ThumbNameOfPathEnd(u: string, p: string, s: string, t: string)
    requires NoNewline(u) && PathEnd(u, p, s, t)
    ensures ThumbName(u) == Some(s)
  {
    PathEndSlashes(u, p, s, t);
    FirstMatchAtLastSegments(u, |p|);
  }

  /** The slice of `u` over a stretch without '/' has no '/'. */
  lemma SliceNoSlash(u: string, lo: nat, hi: nat)
    requires lo <= hi <= |u|
    requires forall k :: lo <= k < hi ==> u[k] != '/'
    ensures NoSlash(u[lo..hi])
  {
    assert forall i :: 0 <= i < hi - lo ==> u[lo..hi][i] == u[lo + i];
  }

  /** Cutting `u` at two positions holding '/' gives prefix, "/", middle, "/", suffix. */
  lemma CutAtSlashes(u: string, m: nat, j: nat)
    requires m < j < |u| && u[m] == '/' && u[j] == '/'
    ensures u == u[..m] + ['/'] + u[m + 1..j] + ['/'] + u[j + 1..]
  {
    assert u == u[..m] + u[m..m + 1] + u[m + 1..j] + u[j..j + 1] + u[j + 1..];
  }

  /** On a url without line break, a match splits it into prefix, capture and last segment. */
  lemma MatchSplits(u: string, m: nat)
    requires NoNewline(u) && m < |u| && MatchAt(u, m)
    ensures PathEnd(u, u[..m], Capture(u, m), u[NextSlash(u, m + 1) + 1..])
  {
    MatchAtWithoutNewline(u, m);
    var j := NextSlash(u, m + 1);
    CutAtSlashes(u, m, j);
    SliceNoSlash(u, m + 1, j);
    SliceNoSlash(u, j + 1, |u|);
    assert u[j + 1..] == u[j + 1..|u|];
  }

  /** Conversely, a non-nil result on a url without line break is its penultimate segment. */
  lemma ThumbNameSplits(u: string)
    requires NoNewline(u) && ThumbName(u).Some?
    ensures exists p, t :: PathEnd(u, p, ThumbName(u).value, t)
  {
    var m := FirstMatchFound(u, 0);
    MatchSplits(u, m);
    var p, t := u[..m], u[NextSlash(u, m + 1) + 1..];
    assert PathEnd(u, p, ThumbName(u).value, t);
  }

  /**
   * For a url without a line break, `thumb_name` is `s` exactly when the url ends in
   * "/s/t" with `s` and `t` non-empty and free of '/'.
   */
  lemma ThumbNameIsPenultimateSegment(u: string, s: string)
    requires NoNewline(u)
    ensures ThumbName(u) == Some(s) <==> exists p, t :: PathEnd(u, p, s, t)
  {
    if ThumbName(u) == Some(s) {
      ThumbNameSplits(u);
    }
    if exists p, t :: PathEnd(u, p, s, t) {
      var p, t :| PathEnd(u, p, s, t);
      ThumbNameOfPathEnd(u, p, s, t);
    }
  }
  /** A url in which no position starts a match has no thumbnail name. */
  lemma NoMatchNoName(u: string)
    requires forall m :: 0 <= m < |u| ==> !MatchAt(u, m)
    ensures ThumbName(u) == None
  {
    FirstMatchSkips(u, 0, |u|);
  }

  /** A trailing '/' gives nil. */
  lemma ThumbNameTrailingSlash(u: string)
    requires NoNewline(u) && |u| > 0 && u[|u| - 1] == '/'
    ensures ThumbName(u) == None
  {
    forall m | 0 <= m < |u|
      ensures !MatchAt(u, m)
    {
      MatchAtWithoutNewline(u, m);
    }
    NoMatchNoName(u);
  }

  /** A url with at most one '/' has no segment before its penultimate one: nil. */
  lemma ThumbNameSingleSlash(u: string)
    requires forall a, b :: 0 <= a < b < |u| && u[a] == '/' ==> u[b] != '/'
    ensures ThumbName(u) == None
  {
    NoMatchNoName(u);
  }

  /** An empty penultimate segment ("//t") gives nil. */
  lemma ThumbNameEmptySegment(p: string, t: string)
    requires NoNewline(p + ['/', '/'] + t) && NoSlash(t)
    ensures ThumbName(p + ['/', '/'] + t) == None
  {
    var u := p + ['/', '/'] + t;
    var b := |p| + 1;
    assert u[|p|] == '/' && u[b] == '/';
    forall m | 0 <= m < |u|
      ensures !MatchAt(u, m)
    {
      MatchAtWithoutNewline(u, m);
      assert forall k :: b < k < |u| ==> u[k] == t[k - b - 1];
      if m < |p| && u[m] == '/' {
        var j := NextSlash(u, m + 1);
        assert j <= |p|;
        assert NextSlash(u, j + 1) <= b;
      } else if m == |p| {
        assert NextSlash(u, m + 1) == m + 1;
      } else if m == b {
        NextSlashIs(u, b + 1, |u|);
      }
    }
    NoMatchNoName(u);
  }

  /** The usual case: the token sits between the album path and the file name. */
  lemma ThumbNameExample()
    ensures ThumbName("http://lh3.ggpht.com/album123/160c/photo.jpg") == Some("160c")
  {
    var u := "http://lh3.ggpht.com/album123/160c/photo.jpg";
    assert PathEnd(u, "http://lh3.ggpht.com/album123", "160c", "photo.jpg");
    ThumbNameOfPathEnd(u, "http://lh3.ggpht.com/album123", "160c", "photo.jpg");
  }

  /** The host name counts as a segment: a url with no directory still has a name. */
  lemma ThumbNameOfHost()
    ensures ThumbName("http://host/photo.jpg") == Some("host")
  {
    var u := "http://host/photo.jpg";
    assert PathEnd(u, "http:/", "host", "photo.jpg");
    ThumbNameOfPathEnd(u, "http:/", "host", "photo.jpg");
  }
  /** `$` also matches before a line break, so the leftmost match can end there. */
  lemma ThumbNameLineBreak()
    ensures ThumbName("/a/b\n/c/d") == Some("a")
  {
    var u := "/a/b\n/c/d";
    NextSlashIs(u, 1, 2);
    NextSlashIs(u, 3, 5);
    assert LineEndIn(u, 3, 5) by { assert u[4] == '\n'; }
    assert MatchAt(u, 0);
    assert Capture(u, 0) == u[1..2] == "a";
  }
}
