/** The browser routes (frontend/src/App.tsx): "/" is the upload page and
    "/s/:id" the preview page. react-router compiles each route path into a
    regular expression that ignores case and accepts any number of trailing
    slashes: "/" becomes the pattern "one '/', then any number of '/'" and
    "/s/:id" becomes "'/s/', a non-empty run of non-'/' characters, then any
    number of '/'", both with the case-insensitive flag. */
module AppRoutes {

  import opened Text

  datatype Page = UploadPage | PreviewPage(id: string) | NoPage

  const SharePrefix := "/s/"

  predicate Slashes(s: string) {
    forall i :: 0 <= i < |s| ==> s[i] == '/'
  }

  /** The three characters "/s/" under the `i` flag. Without the `u` flag
      only 's' and 'S' fold together. */
  predicate IsSharePrefix(p: string) {
    |p| == 3 && p[0] == '/' && (p[1] == 's' || p[1] == 'S') && p[2] == '/'
  }

  /** `path` matches "/s/:id" with `id` as the captured parameter: the
      prefix, a non-empty run without '/', then only slashes. */
  predicate MatchesShare(path: string, id: string) {
    && 3 + |id| <= |path|
    && IsSharePrefix(path[..3])
    && path[3..3 + |id|] == id
    && id != "" && NoSlash(id)
    && Slashes(path[3 + |id|..])
  }

  /** The longest prefix of `s` without '/'. */
  function Segment(s: string): (r: string)
    ensures |r| <= |s| && r == s[..|r|] && NoSlash(r)
    ensures |r| == |s| || s[|r|] == '/'
  {
    if |s| == 0 || s[0] == '/' then ""
    else
      var rest := Segment(s[1..]);
      assert s[1..][..|rest|] == s[1..|rest| + 1];
      [s[0]] + rest
  }

  /** The page `<Routes>` renders for a pathname. */
  function Route(path: string): (p: Page)
    ensures p == UploadPage <==> path != "" && Slashes(path)
    ensures p.PreviewPage? ==> MatchesShare(path, p.id)
    ensures forall id :: MatchesShare(path, id) ==> p == PreviewPage(id)
  {
    if path != "" && Slashes(path) then UploadPage
    else if |path| > 3 && IsSharePrefix(path[..3]) then
      var id := Segment(path[3..]);
      if id != "" && Slashes(path[3 + |id|..]) then
        assert path[3..3 + |id|] == id;
        ShareIdsAreSegment(path);
        PreviewPage(id)
      else
        ShareIdsAreSegment(path);
        NoPage
    else NoPage
  }

  /** A slash-free prefix that ends at a '/' or at the end is the segment. */
  lemma {:induction false} SegmentUnique(s: string, k: nat)
    requires k <= |s| && NoSlash(s[..k]) && (k == |s| || s[k] == '/')
    ensures Segment(s) == s[..k]
  {
    if k > 0 {
      assert s[0] == s[..k][0];
      assert s[1..][..k - 1] == s[1..k];
      SegmentUnique(s[1..], k - 1);
      assert s[..k] == [s[0]] + s[1..k];
    }
  }

  /** Any capture of "/s/:id" is the maximal slash-free run after the
      prefix. */
  lemma ShareIdIsSegment(path: string, id: string)
    requires MatchesShare(path, id)
    ensures id == Segment(path[3..])
  {
    var rest := path[3..];
    assert rest[..|id|] == id;
    if |id| < |rest| {
      assert rest[|id|] == path[3 + |id|..][0];
    }
    SegmentUnique(rest, |id|);
  }

  lemma ShareIdsAreSegment(path: string)
    requires |path| >= 3
    ensures forall id :: MatchesShare(path, id) ==> id == Segment(path[3..])
  {
    forall id | MatchesShare(path, id)
      ensures id == Segment(path[3..])
    {
      ShareIdIsSegment(path, id);
    }
  }

  /** Every non-empty id without '/' has its preview page at "/s/<id>",
      and also behind any casing of the prefix and trailing slashes. */
  lemma SharePathRoutes(id: string, upper: bool, trailing: nat)
    requires id != "" && NoSlash(id)
    ensures Route(SharePrefix + id) == PreviewPage(id)
    ensures Route((if upper then "/S/" else "/s/") + id + Repeat('/', trailing)) == PreviewPage(id)
  {
    var path := (if upper then "/S/" else "/s/") + id + Repeat('/', trailing);
    assert path[..3] == (if upper then "/S/" else "/s/");
    assert path[3..3 + |id|] == id;
    assert path[3 + |id|..] == Repeat('/', trailing);
    assert MatchesShare(path, id);
    var plain := SharePrefix + id;
    assert plain[..3] == SharePrefix && plain[3..3 + |id|] == id && plain[3 + |id|..] == "";
    assert MatchesShare(plain, id);
  }

  function Repeat(c: char, n: nat): (r: string)
    ensures |r| == n && forall i :: 0 <= i < n ==> r[i] == c
  {
    if n == 0 then "" else [c] + Repeat(c, n - 1)
  }
}
