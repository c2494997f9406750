/** Go's `filepath.Ext` on a slash-separated path: the suffix starting at
    the last '.' of the final path element, or "" when that element has no
    '.'. Used both to name stored files and to decide previewability. */
module PathExt {

  /** True when `s` contains neither '.' nor the separator '/'. */
  predicate Plain(s: string) {
    forall i :: 0 <= i < |s| ==> s[i] != '.' && s[i] != '/'
  }

  /** Declarative description of an extension of `path`: a suffix that is
      either empty (and then the final element holds no '.') or a '.'
      followed by characters that are neither '.' nor '/'. */
  predicate IsExtOf(e: string, path: string) {
    && |e| <= |path|
    && path[|path| - |e|..] == e
    && (e != "" ==> e[0] == '.' && Plain(e[1..]))
    && (e == "" ==> forall k :: 0 <= k < |path| && path[k] == '.' ==>
                      exists m :: k < m < |path| && path[m] == '/')
  }

  /** The extension scan over `path[..i]`, walking backwards from `i`. */
  function ExtBefore(path: string, i: nat): string
    requires i <= |path|
  {
    if i == 0 then ""
    else if path[i - 1] == '/' then ""
    else if path[i - 1] == '.' then path[i - 1..]
    else ExtBefore(path, i - 1)
  }

  /** `filepath.Ext`: the scan from the end of the whole path. */
  function Ext(path: string): (e: string)
    ensures IsExtOf(e, path)
  {
    assert path[|path|..] == "";
    ExtBeforeIsExt(path, |path|);
    ExtBefore(path, |path|)
  }

  /** Index form of `Plain(path[i..])`. */
  lemma PlainSuffix(path: string, i: nat)
    requires i <= |path|
    requires Plain(path[i..])
    ensures forall j :: i <= j < |path| ==> path[j] != '.' && path[j] != '/'
  {
    forall j | i <= j < |path|
      ensures path[j] != '.' && path[j] != '/'
    {
      assert path[j] == path[i..][j - i];
    }
  }

  /** A non-empty extension starts at a '.' after which the path holds no
      '.' and no '/'. */
  lemma ExtTail(e: string, path: string)
    requires IsExtOf(e, path)
    ensures e != "" ==> path[|path| - |e|] == '.'
    ensures e != "" ==> forall j :: |path| - |e| < j < |path| ==> path[j] != '.' && path[j] != '/'
  {
    if e != "" {
      var k := |path| - |e|;
      assert path[k] == e[0];
      forall j | k < j < |path|
        ensures path[j] != '.' && path[j] != '/'
      {
        assert path[j] == e[1..][j - k - 1];
      }
    }
  }

  /** The backward scan yields an extension in the declarative sense,
      provided nothing after `i` is a '.' or '/'. */
  lemma {:induction false} ExtBeforeIsExt(path: string, i: nat)
    requires i <= |path|
    requires Plain(path[i..])
    ensures IsExtOf(ExtBefore(path, i), path)
    decreases i
  {
    var e := ExtBefore(path, i);
    PlainSuffix(path, i);
    if i == 0 {
      assert e == "";
    } else if path[i - 1] == '/' {
      assert e == "";
    } else if path[i - 1] == '.' {
      assert e == path[i - 1..];
      assert e[1..] == path[i..];
    } else {
      assert path[i - 1..] == [path[i - 1]] + path[i..];
      ExtBeforeIsExt(path, i - 1);
    }
  }

  /** The declarative description fixes the extension: any string meeting
      it is the one `Ext` returns. */
  lemma ExtUnique(e: string, path: string)
    requires IsExtOf(e, path)
    ensures e == Ext(path)
  {
    var r := Ext(path);
    ExtTail(e, path);
    ExtTail(r, path);
    assert |e| == |r|;
  }

  /** The loop of Go's `filepath.Ext`, run over the characters from the
      end; it returns what the declarative description fixes. */
  method ScanExt(path: string) returns (e: string)
    ensures IsExtOf(e, path)
  {
    var i := |path|;
    while i > 0 && path[i - 1] != '/'
      invariant 0 <= i <= |path|
      invariant Plain(path[i..])
      invariant ExtBefore(path, i) == Ext(path)
    {
      if path[i - 1] == '.' {
        return path[i - 1..];
      }
      assert path[i - 1..] == [path[i - 1]] + path[i..];
      i := i - 1;
    }
    e := "";
  }

  /** A string that is the extension of some path: empty, or a '.'
      followed by neither '.' nor '/'. */
  predicate IsExtension(e: string) {
    e == "" || (e[0] == '.' && Plain(e[1..]))
  }

  /** Appending an extension to a name without '.' or '/' (a generated id)
      gives a path whose extension is that same extension. */
  lemma ExtOfPlainSuffixed(id: string, e: string)
    requires Plain(id) && IsExtension(e)
    ensures Ext(id + e) == e
  {
    var p := id + e;
    assert p[|p| - |e|..] == e;
    if e == "" {
      assert p == id;
    }
    ExtUnique(e, p);
  }

  /** In particular the extension of any file name survives being moved
      onto a generated id. */
  lemma ExtOfSuffixed(id: string, name: string)
    requires Plain(id)
    ensures Ext(id + Ext(name)) == Ext(name)
  {
    ExtOfPlainSuffixed(id, Ext(name));
  }
}
