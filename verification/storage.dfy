/** File naming of the storage service (backend/services/storage.go). The
    disk writes are outcomes passed in; `filepath.Join` is kept as the
    (directory, name) pair it joins. */
module Storage {

  import opened Models
  import opened PathExt

  /** Go's `(id, path, err)` triple, with `ok` standing for `err == nil`. */
  datatype Saved = Saved(id: string, path: DiskPath, ok: bool)

  /** Path of the stored file for `id` with extension `ext`: in the upload
      directory, named by the id followed by the extension. */
  function GetPath(dir: string, id: string, ext: string): (p: DiskPath)
    ensures p.Joined? && p.dir == dir
    ensures |p.name| == |id| + |ext| && p.name[..|id|] == id && p.name[|id|..] == ext
  {
    var name := id + ext;
    assert name[..|id|] == id && name[|id|..] == ext;
    Joined(dir, name)
  }

  /** The id part of a stored name: everything before its first '.'. */
  function StoredId(name: string): (id: string)
    ensures |id| <= |name| && name[..|id|] == id && Plain(id)
  {
    if |name| == 0 || name[0] == '.' || name[0] == '/' then ""
    else
      var rest := StoredId(name[1..]);
      assert name[1..][..|rest|] == name[1..|rest| + 1];
      [name[0]] + rest
  }

  /** A generated id (no '.' or '/') is read back from its stored name. */
  lemma {:induction false} StoredIdOfName(id: string, ext: string)
    requires Plain(id) && IsExtension(ext)
    ensures StoredId(id + ext) == id
  {
    if |id| == 0 {
      assert id + ext == ext;
    } else {
      assert (id + ext)[0] == id[0];
      assert (id + ext)[1..] == id[1..] + ext;
      StoredIdOfName(id[1..], ext);
    }
  }

  /** For a generated id, the stored name's extension is exactly `ext`. */
  lemma GetPathKeepsExtension(dir: string, id: string, ext: string)
    requires Plain(id) && IsExtension(ext)
    ensures Ext(GetPath(dir, id, ext).name) == ext
  {
    assert GetPath(dir, id, ext).name == id + ext;
    ExtOfPlainSuffixed(id, ext);
  }

  /** Distinct generated ids never share a stored file, whatever the
      extensions. */
  lemma GetPathDistinct(dir: string, id1: string, ext1: string, id2: string, ext2: string)
    requires Plain(id1) && IsExtension(ext1) && Plain(id2) && IsExtension(ext2)
    requires id1 != id2
    ensures GetPath(dir, id1, ext1) != GetPath(dir, id2, ext2)
  {
    assert GetPath(dir, id1, ext1).name == id1 + ext1;
    assert GetPath(dir, id2, ext2).name == id2 + ext2;
    StoredIdOfName(id1, ext1);
    StoredIdOfName(id2, ext2);
  }

  /** Stores an uploaded file under `id ++ Ext(filename)`. `createOk` and
      `copyOk` are the outcomes of creating the file and copying into it. */
  function Save(dir: string, id: string, filename: string, createOk: bool, copyOk: bool): (r: Saved)
    ensures r.ok <==> createOk && copyOk
    ensures !r.ok ==> r.id == "" && r.path == NoPath
    ensures r.ok ==> r.id == id && r.path == GetPath(dir, id, Ext(filename))
  {
    var path := GetPath(dir, id, Ext(filename));
    if !createOk then Saved("", NoPath, false)
    else if !copyOk then Saved("", NoPath, false)
    else Saved(id, path, true)
  }

  /** Stores a text upload under `id ++ ".txt"`. */
  function SaveText(dir: string, id: string, writeOk: bool): (r: Saved)
    ensures r.ok <==> writeOk
    ensures !r.ok ==> r.id == "" && r.path == NoPath
    ensures r.ok ==> r.id == id && r.path == GetPath(dir, id, ".txt")
  {
    if !writeOk then Saved("", NoPath, false)
    else Saved(id, GetPath(dir, id, ".txt"), true)
  }

  /** With a generated id (no '.' or '/'), the stored name keeps the
      uploaded name's extension. */
  lemma SavedKeepsExtension(dir: string, id: string, filename: string, createOk: bool, copyOk: bool)
    requires Plain(id)
    requires Save(dir, id, filename, createOk, copyOk).ok
    ensures Ext(Save(dir, id, filename, createOk, copyOk).path.name) == Ext(filename)
  {
    GetPathKeepsExtension(dir, id, Ext(filename));
  }

  /** A stored text always has the ".txt" extension. */
  lemma SavedTextIsTxt(dir: string, id: string, writeOk: bool)
    requires Plain(id)
    requires SaveText(dir, id, writeOk).ok
    ensures Ext(SaveText(dir, id, writeOk).path.name) == ".txt"
  {
    assert ".txt"[1..] == "txt";
    GetPathKeepsExtension(dir, id, ".txt");
  }
}
