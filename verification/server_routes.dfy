/** The server's route table (backend/main.go): a gin router under the
    "/api" group. gin matches paths case-sensitively, and a `:id` parameter
    takes one non-empty path segment. */
module ServerRoutes {

  import opened Wrappers
  import opened Text

  datatype Method = Get | Post

  datatype Endpoint =
    | Health
    | UploadEndpoint
    | TextEndpoint
    | FileInfoEndpoint(id: string)
    | DownloadEndpoint(id: string)
    | PreviewEndpoint(id: string)

  /** The `:id` captured by the pattern `prefix ++ ":id"`. */
  function Param(prefix: string, path: string): (r: Option<string>)
    ensures r.Some? ==> path == prefix + r.value && r.value != "" && NoSlash(r.value)
    ensures forall id :: path == prefix + id && id != "" && NoSlash(id) ==> r == Some(id)
  {
    if StartsWith(path, prefix) && |path| > |prefix| && NoSlash(path[|prefix|..]) then
      var id := path[|prefix|..];
      assert path == prefix + id;
      ParamUnique(prefix, path, id);
      Some(id)
    else
      ParamAbsent(prefix, path);
      None
  }

  lemma ParamUnique(prefix: string, path: string, id: string)
    requires path == prefix + id
    ensures forall other :: path == prefix + other ==> other == id
  {
    forall other | path == prefix + other
      ensures other == id
    {
      assert other == path[|prefix|..];
      assert id == path[|prefix|..];
    }
  }

  lemma ParamAbsent(prefix: string, path: string)
    requires !(StartsWith(path, prefix) && |path| > |prefix| && NoSlash(path[|prefix|..]))
    ensures forall id :: !(path == prefix + id && id != "" && NoSlash(id))
  {
    forall id | path == prefix + id && id != ""
      ensures !NoSlash(id)
    {
      assert path[..|prefix|] == prefix;
      assert path[|prefix|..] == id;
    }
  }

  /** The routes part at the sixth character: 'h'ealth, 'f'ile,
      'd'ownload, 'p'review. */
  lemma SixthChar(path: string)
    ensures forall id :: path == "/api/file/" + id ==> path[5] == 'f'
    ensures forall id :: path == "/api/download/" + id ==> path[5] == 'd'
    ensures forall id :: path == "/api/preview/" + id ==> path[5] == 'p'
    ensures path == "/api/health" ==> path[5] == 'h'
  {
    forall id | path == "/api/file/" + id
      ensures path[5] == 'f'
    {
      assert path[5] == "/api/file/"[5];
    }
    forall id | path == "/api/download/" + id
      ensures path[5] == 'd'
    {
      assert path[5] == "/api/download/"[5];
    }
    forall id | path == "/api/preview/" + id
      ensures path[5] == 'p'
    {
      assert path[5] == "/api/preview/"[5];
    }
  }

  /** The handler the router picks for a request, if any. */
  function Route(verb: Method, path: string): (r: Option<Endpoint>)
    ensures r == Some(UploadEndpoint) <==> verb == Post && path == "/api/upload"
    ensures r == Some(TextEndpoint) <==> verb == Post && path == "/api/text"
    ensures forall id :: r == Some(FileInfoEndpoint(id)) <==>
              verb == Get && path == "/api/file/" + id && id != "" && NoSlash(id)
    ensures forall id :: r == Some(DownloadEndpoint(id)) <==>
              verb == Get && path == "/api/download/" + id && id != "" && NoSlash(id)
    ensures forall id :: r == Some(PreviewEndpoint(id)) <==>
              verb == Get && path == "/api/preview/" + id && id != "" && NoSlash(id)
  {
    match verb
    case Post =>
      if path == "/api/upload" then Some(UploadEndpoint)
      else if path == "/api/text" then Some(TextEndpoint)
      else None
    case Get =>
      SixthChar(path);
      if path == "/api/health" then Some(Health)
      else if Param("/api/file/", path).Some? then Some(FileInfoEndpoint(Param("/api/file/", path).value))
      else if Param("/api/download/", path).Some? then Some(DownloadEndpoint(Param("/api/download/", path).value))
      else if Param("/api/preview/", path).Some? then Some(PreviewEndpoint(Param("/api/preview/", path).value))
      else None
  }
}
