/** The browser's transfer helpers (frontend/src/api/index.ts): base
    address selection, upload progress, request shapes and the pure URL
    builders. The axios calls themselves are oracles: a request either
    yields the server's body unchanged or fails. */
module Api {

  import opened Wrappers
  import opened Models
  import opened Text
  import Rounding
  import ServerRoutes

  const DevBase := "http://localhost:8080"

  /** `getApiBase`. An unset or empty `VITE_API_URL` is passed as "";
      `hasWindow` is `typeof window !== 'undefined'`. */
  function ApiBase(viteApiUrl: string, hasWindow: bool, hostname: string, origin: string): (b: string)
    ensures viteApiUrl != "" ==> b == viteApiUrl
    ensures viteApiUrl == "" && hasWindow && hostname != "localhost" ==> b == origin
    ensures viteApiUrl == "" && (!hasWindow || hostname == "localhost") ==> b == DevBase
  {
    if viteApiUrl != "" then viteApiUrl
    else if hasWindow && hostname != "localhost" then origin
    else DevBase
  }

  /** An axios upload progress event; a missing total is 0. */
  datatype ProgressEvent = ProgressEvent(loaded: nat, total: nat)

  /** `Math.round(loaded * 100 / total)`: the nearest integer to the exact
      percentage, the larger one on a tie. */
  function Percent(loaded: nat, total: nat): (p: nat)
    requires total > 0
    ensures 2 * total * p <= 200 * loaded + total < 2 * total * (p + 1)
  {
    Rounding.HalfUp(100 * loaded, total)
  }

  /** The `onUploadProgress` hook: a percentage is reported only when the
      event has a total and a callback was supplied. */
  function ReportedProgress(ev: ProgressEvent, hasCallback: bool): (r: Option<nat>)
    ensures r.Some? <==> ev.total > 0 && hasCallback
    ensures r.Some? ==> r.value == Percent(ev.loaded, ev.total)
  {
    if ev.total > 0 && hasCallback then Some(Percent(ev.loaded, ev.total)) else None
  }

  /** While no more than the total is sent, the percentage stays in 0..100,
      and it is 100 once everything is sent. */
  lemma PercentBounded(loaded: nat, total: nat)
    requires 0 < total && loaded <= total
    ensures Percent(loaded, total) <= 100
    ensures loaded == total ==> Percent(loaded, total) == 100
  {
    Rounding.HalfUpBounded(100 * loaded, total, 100);
  }

  /** More bytes sent never lowers the reported percentage. */
  lemma PercentMonotone(l1: nat, l2: nat, total: nat)
    requires 0 < total && l1 <= l2
    ensures Percent(l1, total) <= Percent(l2, total)
  {
    Rounding.HalfUpMonotone(100 * l1, 100 * l2, total);
  }

  /** The axios instance's `baseURL`. */
  function ApiRoot(base: string): string {
    base + "/api"
  }

  /** A request as axios issues it. */
  datatype Body = Multipart(form: FormData) | Json(text: TextBody) | NoBody
  datatype Request = Post(url: string, body: Body, tracksProgress: bool) | Get(url: string)

  /** `uploadFile`: a multipart POST with the file and the description,
      tracking progress only when a callback is given. */
  function UploadFileRequest(base: string, file: FilePart, description: string, hasCallback: bool): (r: Request)
    ensures r.Post? && r.url == base + "/api/upload" && r.tracksProgress == hasCallback
    ensures ServerRoutes.Route(ServerRoutes.Post, r.url[|base|..]) == Some(ServerRoutes.UploadEndpoint)
    ensures r.body == Multipart([("file", FileEntry(file)), ("description", ValueEntry(description))])
  {
    assert ApiRoot(base) + "/upload" == base + "/api/upload";
    assert (base + "/api/upload")[|base|..] == "/api/upload";
    Post(ApiRoot(base) + "/upload",
         Multipart([("file", FileEntry(file)), ("description", ValueEntry(description))]),
         hasCallback)
  }

  /** `uploadText`: a JSON POST of `{content, description}`, without
      progress. */
  function UploadTextRequest(base: string, content: string, description: string): (r: Request)
    ensures r == Post(base + "/api/text", Json(TextRequest(content, description)), false)
    ensures ServerRoutes.Route(ServerRoutes.Post, r.url[|base|..]) == Some(ServerRoutes.TextEndpoint)
  {
    assert ApiRoot(base) + "/text" == base + "/api/text";
    assert (base + "/api/text")[|base|..] == "/api/text";
    Post(ApiRoot(base) + "/text", Json(TextRequest(content, description)), false)
  }

  /** `getFileInfo`. */
  function FileInfoRequest(base: string, id: string): (r: Request)
    ensures r == Get(base + "/api/file/" + id)
    ensures id != "" && NoSlash(id) ==>
              ServerRoutes.Route(ServerRoutes.Get, r.url[|base|..]) == Some(ServerRoutes.FileInfoEndpoint(id))
  {
    assert ApiRoot(base) + "/file/" + id == base + "/api/file/" + id;
    assert (base + "/api/file/" + id)[|base|..] == "/api/file/" + id;
    Get(ApiRoot(base) + "/file/" + id)
  }

  /** `getDownloadUrl`: under the base, the path the server routes to the
      download handler for `id`. */
  function DownloadUrl(base: string, id: string): (u: string)
    ensures |base| <= |u| && u[..|base|] == base
    ensures id != "" && NoSlash(id) ==>
              ServerRoutes.Route(ServerRoutes.Get, u[|base|..]) == Some(ServerRoutes.DownloadEndpoint(id))
  {
    var u := base + "/api/download/" + id;
    assert u[|base|..] == "/api/download/" + id;
    u
  }

  /** `getPreviewUrl`: under the base, the path the server routes to the
      preview handler for `id`. */
  function PreviewUrl(base: string, id: string): (u: string)
    ensures |base| <= |u| && u[..|base|] == base
    ensures id != "" && NoSlash(id) ==>
              ServerRoutes.Route(ServerRoutes.Get, u[|base|..]) == Some(ServerRoutes.PreviewEndpoint(id))
  {
    var u := base + "/api/preview/" + id;
    assert u[|base|..] == "/api/preview/" + id;
    u
  }

  lemma AppendCancel(p: string, a: string, b: string)
    requires p + a == p + b
    ensures a == b
  {
    assert a == (p + a)[|p|..];
    assert b == (p + b)[|p|..];
  }

  /** Distinct ids give distinct download and preview URLs. */
  lemma UrlsInjective(base: string, id1: string, id2: string)
    requires id1 != id2
    ensures DownloadUrl(base, id1) != DownloadUrl(base, id2)
    ensures PreviewUrl(base, id1) != PreviewUrl(base, id2)
  {
    if DownloadUrl(base, id1) == DownloadUrl(base, id2) {
      assert (base + "/api/download/") + id1 == (base + "/api/download/") + id2;
      AppendCancel(base + "/api/download/", id1, id2);
    }
    if PreviewUrl(base, id1) == PreviewUrl(base, id2) {
      assert (base + "/api/preview/") + id1 == (base + "/api/preview/") + id2;
      AppendCancel(base + "/api/preview/", id1, id2);
    }
  }

  /** The download and preview URLs never coincide, whatever the ids. */
  lemma UrlsDiffer(base: string, id1: string, id2: string)
    ensures DownloadUrl(base, id1) != PreviewUrl(base, id2)
  {
    var k := |base| + 5;
    assert DownloadUrl(base, id1)[k] == 'd';
    assert PreviewUrl(base, id2)[k] == 'p';
  }
}
