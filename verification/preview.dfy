/** The preview page (frontend/src/pages/Preview.tsx): the loading /
    not-found / loaded states, the render strategy chosen from the MIME
    string, and which URLs each part of the page uses. */
module Preview {

  import opened Wrappers
  import opened Models
  import opened Text
  import Api
  import SizeFormat

  datatype RenderStrategy = ImagePreview | TextPreview | GenericDownloadOnly

  /** `isImage` of the page: any type under "image/". */
  predicate IsImage(filetype: string) {
    StartsWith(filetype, "image/")
  }

  /** `isText` of the page: exactly "text/plain". */
  predicate IsText(filetype: string) {
    filetype == "text/plain"
  }

  /** The page never takes a type for both an image and a text. */
  lemma ImageAndTextExclusive(filetype: string)
    ensures !(IsImage(filetype) && IsText(filetype))
  {
    if IsText(filetype) {
      assert filetype[0] == 't';
    }
  }

  /** How a fetched file is presented: a total three-way split. */
  function Strategy(filetype: string): (s: RenderStrategy)
    ensures s == ImagePreview <==> StartsWith(filetype, "image/")
    ensures s == TextPreview <==> filetype == "text/plain"
    ensures s == GenericDownloadOnly <==> !StartsWith(filetype, "image/") && filetype != "text/plain"
  {
    ImageAndTextExclusive(filetype);
    if IsImage(filetype) then ImagePreview
    else if IsText(filetype) then TextPreview
    else GenericDownloadOnly
  }

  /** The component state: `loading`, `error` and `file`. */
  datatype PageState = PageState(loading: bool, error: Option<string>, file: Option<FileInfo>)

  const Initial := PageState(true, None, None)

  /** The mount effect: a fetch starts only for a present, non-empty route
      id; the result is the id fetched. */
  function FetchOnMount(routeId: Option<string>): (fetch: Option<string>)
    ensures fetch.Some? <==> routeId.Some? && routeId.value != ""
    ensures fetch.Some? ==> fetch == routeId
  {
    if routeId.Some? && routeId.value != "" then routeId else None
  }

  /** The end of `loadFileInfo`: `reply` is the fetched info, or `None` for
      any failure of the request. */
  function Settle(s: PageState, reply: Option<FileInfo>): (r: PageState)
    ensures !r.loading
    ensures reply.Some? ==> r.file == reply && r.error == s.error
    ensures reply.None? ==> r.error == Some("File not found") && r.file == s.file
  {
    match reply
    case Some(info) => s.(file := Some(info), loading := false)
    case None => s.(error := Some("File not found"), loading := false)
  }

  /** One visit: mount with the route id, then (if a fetch started) its
      settlement with `reply`. */
  function Visit(routeId: Option<string>, reply: Option<FileInfo>): (r: PageState)
    ensures routeId.None? || routeId == Some("") ==> r == Initial
    ensures routeId.Some? && routeId.value != "" ==>
              && !r.loading
              && r.file == reply
              && (r.error.Some? <==> reply.None?)
  {
    if FetchOnMount(routeId).Some? then Settle(Initial, reply) else Initial
  }

  datatype Icon = ImageIcon | TextIcon | FolderIcon

  /** The rendered file card. `imageSrc` is the `<img>` source and
      `textFrameSrc` the `<iframe>` source, each present only when that
      block is rendered; `description` is present only when its row is. */
  datatype Card = Card(
    icon: Icon,
    title: string,
    imageSrc: Option<string>,
    textFrameSrc: Option<string>,
    typeLabel: string,
    sizeLabel: string,
    description: Option<string>,
    downloadHref: string)

  datatype View = LoadingView | NotFoundView | FileView(card: Card)

  /** The card for a loaded file, built the way the page's markup builds it:
      the icon by a nested choice, the two inline blocks by two separate
      tests. */
  function CardFor(base: string, f: FileInfo): (c: Card)
    ensures c.downloadHref == Api.DownloadUrl(base, f.id)
    ensures c.imageSrc.Some? <==> Strategy(f.filetype) == ImagePreview
    ensures c.textFrameSrc.Some? <==> Strategy(f.filetype) == TextPreview
    ensures c.imageSrc.Some? ==> c.imageSrc.value == Api.PreviewUrl(base, f.id)
    ensures c.textFrameSrc.Some? ==> c.textFrameSrc.value == Api.PreviewUrl(base, f.id)
    ensures !(c.imageSrc.Some? && c.textFrameSrc.Some?)
    ensures c.icon == ImageIcon <==> Strategy(f.filetype) == ImagePreview
    ensures c.icon == TextIcon <==> Strategy(f.filetype) == TextPreview
    ensures c.description.Some? <==> f.description != ""
    ensures c.description.Some? ==> c.description.value == f.description
    ensures c.sizeLabel == SizeFormat.BrowserFormatFileSize(f.filesize)
  {
    ImageAndTextExclusive(f.filetype);
    Card(
      if IsImage(f.filetype) then ImageIcon else if IsText(f.filetype) then TextIcon else FolderIcon,
      f.filename,
      if IsImage(f.filetype) then Some(Api.PreviewUrl(base, f.id)) else None,
      if IsText(f.filetype) then Some(Api.PreviewUrl(base, f.id)) else None,
      f.filetype,
      SizeFormat.BrowserFormatFileSize(f.filesize),
      if f.description != "" then Some(f.description) else None,
      Api.DownloadUrl(base, f.id))
  }

  /** What the page shows for a state. */
  function Render(base: string, s: PageState): (v: View)
    ensures s.loading ==> v == LoadingView
    ensures !s.loading && (s.error.Some? || s.file.None?) ==> v == NotFoundView
    ensures v.FileView? <==> !s.loading && s.error.None? && s.file.Some?
    ensures v.FileView? ==> v.card == CardFor(base, s.file.value)
  {
    if s.loading then LoadingView
    else if s.error.Some? || s.file.None? then NotFoundView
    else FileView(CardFor(base, s.file.value))
  }

  /** The page's whole life for one visit: a route id with a successful
      fetch shows the file, with a failed fetch the not-found card; with no
      id the spinner stays. */
  lemma VisitOutcome(base: string, routeId: Option<string>, reply: Option<FileInfo>)
    ensures routeId.None? || routeId == Some("") ==> Render(base, Visit(routeId, reply)) == LoadingView
    ensures routeId.Some? && routeId.value != "" && reply.Some? ==>
              Render(base, Visit(routeId, reply)) == FileView(CardFor(base, reply.value))
    ensures routeId.Some? && routeId.value != "" && reply.None? ==>
              Render(base, Visit(routeId, reply)) == NotFoundView
  {
  }
}
