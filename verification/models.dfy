/** The records the backend stores and the shapes exchanged between the
    browser and the server (backend/models/file.go and the frontend's
    matching interfaces). */
module Models {

  import opened Text
  import AppRoutes

  /** A file as the upload form holds it and as the multipart part carries
      it: the name, the byte length and the declared content type. The
      bytes themselves are not modelled. */
  datatype FilePart = FilePart(name: string, size: nat, contentType: string)

  /** Where a stored file lives: the upload directory joined with the
      stored name, or the empty path Go returns on failure. */
  datatype DiskPath = NoPath | Joined(dir: string, name: string)

  /** One row of the `files` table. */
  datatype FileRecord = FileRecord(
    id: string,
    filename: string,
    filepath: DiskPath,
    filetype: string,
    filesize: nat,
    description: string,
    createdAt: string)

  /** The JSON form of a record (`FileInfo` on the frontend). The server
      path is tagged `json:"-"` and so has no field here. */
  datatype FileInfo = FileInfo(
    id: string,
    filename: string,
    filetype: string,
    filesize: nat,
    description: string,
    createdAt: string)

  /** The record an info describes, once the server path is supplied. */
  function FromInfo(info: FileInfo, path: DiskPath): FileRecord {
    FileRecord(info.id, info.filename, path, info.filetype, info.filesize, info.description, info.createdAt)
  }

  /** The JSON form of a record: it drops the server path and nothing else,
      so the record is recovered from it and its path. */
  function ToInfo(rec: FileRecord): (info: FileInfo)
    ensures FromInfo(info, rec.filepath) == rec
    ensures info.id == rec.id
  {
    FileInfo(rec.id, rec.filename, rec.filetype, rec.filesize, rec.description, rec.createdAt)
  }

  /** Body of a successful upload answer. */
  datatype UploadResponse = UploadResponse(id: string, filename: string, shareUrl: string)

  /** One entry of a multipart form: a file part or a plain value. */
  datatype FormEntry = FileEntry(file: FilePart) | ValueEntry(value: string)

  type FormData = seq<(string, FormEntry)>

  /** A JSON body for the text endpoint after decoding: either it failed to
      decode, or it gave the two string fields (a missing field decodes to
      ""). */
  datatype TextBody = Malformed | TextRequest(content: string, description: string)

  /** The link to a file's preview page. With BASE_URL the frontend's
      origin (no path, no trailing slash), what follows it is the browser's
      pathname, and the browser router opens the preview page of `id`
      there; a trailing slash on BASE_URL would give a pathname starting
      "//s/", which no route matches. */
  function ShareUrl(baseUrl: string, id: string): (url: string)
    ensures |baseUrl| <= |url| && url[..|baseUrl|] == baseUrl
    ensures id != "" && NoSlash(id) ==> AppRoutes.Route(url[|baseUrl|..]) == AppRoutes.PreviewPage(id)
  {
    var url := baseUrl + "/s/" + id;
    assert url[|baseUrl|..] == AppRoutes.SharePrefix + id;
    if id != "" && NoSlash(id) then
      AppRoutes.SharePathRoutes(id, false, 0);
      url
    else url
  }
}
