/** Request decisions of the upload handler (backend/handlers/upload.go).
    The database is a map from id to record; storage, database and clock
    results are passed in as outcomes. The notification goroutine is
    represented by the job it would start. */
module Handlers {

  import opened Wrappers
  import opened Models
  import opened PathExt
  import Storage
  import Text

  /** `MAX_FILE_SIZE` when it is unset. */
  const DefaultMaxFileSize: int := 52428800

  const OctetStream := "application/octet-stream"

  datatype Config = Config(baseUrl: string, maxFileSize: int, uploadDir: string)

  type Db = map<string, FileRecord>

  /** Each row is found under its own id, as the primary key makes it. */
  predicate KeyedById(db: Db) {
    forall k :: k in db ==> db[k].id == k
  }

  datatype Response =
    | ErrorJson(status: nat, message: string)
    | UploadedJson(body: UploadResponse)
    | InfoJson(info: FileInfo)
      /** Bytes of a stored file, with the attachment header when present. */
    | ServeFile(disposition: Option<string>, contentType: string, path: DiskPath)

  /** The notification started in the background after an upload. */
  datatype Notify = WithDocument(rec: FileRecord) | TextNotification(rec: FileRecord)

  datatype Outcome = Outcome(response: Response, db: Db, notify: Option<Notify>)

  /** No file part is sent under `key` before position `i`. */
  predicate FirstFileAt(form: FormData, key: string, i: nat) {
    forall j :: 0 <= j < i && j < |form| ==> !(form[j].0 == key && form[j].1.FileEntry?)
  }

  /** No plain value is sent under `key` before position `i`. */
  predicate FirstValueAt(form: FormData, key: string, i: nat) {
    forall j :: 0 <= j < i && j < |form| ==> !(form[j].0 == key && form[j].1.ValueEntry?)
  }

  /** `FormFile(key)`: the first file part sent under `key`. */
  function FormFile(form: FormData, key: string): (r: Option<FilePart>)
    ensures r.Some? <==> exists i :: 0 <= i < |form| && form[i].0 == key && form[i].1.FileEntry?
    ensures r.Some? ==> exists i :: 0 <= i < |form| && form[i] == (key, FileEntry(r.value))
                                      && FirstFileAt(form, key, i)
  {
    if |form| == 0 then None
    else if form[0].0 == key && form[0].1.FileEntry? then Some(form[0].1.file)
    else
      var r := FormFile(form[1..], key);
      assert forall i :: 1 <= i < |form| ==> form[i] == form[1..][i - 1];
      r
  }

  /** `PostForm(key)`: the first plain value sent under `key`, or "". */
  function PostForm(form: FormData, key: string): (r: string)
    ensures (forall i :: 0 <= i < |form| ==> !(form[i].0 == key && form[i].1.ValueEntry?)) ==> r == ""
    ensures (exists i :: 0 <= i < |form| && form[i].0 == key && form[i].1.ValueEntry?) ==>
              exists i :: 0 <= i < |form| && form[i] == (key, ValueEntry(r)) && FirstValueAt(form, key, i)
  {
    if |form| == 0 then ""
    else if form[0].0 == key && form[0].1.ValueEntry? then form[0].1.value
    else
      var r := PostForm(form[1..], key);
      assert forall i :: 1 <= i < |form| ==> form[i] == form[1..][i - 1];
      r
  }

  /** `CreateFile`: the insert fails when the database reports an error or
      the id is already a primary key. */
  function Insert(db: Db, rec: FileRecord, dbOk: bool): (r: Option<Db>)
    ensures r.Some? <==> dbOk && rec.id !in db
    ensures r.Some? ==> r.value.Keys == db.Keys + {rec.id} && r.value[rec.id] == rec
    ensures r.Some? ==> forall k :: k in db ==> r.value[k] == db[k]
  {
    if !dbOk || rec.id in db then None else Some(db[rec.id := rec])
  }

  /** The part's declared type, or the octet-stream default when empty. */
  function ContentTypeOrDefault(declared: string): (t: string)
    ensures t != ""
    ensures declared == "" ==> t == OctetStream
    ensures declared != "" ==> t == declared
  {
    if declared == "" then OctetStream else declared
  }

  /** POST /api/upload. `id` is the generated uuid, `createOk`/`copyOk` the
      disk outcomes, `dbOk` the database outcome, `now` the timestamp. */
  function UploadFile(cfg: Config, db: Db, form: FormData, id: string,
                      createOk: bool, copyOk: bool, dbOk: bool, now: string): (r: Outcome)
    ensures FormFile(form, "file").None? ==> r == Outcome(ErrorJson(400, "No file uploaded"), db, None)
    ensures FormFile(form, "file").Some? && FormFile(form, "file").value.size > cfg.maxFileSize
            ==> r == Outcome(ErrorJson(400, "File too large"), db, None)
    ensures r.response.UploadedJson? <==>
              FormFile(form, "file").Some? && FormFile(form, "file").value.size <= cfg.maxFileSize
              && createOk && copyOk && dbOk && id !in db
    ensures FormFile(form, "file").Some? && FormFile(form, "file").value.size <= cfg.maxFileSize
            ==> (!(createOk && copyOk) ==> r.response == ErrorJson(500, "Failed to save file"))
                && (createOk && copyOk && !(dbOk && id !in db)
                    ==> r.response == ErrorJson(500, "Failed to save file info"))
    ensures !r.response.UploadedJson? ==> r.db == db && r.notify.None?
    ensures r.response.UploadedJson? ==>
              var part := FormFile(form, "file").value;
              && r.response.body == UploadResponse(id, part.name, ShareUrl(cfg.baseUrl, id))
              && id in r.db && r.db == db[id := r.db[id]]
              && r.db[id] == FileRecord(id, part.name, Storage.GetPath(cfg.uploadDir, id, Ext(part.name)),
                                        ContentTypeOrDefault(part.contentType), part.size,
                                        PostForm(form, "description"), now)
              && r.notify == Some(WithDocument(r.db[id]))
  {
    match FormFile(form, "file")
    case None => Outcome(ErrorJson(400, "No file uploaded"), db, None)
    case Some(part) =>
      if part.size > cfg.maxFileSize then Outcome(ErrorJson(400, "File too large"), db, None)
      else
        var description := PostForm(form, "description");
        var saved := Storage.Save(cfg.uploadDir, id, part.name, createOk, copyOk);
        if !saved.ok then Outcome(ErrorJson(500, "Failed to save file"), db, None)
        else
          var rec := FileRecord(saved.id, part.name, saved.path, ContentTypeOrDefault(part.contentType),
                                part.size, description, now);
          match Insert(db, rec, dbOk)
          case None => Outcome(ErrorJson(500, "Failed to save file info"), db, None)
          case Some(db') =>
            Outcome(UploadedJson(UploadResponse(saved.id, part.name, ShareUrl(cfg.baseUrl, saved.id))),
                    db', Some(WithDocument(rec)))
  }

  const TextFilename := "text.txt"
  const TextType := "text/plain"

  /** POST /api/text. The `binding:"required"` tag rejects a body whose
      content is missing or empty. */
  function UploadText(cfg: Config, db: Db, body: TextBody, id: string,
                      writeOk: bool, dbOk: bool, now: string): (r: Outcome)
    ensures (body.Malformed? || body.content == "") ==> r == Outcome(ErrorJson(400, "Invalid request"), db, None)
    ensures r.response.UploadedJson? <==>
              body.TextRequest? && body.content != "" && writeOk && dbOk && id !in db
    ensures body.TextRequest? && body.content != "" && !writeOk
            ==> r.response == ErrorJson(500, "Failed to save text")
    ensures body.TextRequest? && body.content != "" && writeOk && !(dbOk && id !in db)
            ==> r.response == ErrorJson(500, "Failed to save text info")
    ensures !r.response.UploadedJson? ==> r.db == db && r.notify.None?
    ensures r.response.UploadedJson? ==>
              && r.response.body == UploadResponse(id, TextFilename, ShareUrl(cfg.baseUrl, id))
              && id in r.db && r.db == db[id := r.db[id]]
              && r.db[id] == FileRecord(id, TextFilename, Storage.GetPath(cfg.uploadDir, id, ".txt"), TextType,
                                        Text.Utf8Length(body.content), body.description, now)
              && r.notify == Some(TextNotification(r.db[id]))
  {
    if body.Malformed? || body.content == "" then Outcome(ErrorJson(400, "Invalid request"), db, None)
    else
      var saved := Storage.SaveText(cfg.uploadDir, id, writeOk);
      if !saved.ok then Outcome(ErrorJson(500, "Failed to save text"), db, None)
      else
        var rec := FileRecord(saved.id, TextFilename, saved.path, TextType,
                              Text.Utf8Length(body.content), body.description, now);
        match Insert(db, rec, dbOk)
        case None => Outcome(ErrorJson(500, "Failed to save text info"), db, None)
        case Some(db') =>
          Outcome(UploadedJson(UploadResponse(saved.id, TextFilename, ShareUrl(cfg.baseUrl, saved.id))),
                  db', Some(TextNotification(rec)))
  }

  /** `GetFile`: any read error, an unknown id included, yields nothing. */
  function Lookup(db: Db, id: string, readOk: bool): (r: Option<FileRecord>)
    ensures r.Some? <==> readOk && id in db
    ensures r.Some? ==> r.value == db[id]
  {
    if readOk && id in db then Some(db[id]) else None
  }

  const NotFound := ErrorJson(404, "File not found")

  /** GET /api/file/:id. */
  function GetFileInfo(db: Db, id: string, readOk: bool): (r: Response)
    ensures r == NotFound <==> !(readOk && id in db)
    ensures readOk && id in db ==> r == InfoJson(ToInfo(db[id]))
  {
    match Lookup(db, id, readOk)
    case None => NotFound
    case Some(rec) => InfoJson(ToInfo(rec))
  }

  /** GET /api/download/:id: the stored bytes as an attachment. */
  function DownloadFile(db: Db, id: string, readOk: bool): (r: Response)
    ensures r == NotFound <==> !(readOk && id in db)
    ensures readOk && id in db ==>
              r == ServeFile(Some("attachment; filename=" + db[id].filename), db[id].filetype, db[id].filepath)
  {
    match Lookup(db, id, readOk)
    case None => NotFound
    case Some(rec) => ServeFile(Some("attachment; filename=" + rec.filename), rec.filetype, rec.filepath)
  }

  /** Extensions the server will send inline. */
  const PreviewableExts: set<string> := {".jpg", ".jpeg", ".png", ".gif", ".webp", ".pdf", ".txt"}

  /** `isPreviewable`: decided by the extension alone; the type is ignored. */
  function IsPreviewable(ext: string, mimeType: string): (b: bool)
    ensures b <==> ext in PreviewableExts
  {
    ext in PreviewableExts
  }

  /** GET /api/preview/:id: the bytes inline when the filename's extension
      is previewable, the JSON record otherwise. */
  function PreviewFile(db: Db, id: string, readOk: bool): (r: Response)
    ensures r == NotFound <==> !(readOk && id in db)
    ensures readOk && id in db && Ext(db[id].filename) in PreviewableExts ==>
              r == ServeFile(None, db[id].filetype, db[id].filepath)
    ensures readOk && id in db && Ext(db[id].filename) !in PreviewableExts ==>
              r == InfoJson(ToInfo(db[id]))
  {
    match Lookup(db, id, readOk)
    case None => NotFound
    case Some(rec) =>
      if IsPreviewable(Ext(rec.filename), rec.filetype) then ServeFile(None, rec.filetype, rec.filepath)
      else InfoJson(ToInfo(rec))
  }

  /** Previewability is case-sensitive and blind to the declared type. */
  lemma PreviewabilityIgnoresType(ext: string, m1: string, m2: string)
    ensures IsPreviewable(ext, m1) == IsPreviewable(ext, m2)
    ensures !IsPreviewable(".JPG", m1) && !IsPreviewable(".Txt", m1)
    ensures IsPreviewable(".jpg", m1) && IsPreviewable(".txt", m1)
  {
  }

  /** Uploading a file and then asking for its info gives back the name,
      size, declared type and description that were sent. */
  lemma UploadThenInfo(cfg: Config, db: Db, form: FormData, id: string, createOk: bool, copyOk: bool,
                       dbOk: bool, now: string)
    requires UploadFile(cfg, db, form, id, createOk, copyOk, dbOk, now).response.UploadedJson?
    ensures var r := UploadFile(cfg, db, form, id, createOk, copyOk, dbOk, now);
            var part := FormFile(form, "file").value;
            GetFileInfo(r.db, id, true)
              == InfoJson(FileInfo(id, part.name, ContentTypeOrDefault(part.contentType), part.size,
                                   PostForm(form, "description"), now))
  {
  }

  /** Both upload endpoints keep every row under its own id. */
  lemma UploadsKeepKeyedById(cfg: Config, db: Db, form: FormData, body: TextBody, id: string,
                             createOk: bool, copyOk: bool, writeOk: bool, dbOk: bool, now: string)
    requires KeyedById(db)
    ensures KeyedById(UploadFile(cfg, db, form, id, createOk, copyOk, dbOk, now).db)
    ensures KeyedById(UploadText(cfg, db, body, id, writeOk, dbOk, now).db)
  {
  }

  /** Uploads never disturb records already stored. */
  lemma UploadKeepsOtherRecords(cfg: Config, db: Db, form: FormData, id: string, createOk: bool,
                                copyOk: bool, dbOk: bool, now: string, other: string)
    requires other in db
    ensures var r := UploadFile(cfg, db, form, id, createOk, copyOk, dbOk, now);
            other in r.db && r.db[other] == db[other]
  {
  }
}
