/** Properties that cross the boundary between the browser and the server:
    what one side produces is what the other side expects. */
module Integration {

  import opened Wrappers
  import opened Models
  import opened Text
  import opened PathExt
  import Api
  import Handlers
  import Storage
  import Telegram
  import Preview
  import Uploader

  lemma TxtExtension()
    ensures Ext(Handlers.TextFilename) == ".txt"
  {
    var n := Handlers.TextFilename;
    var e := ".txt";
    assert n[|n| - |e|..] == e;
    assert e[1..] == "txt";
    assert IsExtOf(e, n);
    ExtUnique(e, n);
  }

  /** A text upload is always shown as text by the page and always served
      inline by the preview endpoint. */
  lemma TextUploadPreviewsAsText(cfg: Handlers.Config, db: Handlers.Db, body: TextBody, id: string,
                                 writeOk: bool, dbOk: bool, now: string, base: string)
    requires Handlers.UploadText(cfg, db, body, id, writeOk, dbOk, now).response.UploadedJson?
    ensures var r := Handlers.UploadText(cfg, db, body, id, writeOk, dbOk, now);
            && Preview.Strategy(r.db[id].filetype) == Preview.TextPreview
            && Preview.CardFor(base, ToInfo(r.db[id])).textFrameSrc == Some(Api.PreviewUrl(base, id))
            && Handlers.PreviewFile(r.db, id, true) == Handlers.ServeFile(None, "text/plain", r.db[id].filepath)
  {
    TxtExtension();
  }

  /** Every type the notifier sends as a photo is an image to the page, but
      not the other way round: "image/svg+xml" is previewed as an image yet
      sent as a document. */
  lemma PhotoTypesAreImages(mimeType: string)
    ensures Telegram.IsImage(mimeType) ==> Preview.IsImage(mimeType)
    ensures Preview.IsImage("image/svg+xml") && !Telegram.IsImage("image/svg+xml")
  {
    assert "image/svg+xml"[..6] == "image/";
    if Telegram.IsImage(mimeType) {
      assert mimeType[..6] == "image/";
    }
  }

  /** After a successful file upload, a configured bot's caption links to
      the very share URL returned to the browser, and the attached file is
      the stored one. */
  lemma FileNotificationLinksShareUrl(cfg: Handlers.Config, db: Handlers.Db, form: FormData, id: string,
                                      createOk: bool, copyOk: bool, dbOk: bool, now: string,
                                      bot: Telegram.Bot)
    requires Handlers.UploadFile(cfg, db, form, id, createOk, copyOk, dbOk, now).response.UploadedJson?
    requires Telegram.Configured(bot) && bot.baseUrl == cfg.baseUrl
    ensures var r := Handlers.UploadFile(cfg, db, form, id, createOk, copyOk, dbOk, now);
            var d := Telegram.SendFileWithDocument(bot, r.notify.value.rec);
            && (d.SendPhoto? || d.SendDocument?)
            && EndsWith(d.caption, r.response.body.shareUrl)
            && d.path == r.db[id].filepath
  {
  }

  /** After a successful text upload, a configured bot's message links to
      the share URL returned to the browser. */
  lemma TextNotificationLinksShareUrl(cfg: Handlers.Config, db: Handlers.Db, body: TextBody, id: string,
                                      writeOk: bool, dbOk: bool, now: string, bot: Telegram.Bot)
    requires Handlers.UploadText(cfg, db, body, id, writeOk, dbOk, now).response.UploadedJson?
    requires Telegram.Configured(bot) && bot.baseUrl == cfg.baseUrl
    ensures var r := Handlers.UploadText(cfg, db, body, id, writeOk, dbOk, now);
            var d := Telegram.SendFileNotification(bot, r.notify.value.rec);
            d.SendMessage? && EndsWith(d.text, "(" + r.response.body.shareUrl + ")")
  {
  }

  /** The multipart body the browser sends is read by the handler as the
      same file and description, so a browser upload is never refused for
      a missing file, and is stored whenever it fits and storage and
      database succeed. */
  lemma BrowserUploadReachesHandler(base: string, file: FilePart, description: string,
                                    cfg: Handlers.Config, db: Handlers.Db, id: string,
                                    createOk: bool, copyOk: bool, dbOk: bool, now: string)
    ensures var req := Api.UploadFileRequest(base, file, description, true);
            && Handlers.FormFile(req.body.form, "file") == Some(file)
            && Handlers.PostForm(req.body.form, "description") == description
    ensures var req := Api.UploadFileRequest(base, file, description, true);
            var r := Handlers.UploadFile(cfg, db, req.body.form, id, createOk, copyOk, dbOk, now);
            && r.response != Handlers.ErrorJson(400, "No file uploaded")
            && (r.response.UploadedJson? <==> file.size <= cfg.maxFileSize && createOk && copyOk && dbOk && id !in db)
            && (r.response.UploadedJson? ==> r.response.body.filename == file.name)
  {
    var form := Api.UploadFileRequest(base, file, description, true).body.form;
    assert form[1..] == [("description", ValueEntry(description))];
    assert form[1..][1..] == [];
  }

  /** A text upload started by the form always has non-empty content, so
      the handler's required-content binding never refuses it. */
  lemma FormTextUploadAccepted(s: Uploader.FormState, base: string, cfg: Handlers.Config, db: Handlers.Db,
                               id: string, writeOk: bool, dbOk: bool, now: string)
    requires Uploader.Consistent(s) && Uploader.UploadEnabled(s) && s.mode == Uploader.TextMode
    ensures var eff := Uploader.Step(s, Uploader.ClickUpload).effects;
            var req := Api.UploadTextRequest(base, eff[0].content, eff[0].description);
            && eff[0].SendText?
            && req.body.text.content != ""
            && Handlers.UploadText(cfg, db, req.body.text, id, writeOk, dbOk, now).response
                 != Handlers.ErrorJson(400, "Invalid request")
  {
  }

  /** The stored file keeps the extension of the recorded filename, so the
      preview endpoint's decision, made from the filename, is the decision
      the stored file's own name would give. */
  lemma StoredNameAgreesWithFilename(cfg: Handlers.Config, db: Handlers.Db, form: FormData, id: string,
                                     createOk: bool, copyOk: bool, dbOk: bool, now: string)
    requires Plain(id)
    requires Handlers.FormFile(form, "file").Some? && Handlers.FormFile(form, "file").value.size <= cfg.maxFileSize
    requires createOk && copyOk && dbOk && id !in db
    ensures var rec := Handlers.UploadFile(cfg, db, form, id, createOk, copyOk, dbOk, now).db[id];
            && rec.filepath.Joined?
            && Ext(rec.filepath.name) == Ext(rec.filename)
            && Handlers.IsPreviewable(Ext(rec.filepath.name), rec.filetype)
               == Handlers.IsPreviewable(Ext(rec.filename), rec.filetype)
  {
    var part := Handlers.FormFile(form, "file").value;
    Storage.SavedKeepsExtension(cfg.uploadDir, id, part.name, createOk, copyOk);
  }

  /** Following a share link: the page fetches the info for the id; a known
      id shows its card with the download link, an unknown one (or any
      read failure) the not-found card. */
  lemma VisitSharedFile(base: string, db: Handlers.Db, id: string, readOk: bool)
    requires id != "" && Handlers.KeyedById(db)
    ensures var resp := Handlers.GetFileInfo(db, id, readOk);
            var reply := if resp.InfoJson? then Some(resp.info) else None;
            var view := Preview.Render(base, Preview.Visit(Some(id), reply));
            && (readOk && id in db ==> view.FileView? && view.card.downloadHref == Api.DownloadUrl(base, id))
            && (!(readOk && id in db) ==> view == Preview.NotFoundView)
  {
  }
}
