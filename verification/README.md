# Upload-and-share: a Dafny model of its decisions

The system lets a visitor upload a file or a block of text, returns a share
link `BaseURL/s/<id>`, and shows a preview page for that link from which the
original can be downloaded. A Go server stores the bytes on disk and a row
per upload in SQLite, and posts a notice to a Telegram chat. A React page
holds the upload form and the preview page.

This project models the decisions that remain once the disk, the database,
the HTTP calls and the Telegram API are treated as outcomes that succeed or
fail:

- `uploader.dfy`: the upload form as a state machine over an immutable
  record. The asynchronous submit is a start (a click) and a later
  settlement (success or failure).
- `api.dfy`: base-address selection, the upload percentage, request shapes
  and the download/preview URL builders.
- `preview.dfy`: the preview page's loading / not-found / loaded states,
  the three-way render strategy, and the URLs each part uses.
- `handlers.dfy`, `storage.dfy`, `models.dfy`: the server's validation
  order, record construction, the share URL, previewability and stored-file
  naming. The database is a map from id to record.
- `path_ext.dfy`: Go's `filepath.Ext`, both as the backward loop and as a
  declarative description that fixes the result uniquely.
- `telegram.dfy`: the send guards, photo/document dispatch, captions and
  messages.
- `rounding.dfy`: rounding to the nearest integer, ties up (JavaScript) or
  to the even neighbour (Go).
- `size_format.dfy`: the browser's and the notifier's size formatters,
  including their two-decimal digits.
- `i18n.dfy`, `routes.dfy`, `server_routes.dfy`: language choice and
  persistence, label lookup with the shipped tables, the browser's routes
  and the server's route table.
- `integration.dfy`: properties that tie the browser to the server.

Upload form behaviour worth knowing
(`frontend/src/components/FileUploader.tsx`):

- The tab buttons (lines 88-101) are never disabled, so the tab can be
  switched while an upload is in flight.
- The disabled upload button (lines 172-176) is the only guard against a
  second request. No separate "already in flight" error exists.
- A success (lines 62-66) clears the file, the text and the description,
  whichever mode was sent, including edits made during the transfer.
- A failure (lines 67-72) alerts and clears nothing. The form has no reset
  action.
- The file picker handler (lines 41-45) does not set the mode. The picker
  is rendered only in file mode (lines 104-117), so every selection still
  ends in file mode (`Uploader.SelectionIsFileMode`).

## Model

| member | source | states |
|---|---|---|
| Text.ParseNatToString | frontend/src/pages/Preview.tsx:40 | reading back the decimal text of a byte count gives the count, so distinct sizes print differently |
| Text.NatToString | backend/services/telegram.go:152 | a byte count prints as a non-empty run of decimal digits without a leading zero |
| Text.Utf8Length | backend/handlers/upload.go:101 | the recorded size of a text is its UTF-8 byte count: between the character count and four times it, and zero only for the empty text |
| AppRoutes.Route | frontend/src/App.tsx:10-11 | the upload page exactly for a non-empty run of '/'; the preview page of `id` exactly when the path is "/s/" in either case of 's', then `id` (non-empty, no '/'), then only slashes |
| AppRoutes.SharePathRoutes | frontend/src/App.tsx:11 | every non-empty id without '/' reaches its preview page at "/s/<id>", also behind "/S/" and trailing slashes |
| ServerRoutes.Param | backend/main.go:44-46 | a `:id` pattern captures exactly the non-empty, slash-free rest of a path after its prefix |
| ServerRoutes.Route | backend/main.go:37-47 | POST "/api/upload" and "/api/text" reach the two upload handlers; GET "/api/file/", "/api/download/" and "/api/preview/" followed by an id reach the info, download and preview handlers for exactly that id |
| SizeFormat.BrowserUnit | frontend/src/components/FileUploader.tsx:75-83 | MB from 1048576 bytes, KB from 1024, bytes below; inclusive boundaries, disjoint tiers, never GB |
| SizeFormat.BrowserFormatFileSize | frontend/src/pages/Preview.tsx:33-41 | below 1 KiB exactly "<n> B"; otherwise two decimals, with no leading zero in the integer part, that read back to the half-up rounding, then the unit; the upload form's copy is the same function |
| Rounding.HalfUp | frontend/src/components/FileUploader.tsx:77 | the integer nearest to n/d, the larger on a tie, as `toFixed` (on hundredths) and `Math.round` (on percentages) round |
| Rounding.HalfUpMonotone | frontend/src/api/index.ts:50 | a larger numerator never rounds lower |
| Rounding.HalfUpBounded | frontend/src/api/index.ts:50 | a numerator of at most k·d rounds to at most k, and exactly k·d rounds to k |
| SizeFormat.GoUnit | backend/services/telegram.go:137-154 | GB from 1 GiB, MB from 1 MiB, KB from 1 KiB, bytes below, with inclusive boundaries |
| Rounding.HalfEven | backend/services/telegram.go:146 | the integer nearest to n/d, the even one on a tie, as Go's `%.2f` rounds hundredths |
| SizeFormat.GoFormatFileSize | backend/services/telegram.go:137-154 | below 1 KiB exactly "<n> B"; otherwise two decimals, with no leading zero in the integer part, that read back to the half-even rounding, then the unit |
| SizeFormat.Fixed2 | backend/services/telegram.go:146 | a hundredths count prints with a '.' before exactly two digits and no leading zero before the integer part |
| SizeFormat.Fixed2RoundTrip | backend/services/telegram.go:146-150 | two-decimal text is read back to exactly the hundredths it was printed from |
| SizeFormat.UnitsAgreeBelowGiB | backend/services/telegram.go:144-153 | below 1 GiB the notifier and the browser choose the same unit, and below 1 KiB print the same text |
| SizeFormat.TieRoundingDiffers | backend/services/telegram.go:146 | the digits of the two formatters differ on ties: 1152 bytes gives 1.13 in the browser and 1.12 in Go |
| SizeFormat.BrowserExamples | frontend/src/pages/Preview.tsx:33-41 | 0 gives "0 B", 1023 gives "1023 B", 1536 gives "1.50 KB" and 1048576 gives "1.00 MB" |
| PathExt.ScanExt | backend/services/storage.go:23 | the backward scan of `filepath.Ext` returns a suffix that is empty (the last element has no '.') or a '.' followed by neither '.' nor '/' |
| PathExt.Ext | backend/services/storage.go:23 | the extension is a suffix of the path that is empty when the last element has no '.', and otherwise a '.' followed by neither '.' nor '/' |
| PathExt.ExtUnique | backend/handlers/upload.go:157 | the declarative description fixes the extension: any suffix meeting it is the one `Ext` returns |
| PathExt.ExtOfSuffixed | backend/services/storage.go:23-24 | appending `Ext(name)` to an id without '.' or '/' gives a name whose extension is `Ext(name)` |
| Storage.GetPath | backend/services/storage.go:53-55 | the path is in the upload directory, and the stored name is the id followed by the extension |
| Storage.StoredIdOfName | backend/services/storage.go:22-25 | a generated id (no '.' or '/') is read back from its stored name as the part before the first '.' |
| Storage.GetPathKeepsExtension | backend/services/storage.go:53-55 | for a generated id the stored name's extension is exactly the given extension |
| Storage.GetPathDistinct | backend/services/storage.go:22-25 | two distinct generated ids never share a stored file, whatever their extensions |
| Storage.Save | backend/services/storage.go:21-39 | succeeds iff create and copy succeed; then the path is `GetPath(dir, id, Ext(filename))`; otherwise id and path are both empty |
| Storage.SaveText | backend/services/storage.go:41-51 | succeeds iff the write succeeds; then the path is `GetPath(dir, id, ".txt")`; otherwise id and path are both empty |
| Storage.SavedKeepsExtension | backend/services/storage.go:22-25 | the stored file's extension equals the uploaded filename's extension |
| Storage.SavedTextIsTxt | backend/services/storage.go:43 | a stored text's name always has extension ".txt" |
| Handlers.FormFile | backend/handlers/upload.go:32 | a file is found iff some entry under the key is a file part, and it is the first such part |
| Handlers.PostForm | backend/handlers/upload.go:44 | the description is "" when no plain value is sent under the key, and otherwise the first value sent under it |
| Handlers.Insert | backend/handlers/upload.go:67 | the insert succeeds iff the database answers and the id is new; it adds exactly that row and keeps all others |
| Handlers.ContentTypeOrDefault | backend/handlers/upload.go:52-55 | the stored type is never empty: the declared type when non-empty, otherwise "application/octet-stream" |
| Handlers.UploadFile | backend/handlers/upload.go:31-81 | missing file gives 400 first, size above the limit gives 400 next (the limit itself passes); a disk failure gives 500 "Failed to save file" and a database failure 500 "Failed to save file info"; success iff file, size, disk and database all pass; only success changes the database, starts the notification, and answers id, filename and `BaseURL/s/id` |
| Handlers.UploadText | backend/handlers/upload.go:83-120 | malformed, missing or empty content gives 400; a write failure gives 500 "Failed to save text" and a database failure 500 "Failed to save text info"; success iff write and database pass; then it records "text.txt", "text/plain" and the UTF-8 size, and only then notifies |
| Handlers.Lookup | backend/handlers/upload.go:125 | a record is found iff the read succeeds and the id is stored |
| Handlers.GetFileInfo | backend/handlers/upload.go:122-132 | 404 exactly for an unknown id or a failed read; otherwise the record's JSON, which has no server path |
| Handlers.DownloadFile | backend/handlers/upload.go:134-146 | 404 exactly for an unknown id or a failed read; otherwise the stored bytes as an attachment named by the filename with the recorded type |
| Handlers.IsPreviewable | backend/handlers/upload.go:167-173 | true exactly for .jpg .jpeg .png .gif .webp .pdf .txt |
| Handlers.PreviewFile | backend/handlers/upload.go:148-165 | 404 exactly for an unknown id or a failed read; inline bytes when the filename's extension is previewable, the JSON record otherwise |
| Handlers.PreviewabilityIgnoresType | backend/handlers/upload.go:167-173 | previewability ignores the MIME type and is case-sensitive (".JPG" is not previewable) |
| Handlers.UploadThenInfo | backend/handlers/upload.go:57-70 | after a successful upload, the info endpoint returns the sent name, size, defaulted type and description |
| Handlers.UploadsKeepKeyedById | backend/handlers/upload.go:57-70 | both upload endpoints keep every row stored under its own id |
| Handlers.UploadKeepsOtherRecords | backend/handlers/upload.go:67-70 | an upload never changes a record stored before it |
| Telegram.IsImage | backend/services/telegram.go:163-165 | true exactly for image/jpeg, image/png, image/gif and image/webp |
| Telegram.Description | backend/services/telegram.go:156-161 | never empty: "无" for an empty description, the description itself otherwise |
| Telegram.Message | backend/services/telegram.go:37-49 | the message opens with the heading, has a labelled line for the filename, type, size and description (the placeholder when empty), and ends with the share-URL link |
| Telegram.Caption | backend/services/telegram.go:59-66 | the caption opens with the filename, has a type and size line, and ends with the share URL |
| Telegram.SendFileNotification | backend/services/telegram.go:30-52 | skipped iff the token or chat id is empty; otherwise one message whose link is the record's share URL |
| Telegram.SendFileWithDocument | backend/services/telegram.go:54-73 | skipped iff unconfigured; otherwise a photo iff the type is one of the four image types, else a document, of the stored file, captioned with the share URL |
| Api.ApiBase | frontend/src/api/index.ts:4-14 | `VITE_API_URL` when set; else the page origin when a window exists and the host is not "localhost"; else "http://localhost:8080" |
| Api.Percent | frontend/src/api/index.ts:50 | the nearest whole percentage of loaded/total, the larger on a tie |
| Api.ReportedProgress | frontend/src/api/index.ts:48-53 | a percentage is reported iff the event has a total and a callback was given |
| Api.PercentBounded | frontend/src/api/index.ts:50 | for loaded up to total the percentage is at most 100, and exactly 100 when all is sent |
| Api.PercentMonotone | frontend/src/api/index.ts:50 | more bytes sent never lowers the percentage |
| Api.UploadFileRequest | frontend/src/api/index.ts:37-57 | a multipart POST to base/api/upload, which the server routes to the file upload handler, with a "file" and a "description" entry, tracking progress iff a callback is given |
| Api.UploadTextRequest | frontend/src/api/index.ts:59-65 | a JSON POST of {content, description} to base/api/text, which the server routes to the text handler, without progress |
| Api.FileInfoRequest | frontend/src/api/index.ts:67-70 | a GET of base/api/file/<id>, which the server routes to the info handler for that id |
| Api.DownloadUrl | frontend/src/api/index.ts:72-74 | a URL under the base whose path the server routes to the download handler for that id |
| Api.PreviewUrl | frontend/src/api/index.ts:76-78 | a URL under the base whose path the server routes to the preview handler for that id |
| Api.UrlsInjective | frontend/src/api/index.ts:72-78 | different ids give different download URLs and different preview URLs |
| Api.UrlsDiffer | frontend/src/api/index.ts:72-78 | a download URL is never a preview URL |
| Preview.ImageAndTextExclusive | frontend/src/pages/Preview.tsx:48-54 | no type is both an image (prefix "image/") and text ("text/plain") |
| Preview.Strategy | frontend/src/pages/Preview.tsx:97 | image iff the type starts with "image/", text iff it is exactly "text/plain", generic otherwise |
| Preview.FetchOnMount | frontend/src/pages/Preview.tsx:16-20 | a fetch starts iff the route id is present and non-empty, and it is for that id |
| Preview.Settle | frontend/src/pages/Preview.tsx:22-31 | after the fetch, loading is off; success stores the info, failure sets the not-found error |
| Preview.CardFor | frontend/src/pages/Preview.tsx:94-139 | the download link is always shown; the preview URL is the image source iff image and the frame source iff text, never both; the icon follows the strategy; the description row appears iff the description is non-empty |
| Preview.Render | frontend/src/pages/Preview.tsx:56-82 | the spinner while loading; not-found on an error or a missing file; the card exactly when loaded without error |
| Preview.Visit | frontend/src/pages/Preview.tsx:16-31 | with no id the page stays in its initial loading state; with an id, loading ends, the file is the reply, and the error is set exactly when the reply failed |
| Preview.VisitOutcome | frontend/src/pages/Preview.tsx:13-31 | with no id the spinner stays; a successful fetch shows that file's card; a failed fetch shows not-found |
| Uploader.UploadEnabled | frontend/src/components/FileUploader.tsx:172-176 | the button is enabled exactly when no upload runs and the active mode has a payload |
| Uploader.Step | frontend/src/components/FileUploader.tsx:21-72 | an event has at most one effect; only an enabled click sends a request; only a success hands on its response; a click on a disabled button changes nothing |
| Uploader.OnDrag | frontend/src/components/FileUploader.tsx:21-29 | enter and over light the drop zone, leave dims it, nothing else changes |
| Uploader.OnDrop | frontend/src/components/FileUploader.tsx:31-39 | a drop dims the zone; with files it stages the first one and forces file mode; with none nothing else changes |
| Uploader.OnPick | frontend/src/components/FileUploader.tsx:41-45 | picking stages the first file and leaves the mode unchanged; an empty pick changes nothing |
| Uploader.Begin | frontend/src/components/FileUploader.tsx:47-60 | progress restarts at 0; uploading iff the active mode has a payload; the file is sent with a progress callback, the text without one; with no payload, an alert and no request; staged data is untouched |
| Uploader.OnProgress | frontend/src/components/FileUploader.tsx:55 | only a file transfer's events with a total move the progress, to their percentage |
| Uploader.OnSuccess | frontend/src/components/FileUploader.tsx:62-66 | the response is delivered once, then file, text and description of both modes are cleared and progress is 0 |
| Uploader.OnFailure | frontend/src/components/FileUploader.tsx:67-72 | an alert; uploading ends; nothing staged is cleared |
| Uploader.StepPreservesConsistent | frontend/src/components/FileUploader.tsx:47-72 | every event keeps the invariant: uploading iff a request is awaited, progress at most 100, and 0 during a text transfer |
| Uploader.SwitchTabKeepsData | frontend/src/components/FileUploader.tsx:88-101 | a tab switch changes only the mode, even while uploading |
| Uploader.ClickStartsIffEnabled | frontend/src/components/FileUploader.tsx:172-176 | a click starts a request iff the button is enabled; the request is the active mode's payload, and the button is disabled afterwards |
| Uploader.SelectionIsFileMode | frontend/src/components/FileUploader.tsx:104-117 | any drop or pick the page can deliver leaves the chosen file staged in file mode |
| Uploader.StepBalance | frontend/src/components/FileUploader.tsx:47-72 | one event sends at most one request, and only when none is awaited; a send adds one awaited request, a settlement removes it |
| Uploader.InitialConsistent | frontend/src/components/FileUploader.tsx:13-19 | the fresh form is idle, at 0%, with no request awaited |
| Uploader.RunBalance | frontend/src/components/FileUploader.tsx:47-72 | over any run, requests sent plus those pending at the start equal settlements plus those pending at the end: each request ends exactly once |
| Uploader.FreshFormBalance | frontend/src/components/FileUploader.tsx:47-72 | from a fresh form, every request sent has settled except at most the one still awaited |
| Uploader.SuccessDeliversOnceAndClears | frontend/src/components/FileUploader.tsx:62-66 | a success delivers exactly one response, clears everything, and leaves the button disabled |
| Uploader.FailureKeepsPayload | frontend/src/components/FileUploader.tsx:67-72 | a failure keeps the payload, so the button is enabled again for a retry |
| Uploader.TextUploadScenario | frontend/src/components/FileUploader.tsx:47-72 | from a fresh form, text tab, "hello", a note, a click and a success: one text request with those values, one delivery, and an empty form left on the text tab |
| I18n.Translate | frontend/src/i18n/index.tsx:23-25 | the entry of the current language when non-empty, else the key itself |
| I18n.TablesComplete | frontend/src/i18n/translations.ts:1-92 | both shipped tables fill every key, so the lookup never falls back |
| I18n.InitialLanguage | frontend/src/i18n/index.tsx:13-17 | a stored "en" or "zh" wins; otherwise Chinese iff the browser language starts with "zh" |
| I18n.Persist | frontend/src/i18n/index.tsx:19-21 | the language code is stored under "language"; the store gains no other key and no other entry changes |
| I18n.Mount | frontend/src/i18n/index.tsx:13-21 | after mounting, state and storage hold the same language; a stored supported code is kept; only the "language" entry is added or changed |
| I18n.SetLang | frontend/src/i18n/index.tsx:19-21 | after `setLang(l)`, state and storage hold `l`, and no other stored entry changes |
| I18n.SetLangSurvivesReload | frontend/src/i18n/index.tsx:13-21 | after `setLang(l)` a reload starts in `l`, whatever the browser language |
| I18n.MountIsStable | frontend/src/i18n/index.tsx:13-21 | reloading keeps the first chosen language even if the browser language changes |
| I18n.UnknownSavedIgnored | frontend/src/i18n/index.tsx:14-16 | a stored value other than "en"/"zh" is treated as absent |
| Integration.TextUploadPreviewsAsText | backend/handlers/upload.go:96-104 | a text upload's record resolves to the text strategy on the page and is served inline by the preview endpoint |
| Integration.PhotoTypesAreImages | backend/services/telegram.go:163-165 | every type sent as a photo is an image to the page; "image/svg+xml" is an image to the page but is sent as a document |
| Models.ShareUrl | backend/handlers/upload.go:74 | the share URL starts with BASE_URL, and for an id without '/' the rest is a path the browser routes to that id's preview page |
| Models.ToInfo | backend/models/file.go:5-13 | the JSON form drops the server path and nothing else: the record is recovered from it and its path |
| Integration.FileNotificationLinksShareUrl | backend/services/telegram.go:59-72 | after a file upload, the caption ends with the share URL returned to the browser and attaches the stored file |
| Integration.TextNotificationLinksShareUrl | backend/services/telegram.go:35-51 | after a text upload, the message ends with a link to the share URL returned to the browser |
| Integration.BrowserUploadReachesHandler | frontend/src/api/index.ts:42-46 | the handler reads the browser's form as the same file and description; it never answers "No file uploaded"; it succeeds iff size, disk and database pass |
| Integration.FormTextUploadAccepted | frontend/src/components/FileUploader.tsx:56-57 | a text upload started by the form has non-empty content, so the server never rejects it as invalid |
| Integration.StoredNameAgreesWithFilename | backend/handlers/upload.go:157-158 | the stored file has the recorded filename's extension, so the two give the same previewability |
| Integration.VisitSharedFile | frontend/src/pages/Preview.tsx:22-31 | following a share link shows the card with the download link for a known id, and not-found for an unknown id or a failed read |

## Left out

- Disk, SQLite, HTTP and the Telegram API are not modelled. Each is an
  outcome passed in as a parameter. The database is a map from id to
  record. The Telegram reply and its error are dropped, because the handler
  starts the send in the background and ignores it.
- `filepath.Join` and its path cleaning are not modelled. A stored path is
  kept as its (upload directory, stored name) pair.
- Uuid generation, `time.Now` and the date shown on the preview page
  (`formatDate`) are not modelled. Ids and timestamps are parameters.
- The configuration loader (`backend/config/config.go`) is not part of this
  model. The base URL, size limit, upload directory and bot settings are
  parameters. `Handlers.DefaultMaxFileSize` records the default limit.
- CORS, the `/api/health` handler and the static `/uploads` directory
  (`backend/main.go`), the upload page's clipboard and its 2-second
  "copied" timer, the language switcher, markup and CSS are not modelled.
- ServerRoutes.Route: gin's redirect of a path with a trailing slash to
  the path without it is not modelled; such a path matches no route here.
- AppRoutes.Route: react-router's percent-decoding of the captured `id`
  is not modelled; the id is the path segment as written. Upload ids are
  uuids, which need no decoding.
- JSON and multipart encoding are not modelled. The browser's multipart
  part is taken to carry the file's name, size and type unchanged. A
  browser sends "application/octet-stream" for a file of unknown type, so
  in practice the handler's own default applies only to other clients.
- Concurrency is not modelled. The background notification is the job it
  would start, and React's batching is the combined state after each
  handler.
- Api.Percent: computed on exact rationals. `Math.round` of the
  floating-point quotient agrees with it while 100*loaded is below 2^53 and
  the total is below about 3*10^13 bytes.
- SizeFormat.BrowserFormatFileSize: assumes byte counts below 2^53, where
  the quotient is an exact binary fraction.
- SizeFormat.GoFormatFileSize: sizes are naturals. The negative `int64`
  sizes Go could print with a minus sign never come from an upload. It
  also assumes sizes below 2^53: above that `float64(size)` itself rounds
  before the division, which the exact quotient here does not model.
- Telegram.SendFileNotification and Telegram.SendFileWithDocument: the
  Markdown parse mode and multipart field names of the outgoing HTTP
  requests are not modelled.
- Preview.Render: the language switcher, back links and labels on the page
  are not modelled. Labels come from `I18n.Translate`.
