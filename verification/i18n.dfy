/** Language selection and label lookup (frontend/src/i18n/index.tsx)
    with the shipped tables (frontend/src/i18n/translations.ts).
    `localStorage` is a string map; the browser language is a parameter. */
module I18n {

  import opened Wrappers
  import opened Text

  datatype Language = En | Zh {
    /** The stored code. */
    function Code(): string {
      match this
      case En => "en"
      case Zh => "zh"
    }
  }

  /** The keys of the English table (`TranslationKey`). */
  datatype Key =
    | Title
    | Subtitle
    | FileUpload
    | TextUpload
    | DropMessage
    | OrClick
    | DescriptionPlaceholder
    | TextPlaceholder
    | UploadBtn
    | Uploading
    | UploadSuccess
    | CopyLink
    | Copied
    | OpenPreview
    | FileNotFound
    | FileNotFoundDesc
    | BackToUpload
    | Loading
    | FileName
    | FileType
    | FileSize
    | UploadTime
    | Description
    | DownloadFile
    | UploadAnother
    | LanguageLabel

  /** The key as written in the tables; `t` falls back to it. */
  function KeyName(key: Key): string {
    match key
    case Title => "title"
    case Subtitle => "subtitle"
    case FileUpload => "fileUpload"
    case TextUpload => "textUpload"
    case DropMessage => "dropMessage"
    case OrClick => "orClick"
    case DescriptionPlaceholder => "descriptionPlaceholder"
    case TextPlaceholder => "textPlaceholder"
    case UploadBtn => "uploadBtn"
    case Uploading => "uploading"
    case UploadSuccess => "uploadSuccess"
    case CopyLink => "copyLink"
    case Copied => "copied"
    case OpenPreview => "openPreview"
    case FileNotFound => "fileNotFound"
    case FileNotFoundDesc => "fileNotFoundDesc"
    case BackToUpload => "backToUpload"
    case Loading => "loading"
    case FileName => "fileName"
    case FileType => "fileType"
    case FileSize => "fileSize"
    case UploadTime => "uploadTime"
    case Description => "description"
    case DownloadFile => "downloadFile"
    case UploadAnother => "uploadAnother"
    case LanguageLabel => "language"
  }

  function English(key: Key): string {
    match key
    case Title => "CYBER SHARE"
    case Subtitle => "Upload files, images, or text • Share via Telegram"
    case FileUpload => "FILE UPLOAD"
    case TextUpload => "TEXT UPLOAD"
    case DropMessage => "Drag & drop file here"
    case OrClick => "or click to select"
    case DescriptionPlaceholder => "Description (optional)"
    case TextPlaceholder => "Enter your text content here..."
    case UploadBtn => "UPLOAD"
    case Uploading => "UPLOADING..."
    case UploadSuccess => "UPLOAD SUCCESSFUL"
    case CopyLink => "COPY"
    case Copied => "COPIED!"
    case OpenPreview => "OPEN PREVIEW"
    case FileNotFound => "FILE NOT FOUND"
    case FileNotFoundDesc => "The file you're looking for doesn't exist or has been removed."
    case BackToUpload => "BACK TO UPLOAD"
    case Loading => "LOADING..."
    case FileName => "FILE NAME"
    case FileType => "TYPE"
    case FileSize => "SIZE"
    case UploadTime => "UPLOADED"
    case Description => "DESCRIPTION"
    case DownloadFile => "DOWNLOAD FILE"
    case UploadAnother => "Upload Another File"
    case LanguageLabel => "Language"
  }

  function Chinese(key: Key): string {
    match key
    case Title => "赛博传送"
    case Subtitle => "上传文件、图片或文字 • 通过 Telegram 分享"
    case FileUpload => "文件上传"
    case TextUpload => "文本上传"
    case DropMessage => "拖拽文件到此处"
    case OrClick => "或点击选择文件"
    case DescriptionPlaceholder => "描述 (可选)"
    case TextPlaceholder => "在此输入文本内容..."
    case UploadBtn => "上传"
    case Uploading => "上传中..."
    case UploadSuccess => "上传成功"
    case CopyLink => "复制"
    case Copied => "已复制!"
    case OpenPreview => "打开预览"
    case FileNotFound => "文件未找到"
    case FileNotFoundDesc => "您访问的文件不存在或已被删除。"
    case BackToUpload => "返回上传"
    case Loading => "加载中..."
    case FileName => "文件名"
    case FileType => "类型"
    case FileSize => "大小"
    case UploadTime => "上传时间"
    case Description => "描述"
    case DownloadFile => "下载文件"
    case UploadAnother => "上传另一个文件"
    case LanguageLabel => "语言"
  }

  /** `translations[lang][key]`. */
  function Entry(lang: Language, key: Key): string {
    match lang
    case En => English(key)
    case Zh => Chinese(key)
  }

  /** `t(key)`: the current language's entry, or the key itself when that
      entry is empty. */
  function Translate(lang: Language, key: Key): (r: string)
    ensures Entry(lang, key) != "" ==> r == Entry(lang, key)
    ensures Entry(lang, key) == "" ==> r == KeyName(key)
    ensures r != ""
  {
    if Entry(lang, key) != "" then Entry(lang, key) else KeyName(key)
  }

  /** Both shipped tables fill every key, so `t` never shows a raw key. */
  lemma TablesComplete(lang: Language, key: Key)
    ensures Entry(lang, key) != ""
    ensures Translate(lang, key) == Entry(lang, key)
  {
  }

  const StorageKey := "language"

  /** `localStorage`. */
  type Store = map<string, string>

  /** The language chosen when the provider mounts: a stored "en" or "zh"
      wins; otherwise Chinese exactly when the browser language starts with
      "zh". */
  function InitialLanguage(saved: Option<string>, browserLanguage: string): (l: Language)
    ensures saved == Some("en") ==> l == En
    ensures saved == Some("zh") ==> l == Zh
    ensures saved != Some("en") && saved != Some("zh") ==> (l == Zh <==> StartsWith(browserLanguage, "zh"))
  {
    if saved == Some("en") then En
    else if saved == Some("zh") then Zh
    else if StartsWith(browserLanguage, "zh") then Zh
    else En
  }

  function Load(store: Store): Option<string> {
    if StorageKey in store then Some(store[StorageKey]) else None
  }

  datatype I18nState = I18nState(lang: Language, store: Store)

  /** The effect run after every change of `lang` (and on mount): the code
      is written under "language"; no other entry changes. */
  function Persist(lang: Language, store: Store): (r: Store)
    ensures Load(r) == Some(lang.Code())
    ensures r.Keys == store.Keys + {StorageKey}
    ensures forall k :: k in store && k != StorageKey ==> r[k] == store[k]
  {
    store[StorageKey := lang.Code()]
  }

  /** The language held in state is the one stored under "language". */
  predicate Synced(st: I18nState) {
    Load(st.store) == Some(st.lang.Code())
  }

  /** Mounting the provider: choose the language, then persist it. A stored
      supported code is kept; the store gains only the "language" entry. */
  function Mount(store: Store, browserLanguage: string): (st: I18nState)
    ensures Synced(st)
    ensures forall l: Language :: Load(store) == Some(l.Code()) ==> st.lang == l
    ensures st.store.Keys == store.Keys + {StorageKey}
    ensures forall k :: k in store && k != StorageKey ==> st.store[k] == store[k]
  {
    var lang := InitialLanguage(Load(store), browserLanguage);
    I18nState(lang, Persist(lang, store))
  }

  /** `setLang` followed by its effect: the chosen language is in state and
      in storage, and no other stored entry changes. */
  function SetLang(st: I18nState, lang: Language): (r: I18nState)
    ensures r.lang == lang && Synced(r)
    ensures r.store.Keys == st.store.Keys + {StorageKey}
    ensures forall k :: k in st.store && k != StorageKey ==> r.store[k] == st.store[k]
  {
    I18nState(lang, Persist(lang, st.store))
  }

  /** A language chosen by the user survives a reload, whatever the
      browser's own language. */
  lemma SetLangSurvivesReload(st: I18nState, lang: Language, browserLanguage: string)
    ensures Mount(SetLang(st, lang).store, browserLanguage).lang == lang
  {
  }

  /** Reloading keeps the language first chosen, even if the browser's
      language has changed since. */
  lemma MountIsStable(store: Store, b1: string, b2: string)
    ensures Mount(Mount(store, b1).store, b2).lang == Mount(store, b1).lang
  {
  }

  /** The result is always one of the two supported languages, and a stored
      value other than "en"/"zh" is ignored. */
  lemma UnknownSavedIgnored(saved: string, browserLanguage: string)
    requires saved != "en" && saved != "zh"
    ensures InitialLanguage(Some(saved), browserLanguage) == InitialLanguage(None, browserLanguage)
  {
  }
}
