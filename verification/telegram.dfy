/** Notification decisions of the Telegram service
    (backend/services/telegram.go). The HTTP calls are represented by the
    request they would send; their replies and errors are not modelled,
    since the handler starts them in the background and ignores the result. */
module Telegram {

  import opened Models
  import opened Text
  import SizeFormat

  datatype Bot = Bot(botToken: string, chatId: string, baseUrl: string)

  /** What a notification entry point does. */
  datatype Dispatch =
    | Skipped
    | SendMessage(text: string)
    | SendPhoto(path: DiskPath, caption: string)
    | SendDocument(path: DiskPath, caption: string)

  /** Both the token and the chat id are set. */
  predicate Configured(bot: Bot) {
    bot.botToken != "" && bot.chatId != ""
  }

  /** The four types sent with `sendPhoto`. */
  const PhotoTypes: set<string> := {"image/jpeg", "image/png", "image/gif", "image/webp"}

  /** `isImage` of the notifier: an exact match against four types. */
  function IsImage(mimeType: string): (b: bool)
    ensures b <==> mimeType in PhotoTypes
  {
    mimeType == "image/jpeg" || mimeType == "image/png" || mimeType == "image/gif" || mimeType == "image/webp"
  }

  /** `getDescription`: a placeholder for an empty description. */
  function Description(desc: string): (r: string)
    ensures r != ""
    ensures desc != "" ==> r == desc
    ensures desc == "" ==> r == "无"
  {
    if desc == "" then "无" else desc
  }

  const MessageHead := "\U{1F4C1} *新文件上传*\n\n"

  /** The Markdown message of `SendFileNotification`: a heading, one
      labelled line per field, and the share link last. */
  function Message(bot: Bot, rec: FileRecord): (text: string)
    ensures StartsWith(text, MessageHead)
    ensures Contains(text, "\U{1F4C4} 文件名: `" + rec.filename + "`\n")
    ensures Contains(text, "\U{1F4CA} 类型: `" + rec.filetype + "`\n")
    ensures Contains(text, "\U{1F4E6} 大小: `" + SizeFormat.GoFormatFileSize(rec.filesize) + "`\n")
    ensures Contains(text, "\U{1F4DD} 描述: " + Description(rec.description) + "\n\n")
    ensures EndsWith(text, "(" + ShareUrl(bot.baseUrl, rec.id) + ")")
  {
    var name := "\U{1F4C4} 文件名: `" + rec.filename + "`\n";
    var kind := "\U{1F4CA} 类型: `" + rec.filetype + "`\n";
    var size := "\U{1F4E6} 大小: `" + SizeFormat.GoFormatFileSize(rec.filesize) + "`\n";
    var desc := "\U{1F4DD} 描述: " + Description(rec.description) + "\n\n";
    var link := "\U{1F517} [点击查看]" + ("(" + ShareUrl(bot.baseUrl, rec.id) + ")");
    var s1 := MessageHead + name;
    var s2 := s1 + kind;
    var s3 := s2 + size;
    var s4 := s3 + desc;
    assert MessageHead[..|MessageHead|] == MessageHead;
    StartsGrow(MessageHead, MessageHead, name);
    StartsGrow(s1, MessageHead, kind);
    StartsGrow(s2, MessageHead, size);
    StartsGrow(s3, MessageHead, desc);
    StartsGrow(s4, MessageHead, link);
    ContainsEnd(MessageHead, name);
    ContainsGrow(s1, name, kind);
    ContainsGrow(s2, name, size);
    ContainsGrow(s3, name, desc);
    ContainsGrow(s4, name, link);
    ContainsEnd(s1, kind);
    ContainsGrow(s2, kind, size);
    ContainsGrow(s3, kind, desc);
    ContainsGrow(s4, kind, link);
    ContainsEnd(s2, size);
    ContainsGrow(s3, size, desc);
    ContainsGrow(s4, size, link);
    ContainsEnd(s3, desc);
    ContainsGrow(s4, desc, link);
    EndsNested(s4, "\U{1F517} [点击查看]", "(" + ShareUrl(bot.baseUrl, rec.id) + ")");
    s4 + link
  }

  /** The caption of `SendFileWithDocument`: the file name first, then its
      type and size, and the share link last. */
  function Caption(bot: Bot, rec: FileRecord): (caption: string)
    ensures StartsWith(caption, "\U{1F4C1} " + rec.filename + "\n")
    ensures Contains(caption, "\U{1F4CA} " + rec.filetype + " | \U{1F4E6} "
                              + SizeFormat.GoFormatFileSize(rec.filesize) + "\n")
    ensures EndsWith(caption, ShareUrl(bot.baseUrl, rec.id))
  {
    var name := "\U{1F4C1} " + rec.filename + "\n";
    var kind := "\U{1F4CA} " + rec.filetype + " | \U{1F4E6} " + SizeFormat.GoFormatFileSize(rec.filesize) + "\n";
    var link := "\U{1F517} " + ShareUrl(bot.baseUrl, rec.id);
    assert name[..|name|] == name;
    StartsGrow(name, name, kind);
    StartsGrow(name + kind, name, link);
    ContainsEnd(name, kind);
    ContainsGrow(name + kind, kind, link);
    EndsNested(name + kind, "\U{1F517} ", ShareUrl(bot.baseUrl, rec.id));
    name + kind + link
  }

  /** `SendFileNotification`: nothing without a bot, otherwise a message
      whose link is the record's share URL. */
  function SendFileNotification(bot: Bot, rec: FileRecord): (d: Dispatch)
    ensures d.Skipped? <==> !Configured(bot)
    ensures Configured(bot) ==> d.SendMessage? && EndsWith(d.text, "(" + ShareUrl(bot.baseUrl, rec.id) + ")")
  {
    if !Configured(bot) then Skipped
    else
      SendMessage(Message(bot, rec))
  }

  /** `SendFileWithDocument`: nothing without a bot; otherwise the stored
      file goes out as a photo exactly when its type is one of the four
      image types, as a document otherwise, captioned with the share URL. */
  function SendFileWithDocument(bot: Bot, rec: FileRecord): (d: Dispatch)
    ensures d.Skipped? <==> !Configured(bot)
    ensures Configured(bot) ==> (d.SendPhoto? <==> rec.filetype in PhotoTypes)
    ensures Configured(bot) ==> (d.SendDocument? <==> rec.filetype !in PhotoTypes)
    ensures !d.Skipped? && !d.SendMessage? ==> d.path == rec.filepath && EndsWith(d.caption, ShareUrl(bot.baseUrl, rec.id))
  {
    if !Configured(bot) then Skipped
    else
      var caption := Caption(bot, rec);
      if IsImage(rec.filetype) then SendPhoto(rec.filepath, caption)
      else SendDocument(rec.filepath, caption)
  }
}
