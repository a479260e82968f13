/**
 * What the `/addposts` conversations of both variants share: the
 * conversation states, the incoming update and document, and the handlers
 * whose code is the same in `ai_telegram_bot/handlers/addposts.py` and
 * `src/handlers/addposts.py`.
 */
module AddPostsCommon {
  import opened Wrappers
  import opened Text
  import opened Database
  import opened DatabaseStore
  import opened PostFormats
  import opened Session

  /** `CHOOSING_METHOD, MANUAL_INPUT, FILE_INPUT`, `ConversationHandler.END`, or an exception. */
  datatype Next = ChoosingMethod | ManualInput | FileInput | End | Raised(failure: Failure)

  /**
   * The two attributes of a Telegram update the handlers read: the message
   * and the callback query. An update from a button press carries a query
   * and no message; one from a typed message carries a message and no query.
   */
  datatype Update = Update(message: Option<string>, callbackQuery: Option<string>)

  predicate FromButton(u: Update) {
    u.message.None? && u.callbackQuery.Some?
  }

  /**
   * An uploaded document: its file name (Telegram may omit it), its content
   * read as text, and the same content read as CSV rows.
   */
  datatype Document = Document(fileName: Option<string>, text: string, rows: seq<seq<string>>)

  /** Which branch of `handle_file` a file name selects. */
  datatype FileKind = TxtFile | CsvFile | OtherFile

  /** `.endswith(".txt")` is tested before `.endswith(".csv")`. */
  function KindOf(fileName: string): (k: FileKind)
    ensures k == TxtFile <==> EndsWith(fileName, ".txt")
    ensures k == CsvFile <==> !EndsWith(fileName, ".txt") && EndsWith(fileName, ".csv")
  {
    if EndsWith(fileName, ".txt") then TxtFile
    else if EndsWith(fileName, ".csv") then CsvFile
    else OtherFile
  }

  /**
   * `save_manual_post`: the message becomes exactly one post of the selected
   * channel, with the style after the last "\nСтиль:" or the default one, and
   * the conversation stays in MANUAL_INPUT. The channel must be a row: a
   * name cannot be indexed by "channel_id".
   */
  method SaveManualPost(ctx: Context, db: Store, message: string) returns (next: Next)
    modifies db
    ensures match ctx.userData.selectedChannel
      case None => next == Raised(KeyError) && unchanged(db)
      case Some(Name(_)) => next == Raised(TypeError) && unchanged(db)
      case Some(Record(c)) =>
        var e := ManualEntry(message);
        && (!HasChannel(old(db.channels), c.channelId) ==> next == Raised(IntegrityError) && unchanged(db))
        && (HasChannel(old(db.channels), c.channelId) ==>
              && next == ManualInput
              && db.Contents() == AddPost(old(db.Contents()), c.channelId, UserIdea, e.style, e.text).value.0
              && OnePostAdded(old(db.Contents()), db.Contents(), c.channelId, UserIdea, e.style, e.text))
  {
    if ctx.userData.selectedChannel.None? {
      return Raised(KeyError);
    }
    match ctx.userData.selectedChannel.value {
      case Name(_) =>
        return Raised(TypeError);
      case Record(c) =>
        var e := ManualEntry(message);
        AddPostEffect(db.Contents(), c.channelId, UserIdea, e.style, e.text);
        if HasChannel(db.channels, c.channelId) {
          AddPostAddsOne(db.Contents(), c.channelId, UserIdea, e.style, e.text);
        }
        var p := db.AddPost(c.channelId, UserIdea, e.style, e.text);
        if p.None? {
          return Raised(IntegrityError);
        }
        next := ManualInput;
    }
  }

  /** `done_manual`: the `/done` command ends the conversation. */
  function DoneManual(u: Update): (next: Next)
    ensures u.message.Some? ==> next == End
  {
    if u.message.None? then Raised(AttributeError) else End
  }

  /**
   * `done_manual_button` as `src` writes it: the button's query is answered
   * and the reply goes to the query's message; the conversation ends.
   */
  function DoneManualButton(u: Update): (next: Next)
    ensures u.callbackQuery.Some? ==> next == End
  {
    if u.callbackQuery.None? then Raised(AttributeError) else End
  }
}
