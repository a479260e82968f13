/**
 * The handlers of `ai_telegram_bot/handlers/addposts.py` whose code differs
 * from the other variant: the entry command, which accepts a channel given
 * by name, the `.txt` format of `Пост:` blocks, and the "done" button.
 */
module BotAddPosts {
  import opened Wrappers
  import opened Database
  import opened DatabaseStore
  import opened PostFormats
  import opened PostImport
  import opened Session
  import opened AddPostsCommon

  /**
   * `addposts_command`: ends without a selected channel; otherwise, with a
   * row or a name alike, offers the two ways of adding posts.
   */
  method AddpostsCommand(ctx: Context) returns (next: Next)
    ensures ctx.userData.selectedChannel.None? ==> next == End
    ensures ctx.userData.selectedChannel.Some? ==> next == ChoosingMethod
  {
    if ctx.userData.selectedChannel.None? {
      return End;
    }
    next := ChoosingMethod;
  }

  /**
   * `done_manual_button` as written: it replies through `update.message`,
   * which a button press does not carry, so the handler raises and the
   * conversation stays in MANUAL_INPUT instead of ending.
   */
  function DoneManualButtonAsWritten(u: Update): (next: Next)
    ensures FromButton(u) ==> next == Raised(AttributeError) && DoneManualButton(u) == End
  {
    if u.callbackQuery.None? then Raised(AttributeError)
    else if u.message.None? then Raised(AttributeError)
    else End
  }

  /** The entries an uploaded file yields: `Пост:` blocks for `.txt`, rows for `.csv`. */
  function Uploaded(d: Document, kind: FileKind): seq<Entry> {
    if kind == TxtFile then BlockEntries(Blocks(d.text)) else RowEntries(d.rows)
  }

  /**
   * `handle_file`: the `.txt` blocks or the `.csv` rows saved one by one as
   * posts of the selected channel, `saved` counting them. A missing channel
   * key, a missing file name or a channel given by name raise; a missing
   * document or another extension asks again; a failed insert stores
   * nothing, since the channel never exists for a later entry either.
   */
  method HandleFile(ctx: Context, db: Store, doc: Option<Document>) returns (next: Next, saved: nat)
    modifies db
    ensures match ctx.userData.selectedChannel
      case None => next == Raised(KeyError) && unchanged(db)
      case Some(ref) =>
        match doc
        case None => next == FileInput && unchanged(db)
        case Some(d) =>
          match d.fileName
          case None => next == Raised(AttributeError) && unchanged(db)
          case Some(name) =>
            if KindOf(name) == OtherFile then next == FileInput && unchanged(db)
            else match ref
              case Name(_) => next == Raised(TypeError) && unchanged(db)
              case Record(c) =>
                var entries := Uploaded(d, KindOf(name));
                var r := SaveEntries(old(db.Contents()), c.channelId, entries);
                && (r.None? ==> next == Raised(IntegrityError) && unchanged(db))
                && (r.Some? ==> next == End && db.Contents() == r.value && saved == |entries|)
  {
    saved := 0;
    if ctx.userData.selectedChannel.None? {
      return Raised(KeyError), 0;
    }
    var ref := ctx.userData.selectedChannel.value;
    if doc.None? {
      return FileInput, 0;
    }
    var d := doc.value;
    if d.fileName.None? {
      return Raised(AttributeError), 0;
    }
    var kind := KindOf(d.fileName.value);
    if kind == OtherFile {
      return FileInput, 0;
    }
    if ref.Name? {
      return Raised(TypeError), 0;
    }
    var channelId := ref.channel.channelId;
    ghost var t0 := db.Contents();
    var ok: bool;
    if kind == TxtFile {
      ghost var items := BlockItems(Blocks(d.text));
      saved, ok := SaveBlocks(db, channelId, Blocks(d.text));
      SavedBatch(t0, db.Contents(), channelId, items, saved, ok);
      BlockItemsPresent(Blocks(d.text));
    } else {
      ghost var items := RowItems(d.rows);
      saved, ok := SaveRows(db, channelId, d.rows);
      SavedBatch(t0, db.Contents(), channelId, items, saved, ok);
      RowItemsPresent(d.rows);
    }
    if !ok {
      return Raised(IntegrityError), saved;
    }
    next := End;
  }
}
