/**
 * The handlers of `src/handlers/addposts.py` whose code differs from the
 * other variant: the entry command, which needs a channel row, and the
 * `.txt` format of one post per line.
 */
module SrcAddPosts {
  import opened Wrappers
  import opened Database
  import opened DatabaseStore
  import opened PostFormats
  import opened PostImport
  import opened Session
  import opened AddPostsCommon

  /**
   * `addposts_command`: ends without a selected channel; a row offers the
   * two ways of adding posts, while a name fails on `channel['name']`.
   */
  method AddpostsCommand(ctx: Context) returns (next: Next)
    ensures ctx.userData.selectedChannel.None? ==> next == End
    ensures ctx.userData.selectedChannel.Some? && ctx.userData.selectedChannel.value.Record? ==> next == ChoosingMethod
    ensures ctx.userData.selectedChannel.Some? && ctx.userData.selectedChannel.value.Name? ==> next == Raised(TypeError)
  {
    match ctx.userData.selectedChannel {
      case None => next := End;
      case Some(Record(_)) => next := ChoosingMethod;
      case Some(Name(_)) => next := Raised(TypeError);
    }
  }

  /** The entries an uploaded file yields: non-blank lines for `.txt`, rows for `.csv`. */
  function Uploaded(d: Document, kind: FileKind): seq<Entry> {
    if kind == TxtFile then LineEntries(FileLines(d.text)) else RowEntries(d.rows)
  }

  /**
   * `handle_file`: the `.txt` lines or the `.csv` rows saved one by one as
   * posts of the selected channel, `saved` counting them. A missing channel
   * key, a missing file name or a channel given by name raise; a missing
   * document or another extension asks again; a failed insert stores
   * nothing, since the channel never exists for a later entry either.
   */
  method HandleFile(ctx: Context, db: Store, doc: Option<Document>) returns (next: Next, saved: nat)
    modifies db
    ensures match ctx.userData.selectedChannel
      case None => next == Raised(KeyError) && unchanged(db)
      case Some(ref) =>
        match doc
        case None => next == FileInput && unchanged(db)
        case Some(d) =>
          match d.fileName
          case None => next == Raised(AttributeError) && unchanged(db)
          case Some(name) =>
            if KindOf(name) == OtherFile then next == FileInput && unchanged(db)
            else match ref
              case Name(_) => next == Raised(TypeError) && unchanged(db)
              case Record(c) =>
                var entries := Uploaded(d, KindOf(name));
                var r := SaveEntries(old(db.Contents()), c.channelId, entries);
                && (r.None? ==> next == Raised(IntegrityError) && unchanged(db))
                && (r.Some? ==> next == End && db.Contents() == r.value && saved == |entries|)
  {
    saved := 0;
    if ctx.userData.selectedChannel.None? {
      return Raised(KeyError), 0;
    }
    var ref := ctx.userData.selectedChannel.value;
    if doc.None? {
      return FileInput, 0;
    }
    var d := doc.value;
    if d.fileName.None? {
      return Raised(AttributeError), 0;
    }
    var kind := KindOf(d.fileName.value);
    if kind == OtherFile {
      return FileInput, 0;
    }
    if ref.Name? {
      return Raised(TypeError), 0;
    }
    var channelId := ref.channel.channelId;
    ghost var t0 := db.Contents();
    var ok: bool;
    if kind == TxtFile {
      ghost var items := LineItems(FileLines(d.text));
      saved, ok := SaveLines(db, channelId, FileLines(d.text));
      SavedBatch(t0, db.Contents(), channelId, items, saved, ok);
      LineItemsPresent(FileLines(d.text));
    } else {
      ghost var items := RowItems(d.rows);
      saved, ok := SaveRows(db, channelId, d.rows);
      SavedBatch(t0, db.Contents(), channelId, items, saved, ok);
      RowItemsPresent(d.rows);
    }
    if !ok {
      return Raised(IntegrityError), saved;
    }
    next := End;
  }
}
