/**
 * The handlers of `src/handlers/start.py`: `/start`, the channel keyboard
 * and the text parser, which here also reads the two keyboard buttons and
 * steps aside for commands and running conversations.
 */
module SrcStart {
  import opened Wrappers
  import opened Text
  import opened Database
  import opened DatabaseStore
  import opened Session

  const ChooseChannelButton: string := "📂 Выбрать канал"
  const AddChannelButton: string := "➕ Добавить канал"

  /**
   * `get_channel_keyboard`: one row per button, "choose" first and only
   * when asked for and the user has channels, "add" always last.
   */
  method GetChannelKeyboard(db: Store, userId: nat, includeChoose: bool := true) returns (rows: seq<string>)
    ensures |rows| >= 1 && rows[|rows| - 1] == AddChannelButton
    ensures ChooseChannelButton in rows <==> includeChoose && ChannelsOf(db.channels, userId) != []
    ensures |rows| == if includeChoose && ChannelsOf(db.channels, userId) != [] then 2 else 1
  {
    var channels := db.GetChannels(userId);
    rows := [];
    if includeChoose && channels != [] {
      rows := rows + [ChooseChannelButton];
    }
    rows := rows + [AddChannelButton];
  }

  /**
   * `start`: registers the user (a known user keeps their row), resets the
   * conversation state and both pending commands, and answers with the
   * channel keyboard of that user. The selected channel is kept.
   */
  method Start(ctx: Context, db: Store, telegramId: int, username: Option<string>) returns (keyboard: seq<string>)
    modifies ctx, db
    ensures db.Contents() == Database.AddUser(old(db.Contents()), telegramId, username).0
    ensures ctx.userData == old(ctx.userData).(state := None, awaitingChannelName := false, awaitingChannelSelection := false)
    ensures var u := Database.AddUser(old(db.Contents()), telegramId, username).1;
      && |keyboard| >= 1 && keyboard[|keyboard| - 1] == AddChannelButton
      && (ChooseChannelButton in keyboard <==> ChannelsOf(db.channels, u.userId) != [])
  {
    var _ := db.AddUser(telegramId, username);
    var dbUser := db.GetUser(telegramId);
    AddUserFinds(old(db.Contents()), telegramId, username);
    keyboard := GetChannelKeyboard(db, dbUser.value.userId);
    ctx.userData := ctx.userData.(state := None, awaitingChannelName := false, awaitingChannelSelection := false);
  }

  /** The texts the parser leaves to the command and conversation handlers. */
  predicate IsCommandText(text: string) {
    StartsWith(text, "/newpost") || StartsWith(text, "/addposts") || StartsWith(text, "/done")
  }

  /** `user_data.get("state") in ["addposts", "newpost"]`. */
  predicate InConversation(d: UserData) {
    d.state == Some("addposts") || d.state == Some("newpost")
  }

  /**
   * `text_parser`: commands and running conversations are left alone;
   * otherwise the stripped text completes a pending channel name, then a
   * pending selection (an unknown name keeps it pending), and then it is
   * read as one of the two buttons. Any use of the user's row raises for
   * an unregistered user.
   */
  method TextParser(ctx: Context, db: Store, telegramId: int, message: string) returns (out: Outcome)
    modifies ctx, db
    ensures var d := old(ctx.userData);
      var text := Strip(message);
      var user := UserByTelegramId(old(db.users), telegramId);
      if IsCommandText(text) || InConversation(d) then
        out == Done && ctx.userData == d && unchanged(db)
      else if d.awaitingChannelName then
        match user
        case None => out == Failed(TypeError) && ctx.userData == d && unchanged(db)
        case Some(u) =>
          && out == Done
          && ctx.userData == d.(awaitingChannelName := false)
          && db.Contents() == AddChannel(old(db.Contents()), u.userId, text).value.0
          && FirstNamed(ChannelsOf(db.channels, u.userId), text).Some?
      else if d.awaitingChannelSelection then
        && unchanged(db)
        && match user
           case None => out == Failed(TypeError) && ctx.userData == d
           case Some(u) =>
             && out == Done
             && match FirstNamed(ChannelsOf(db.channels, u.userId), text)
                case None => ctx.userData == d
                case Some(c) =>
                  ctx.userData == d.(selectedChannel := Some(Record(c)), awaitingChannelSelection := false)
      else if text == AddChannelButton then
        out == Done && ctx.userData == d.(awaitingChannelName := true) && unchanged(db)
      else if text == ChooseChannelButton then
        && unchanged(db)
        && match user
           case None => out == Failed(TypeError) && ctx.userData == d
           case Some(u) =>
             && out == Done
             && ctx.userData == (if ChannelsOf(db.channels, u.userId) == [] then d
                                 else d.(awaitingChannelSelection := true))
      else
        out == Done && ctx.userData == d && unchanged(db)
  {
    var dbUser := db.GetUser(telegramId);
    var text := Strip(message);
    if IsCommandText(text) || InConversation(ctx.userData) {
      return Done;
    }
    if ctx.userData.awaitingChannelName {
      if dbUser.None? {
        return Failed(TypeError);
      }
      var c := db.AddChannel(dbUser.value.userId, text);
      ctx.userData := ctx.userData.(awaitingChannelName := false);
      assert c.value in ChannelsOf(db.channels, dbUser.value.userId);
      var _ := GetChannelKeyboard(db, dbUser.value.userId);
      return Done;
    }
    if ctx.userData.awaitingChannelSelection {
      if dbUser.None? {
        return Failed(TypeError);
      }
      var channels := db.GetChannels(dbUser.value.userId);
      var channel := FirstNamed(channels, text);
      if channel.None? {
        return Done;
      }
      ctx.userData := ctx.userData.(selectedChannel := Some(Record(channel.value)), awaitingChannelSelection := false);
      return Done;
    }
    if text == AddChannelButton {
      ctx.userData := ctx.userData.(awaitingChannelName := true);
      return Done;
    }
    if text == ChooseChannelButton {
      if dbUser.None? {
        return Failed(TypeError);
      }
      var channels := db.GetChannels(dbUser.value.userId);
      if channels == [] {
        return Done;
      }
      ctx.userData := ctx.userData.(awaitingChannelSelection := true);
      return Done;
    }
    out := Done;
  }
}
