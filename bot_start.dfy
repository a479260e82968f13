/**
 * The handlers of `ai_telegram_bot/handlers/start.py`: `/start`, the
 * channel commands and the text parser that completes them. A Telegram
 * user is given by their `telegram_id` (and username); the replies and
 * keyboards are not modelled.
 */
module BotStart {
  import opened Wrappers
  import opened Text
  import opened Database
  import opened DatabaseStore
  import opened Session

  /**
   * `start`: clears the session and registers a user seen for the first
   * time; a known user leaves the tables as they are. Either way the user
   * is registered afterwards.
   */
  method Start(ctx: Context, db: Store, telegramId: int, username: Option<string>)
    modifies ctx, db
    ensures ctx.userData == Cleared
    ensures UserByTelegramId(old(db.users), telegramId).Some? ==> unchanged(db)
    ensures UserByTelegramId(old(db.users), telegramId).None? ==>
      db.Contents() == Database.AddUser(old(db.Contents()), telegramId, username).0
    ensures UserByTelegramId(db.users, telegramId).Some?
  {
    var dbUser := db.GetUser(telegramId);
    ctx.userData := Cleared;
    if dbUser.None? {
      var _ := db.AddUser(telegramId, username);
      AddUserFinds(old(db.Contents()), telegramId, username);
    }
  }

  /** `add_channel_cmd`: the next text is a channel name. */
  method AddChannelCmd(ctx: Context)
    modifies ctx
    ensures ctx.userData == old(ctx.userData).(awaitingChannelName := true)
  {
    ctx.userData := ctx.userData.(awaitingChannelName := true);
  }

  /**
   * `delete_channel_cmd`: an unregistered user raises (`None["user_id"]`);
   * a user without channels is only told so; otherwise the next text names
   * the channel to delete.
   */
  method DeleteChannelCmd(ctx: Context, db: Store, telegramId: int) returns (out: Outcome)
    modifies ctx
    ensures match UserByTelegramId(db.users, telegramId)
      case None => out == Failed(TypeError) && ctx.userData == old(ctx.userData)
      case Some(u) =>
        && out == Done
        && ctx.userData == (if ChannelsOf(db.channels, u.userId) == [] then old(ctx.userData)
                            else old(ctx.userData).(awaitingChannelDeletion := true))
  {
    var dbUser := db.GetUser(telegramId);
    if dbUser.None? {
      return Failed(TypeError);
    }
    var channels := db.GetChannels(dbUser.value.userId);
    out := Done;
    if channels != [] {
      ctx.userData := ctx.userData.(awaitingChannelDeletion := true);
    }
  }

  /** `choose_channel`: as `delete_channel_cmd`, arming the selection instead. */
  method ChooseChannel(ctx: Context, db: Store, telegramId: int) returns (out: Outcome)
    modifies ctx
    ensures match UserByTelegramId(db.users, telegramId)
      case None => out == Failed(TypeError) && ctx.userData == old(ctx.userData)
      case Some(u) =>
        && out == Done
        && ctx.userData == (if ChannelsOf(db.channels, u.userId) == [] then old(ctx.userData)
                            else old(ctx.userData).(awaitingChannelSelection := true))
  {
    var dbUser := db.GetUser(telegramId);
    if dbUser.None? {
      return Failed(TypeError);
    }
    var channels := db.GetChannels(dbUser.value.userId);
    out := Done;
    if channels != [] {
      ctx.userData := ctx.userData.(awaitingChannelSelection := true);
    }
  }

  /** `back_cmd`: clears the session. */
  method BackCmd(ctx: Context)
    modifies ctx
    ensures ctx.userData == Cleared
  {
    ctx.userData := Cleared;
  }

  /**
   * `text_parser`: the stripped text completes whichever command is
   * pending, the channel name first, then a deletion, then a selection.
   * A name is added as a channel of the user, which the user can then
   * select; a deletion or a selection needs one of the user's channels
   * with exactly that name, and keeps waiting otherwise. A deletion raises
   * `IntegrityError` while a post refers to the channel, and the deletion
   * stays pending. Every pending command raises for an unregistered user.
   */
  method TextParser(ctx: Context, db: Store, telegramId: int, message: string) returns (out: Outcome)
    modifies ctx, db
    ensures var d := old(ctx.userData);
      var text := Strip(message);
      match UserByTelegramId(old(db.users), telegramId)
      case None =>
        && out == (if d.awaitingChannelName || d.awaitingChannelDeletion || d.awaitingChannelSelection
                   then Failed(TypeError) else Done)
        && ctx.userData == d && unchanged(db)
      case Some(u) =>
        && (d.awaitingChannelName ==>
              && out == Done
              && ctx.userData == d.(awaitingChannelName := false)
              && db.Contents() == AddChannel(old(db.Contents()), u.userId, text).value.0
              && FirstNamed(ChannelsOf(db.channels, u.userId), text).Some?)
        && (!d.awaitingChannelName && d.awaitingChannelDeletion ==>
              match FirstNamed(ChannelsOf(old(db.channels), u.userId), text)
              case None => out == Done && ctx.userData == d && unchanged(db)
              case Some(c) =>
                match DeleteChannel(old(db.Contents()), u.userId, text)
                case None => out == Failed(IntegrityError) && ctx.userData == d && unchanged(db)
                case Some(t') =>
                  && out == Done
                  && ctx.userData == d.(awaitingChannelDeletion := false)
                  && db.Contents() == t'
                  && FirstNamed(ChannelsOf(db.channels, u.userId), text).None?)
        && (!d.awaitingChannelName && !d.awaitingChannelDeletion && d.awaitingChannelSelection ==>
              && out == Done
              && unchanged(db)
              && match FirstNamed(ChannelsOf(db.channels, u.userId), text)
                 case None => ctx.userData == d
                 case Some(c) =>
                   ctx.userData == d.(selectedChannel := Some(Record(c)), awaitingChannelSelection := false))
        && (!d.awaitingChannelName && !d.awaitingChannelDeletion && !d.awaitingChannelSelection ==>
              out == Done && ctx.userData == d && unchanged(db))
  {
    var dbUser := db.GetUser(telegramId);
    var text := Strip(message);
    if ctx.userData.awaitingChannelName {
      if dbUser.None? {
        return Failed(TypeError);
      }
      var c := db.AddChannel(dbUser.value.userId, text);
      ctx.userData := ctx.userData.(awaitingChannelName := false);
      assert c.value in ChannelsOf(db.channels, dbUser.value.userId);
      return Done;
    }
    if ctx.userData.awaitingChannelDeletion {
      if dbUser.None? {
        return Failed(TypeError);
      }
      var channels := db.GetChannels(dbUser.value.userId);
      var channel := FirstNamed(channels, text);
      if channel.None? {
        return Done;
      }
      var deleted := db.DeleteChannel(dbUser.value.userId, channel.value.name);
      if !deleted {
        return Failed(IntegrityError);
      }
      ctx.userData := ctx.userData.(awaitingChannelDeletion := false);
      return Done;
    }
    if ctx.userData.awaitingChannelSelection {
      if dbUser.None? {
        return Failed(TypeError);
      }
      var channels := db.GetChannels(dbUser.value.userId);
      var channel := FirstNamed(channels, text);
      if channel.None? {
        return Done;
      }
      ctx.userData := ctx.userData.(selectedChannel := Some(Record(channel.value)), awaitingChannelSelection := false);
      return Done;
    }
    out := Done;
  }
}
