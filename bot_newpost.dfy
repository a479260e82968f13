/**
 * The `/newpost` conversation of `ai_telegram_bot/handlers/newpost.py`:
 * CHOOSING_IDEA, then CHOOSING_STYLE, then CONFIRM_DRAFT, and the post is
 * stored only when the draft is confirmed. Each handler is a method over the
 * session and the store that returns the next conversation state.
 */
module BotNewPost {
  import opened Wrappers
  import opened Database
  import opened DatabaseStore
  import opened IdeaParser
  import opened Session
  import BotLlm

  /** `CHOOSING_IDEA, CHOOSING_STYLE, CONFIRM_DRAFT`, `ConversationHandler.END`, or an exception. */
  datatype Next = ChoosingIdea | ChoosingStyle | ConfirmDraft | End | Raised(failure: Failure)

  /** How many recent posts are read as examples. */
  const ExampleLimit: nat := 5

  /** How many examples idea generation needs. */
  const MinExamples: nat := 3

  /**
   * `newpost_command`: resolve the selected channel (storing the row back
   * when it was given by name), read its last five posts, give up with fewer
   * than three, otherwise store generated ideas and offer them.
   */
  method NewpostCommand(ctx: Context, db: Store, llm: string -> string) returns (next: Next)
    modifies ctx
    ensures var d := old(ctx.userData);
      match d.selectedChannel
      case None => next == End && ctx.userData == d
      case Some(ref) =>
        match Resolved(db.channels, ref)
        case None => next == End && ctx.userData == d
        case Some(c) =>
          var posts := LastPosts(db.Contents(), c.channelId, ExampleLimit);
          var kept := d.(selectedChannel := Some(Record(c)));
          if |posts| < MinExamples then next == End && ctx.userData == kept
          else next == ChoosingIdea && ctx.userData == kept.(postIdeas := Some(ParseIdeas(llm(BotLlm.IdeasPrompt(Texts(posts))))))
    ensures next == ChoosingIdea ==> ctx.userData.postIdeas.Some? && 1 <= |ctx.userData.postIdeas.value| <= MaxIdeas
    ensures next == End ==> ctx.userData.postIdeas == old(ctx.userData.postIdeas)
  {
    if ctx.userData.selectedChannel.None? {
      return End;
    }
    var found := ResolveChannel(ctx, db);
    if found.None? {
      return End;
    }
    var channel := found.value;
    var posts := db.GetLastPosts(channel.channelId, ExampleLimit);
    if |posts| < MinExamples {
      return End;
    }
    var ideas := BotLlm.GeneratePostIdeas(llm, Texts(posts));
    ctx.userData := ctx.userData.(postIdeas := Some(ideas));
    next := ChoosingIdea;
  }

  /**
   * `show_styles`: one button per available style (none when the key is
   * absent) and a "back" button; the conversation moves to CHOOSING_STYLE.
   */
  method ShowStyles(ctx: Context) returns (next: Next, buttons: seq<string>)
    ensures next == ChoosingStyle
    ensures var styles := match ctx.userData.availableStyles case Some(s) => s case None => [];
      |buttons| == |styles| + 1 && buttons[..|styles|] == StyleButtons(styles) && buttons[|styles|] == BackToIdeasButton
  {
    var styles := match ctx.userData.availableStyles case Some(s) => s case None => [];
    buttons := StyleButtons(styles) + [BackToIdeasButton];
    next := ChoosingStyle;
  }

  /**
   * `choose_idea`: "custom" asks for a free-text idea and stays; an idea
   * button selects that idea and its styles and shows them.
   */
  method ChooseIdea(ctx: Context, data: string) returns (next: Next)
    modifies ctx
    ensures var d := old(ctx.userData);
      if data == CustomButton then next == ChoosingIdea && ctx.userData == d.(customIdea := true)
      else match SelectIdea(d.postIdeas, data)
        case Err(f) => next == Raised(f) && ctx.userData == d
        case Ok(rec) => next == ChoosingStyle && ctx.userData == d.(selectedIdea := Some(rec.idea), availableStyles := Some(rec.styles))
  {
    if data == CustomButton {
      ctx.userData := ctx.userData.(customIdea := true);
      return ChoosingIdea;
    }
    match SelectIdea(ctx.userData.postIdeas, data) {
      case Err(f) =>
        return Raised(f);
      case Ok(rec) =>
        ctx.userData := ctx.userData.(selectedIdea := Some(rec.idea), availableStyles := Some(rec.styles));
        var _, _ := ShowStyles(ctx);
        next := ChoosingStyle;
    }
  }

  /**
   * `custom_idea_input`: ends unless a free-text idea was asked for; an
   * empty text asks again; otherwise the stripped text becomes the idea with
   * the fixed style triad.
   */
  method CustomIdeaInput(ctx: Context, text: string) returns (next: Next)
    modifies ctx
    ensures var d := old(ctx.userData);
      if !d.customIdea then next == End && ctx.userData == d
      else if Text.Strip(text) == [] then next == ChoosingIdea && ctx.userData == d
      else next == ChoosingStyle && ctx.userData == d.(selectedIdea := Some(Text.Strip(text)), availableStyles := Some(CustomStyles))
  {
    if !ctx.userData.customIdea {
      return End;
    }
    var idea := Text.Strip(text);
    if idea == [] {
      return ChoosingIdea;
    }
    ctx.userData := ctx.userData.(selectedIdea := Some(idea), availableStyles := Some(CustomStyles));
    var _, _ := ShowStyles(ctx);
    next := ChoosingStyle;
  }

  /** `back_to_ideas`: the stored ideas offered again, nothing changed. */
  method BackToIdeas(ctx: Context) returns (next: Next, buttons: seq<string>)
    ensures next == ChoosingIdea
    ensures buttons == IdeaButtons(match ctx.userData.postIdeas case Some(i) => i case None => [])
  {
    var ideas := match ctx.userData.postIdeas case Some(i) => i case None => [];
    buttons := IdeaButtons(ideas);
    next := ChoosingIdea;
  }

  /**
   * `choose_style`: record the style, resolve the channel (an absent key is
   * looked up as the name "None"), and store a draft written from the last
   * five posts; nothing is persisted yet.
   */
  method ChooseStyle(ctx: Context, db: Store, llm: string -> string, data: string) returns (next: Next)
    modifies ctx
    ensures var d := old(ctx.userData);
      var style := ChosenStyle(data);
      var styled := d.(selectedStyle := Some(style));
      match Resolved(db.channels, RefOf(d.selectedChannel))
      case None => next == End && ctx.userData == styled
      case Some(c) =>
        var kept := styled.(selectedChannel := Some(Record(c)));
        match d.selectedIdea
        case None => next == Raised(KeyError) && ctx.userData == kept
        case Some(idea) =>
          var posts := LastPosts(db.Contents(), c.channelId, ExampleLimit);
          next == ConfirmDraft
          && ctx.userData == kept.(draftPost := Some(BotLlm.GeneratePostDraft(llm, c.name, idea, style, Texts(posts))))
  {
    var style := ChosenStyle(data);
    ctx.userData := ctx.userData.(selectedStyle := Some(style));
    var found := ResolveChannel(ctx, db);
    if found.None? {
      return End;
    }
    var channel := found.value;
    if ctx.userData.selectedIdea.None? {
      return Raised(KeyError);
    }
    var idea := ctx.userData.selectedIdea.value;
    var posts := db.GetLastPosts(channel.channelId, ExampleLimit);
    var draft := BotLlm.GeneratePostDraft(llm, channel.name, idea, style, Texts(posts));
    ctx.userData := ctx.userData.(draftPost := Some(draft));
    next := ConfirmDraft;
  }

  /** `back_to_styles`: the styles offered again, nothing changed. */
  method BackToStyles(ctx: Context) returns (next: Next, buttons: seq<string>)
    ensures next == ChoosingStyle
    ensures var styles := match ctx.userData.availableStyles case Some(s) => s case None => [];
      |buttons| == |styles| + 1 && buttons[..|styles|] == StyleButtons(styles) && buttons[|styles|] == BackToIdeasButton
  {
    next, buttons := ShowStyles(ctx);
  }

  /** The row `confirm_draft` is about to insert. */
  datatype DraftRow = DraftRow(channelId: nat, idea: string, style: string, text: string)

  /**
   * What `confirm_draft` reads from the session, failing as Python does: a
   * missing key is a `KeyError`, a name no channel carries an `IndexError`
   * (the row is looked up but not stored back).
   */
  function DraftToSave(d: UserData, channels: seq<Channel>): Result<DraftRow> {
    match d.selectedChannel
    case None => Err(KeyError)
    case Some(ref) =>
      var named := match ref case Record(c) => [c] case Name(n) => ChannelsNamed(channels, n);
      if named == [] then Err(IndexError)
      else if d.selectedIdea.None? then Err(KeyError)
      else if d.selectedStyle.None? then Err(KeyError)
      else if d.draftPost.None? then Err(KeyError)
      else Ok(DraftRow(named[0].channelId, d.selectedIdea.value, d.selectedStyle.value, d.draftPost.value))
  }

  /**
   * `confirm_draft`: store exactly one post with the selected idea, style
   * and draft, and end; the session is left as it is.
   */
  method ConfirmDraftPost(ctx: Context, db: Store) returns (next: Next)
    modifies db
    ensures match DraftToSave(ctx.userData, old(db.channels))
      case Err(f) => next == Raised(f) && unchanged(db)
      case Ok(row) =>
        && (!HasChannel(old(db.channels), row.channelId) ==> next == Raised(IntegrityError) && unchanged(db))
        && (HasChannel(old(db.channels), row.channelId) ==>
              && next == End
              && db.Contents() == AddPost(old(db.Contents()), row.channelId, row.idea, row.style, row.text).value.0
              && OnePostAdded(old(db.Contents()), db.Contents(), row.channelId, row.idea, row.style, row.text))
  {
    var d := ctx.userData;
    if d.selectedChannel.None? {
      return Raised(KeyError);
    }
    var channelId: nat;
    match d.selectedChannel.value {
      case Record(c) =>
        channelId := c.channelId;
      case Name(n) =>
        var named := db.GetChannelsByName(n);
        if named == [] {
          return Raised(IndexError);
        }
        channelId := named[0].channelId;
    }
    if d.selectedIdea.None? || d.selectedStyle.None? || d.draftPost.None? {
      return Raised(KeyError);
    }
    var idea, style, draft := d.selectedIdea.value, d.selectedStyle.value, d.draftPost.value;
    AddPostEffect(db.Contents(), channelId, idea, style, draft);
    if HasChannel(db.channels, channelId) {
      AddPostAddsOne(db.Contents(), channelId, idea, style, draft);
    }
    var p := db.AddPost(channelId, idea, style, draft);
    if p.None? {
      return Raised(IntegrityError);
    }
    next := End;
  }
}
