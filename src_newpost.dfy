/**
 * The `/newpost` conversation of `src/handlers/newpost.py`: CHOOSING_IDEA,
 * then CHOOSING_STYLE, and choosing a style writes the draft and stores the
 * post at once. There is no confirmation step and no way back.
 */
module SrcNewPost {
  import opened Wrappers
  import opened Database
  import opened DatabaseStore
  import opened IdeaParser
  import opened Session
  import SrcLlm

  /** `CHOOSING_IDEA, CHOOSING_STYLE`, `ConversationHandler.END`, or an exception. */
  datatype Next = ChoosingIdea | ChoosingStyle | End | Raised(failure: Failure)

  /** How many recent posts are read as examples; a single one is enough. */
  const ExampleLimit: nat := 5

  /**
   * `newpost_command`: resolve the selected channel (storing the row back
   * when it was given by name), read its last five posts, give up when there
   * are none, otherwise store generated ideas and offer them.
   */
  method NewpostCommand(ctx: Context, db: Store, llm: string -> string) returns (next: Next)
    modifies ctx
    ensures var d := old(ctx.userData);
      match d.selectedChannel
      case None => next == End && ctx.userData == d
      case Some(ref) =>
        match Resolved(db.channels, ref)
        case None => next == End && ctx.userData == d
        case Some(c) =>
          var posts := LastPosts(db.Contents(), c.channelId, ExampleLimit);
          var kept := d.(selectedChannel := Some(Record(c)));
          if posts == [] then next == End && ctx.userData == kept
          else next == ChoosingIdea && ctx.userData == kept.(postIdeas := Some(ParseIdeas(llm(SrcLlm.IdeasPrompt(Texts(posts))))))
    ensures next == ChoosingIdea ==> ctx.userData.postIdeas.Some? && 1 <= |ctx.userData.postIdeas.value| <= MaxIdeas
    ensures next == End ==> ctx.userData.postIdeas == old(ctx.userData.postIdeas)
  {
    if ctx.userData.selectedChannel.None? {
      return End;
    }
    var found := ResolveChannel(ctx, db);
    if found.None? {
      return End;
    }
    var channel := found.value;
    var posts := db.GetLastPosts(channel.channelId, ExampleLimit);
    if posts == [] {
      return End;
    }
    var ideas := SrcLlm.GeneratePostIdeas(llm, Texts(posts));
    ctx.userData := ctx.userData.(postIdeas := Some(ideas));
    next := ChoosingIdea;
  }

  /** `show_styles`: one button per available style (none when the key is absent), and CHOOSING_STYLE. */
  method ShowStyles(ctx: Context) returns (next: Next, buttons: seq<string>)
    ensures next == ChoosingStyle
    ensures buttons == StyleButtons(match ctx.userData.availableStyles case Some(s) => s case None => [])
  {
    var styles := match ctx.userData.availableStyles case Some(s) => s case None => [];
    buttons := StyleButtons(styles);
    next := ChoosingStyle;
  }

  /**
   * `choose_idea`: "custom" asks for a free-text idea and stays; an idea
   * button selects that idea and its styles and shows them.
   */
  method ChooseIdea(ctx: Context, data: string) returns (next: Next)
    modifies ctx
    ensures var d := old(ctx.userData);
      if data == CustomButton then next == ChoosingIdea && ctx.userData == d.(customIdea := true)
      else match SelectIdea(d.postIdeas, data)
        case Err(f) => next == Raised(f) && ctx.userData == d
        case Ok(rec) => next == ChoosingStyle && ctx.userData == d.(selectedIdea := Some(rec.idea), availableStyles := Some(rec.styles))
  {
    if data == CustomButton {
      ctx.userData := ctx.userData.(customIdea := true);
      return ChoosingIdea;
    }
    match SelectIdea(ctx.userData.postIdeas, data) {
      case Err(f) =>
        return Raised(f);
      case Ok(rec) =>
        ctx.userData := ctx.userData.(selectedIdea := Some(rec.idea), availableStyles := Some(rec.styles));
        var _, _ := ShowStyles(ctx);
        next := ChoosingStyle;
    }
  }

  /**
   * `custom_idea_input`: ends unless a free-text idea was asked for; an
   * empty text asks again; otherwise the stripped text becomes the idea with
   * the fixed style triad.
   */
  method CustomIdeaInput(ctx: Context, text: string) returns (next: Next)
    modifies ctx
    ensures var d := old(ctx.userData);
      if !d.customIdea then next == End && ctx.userData == d
      else if Text.Strip(text) == [] then next == ChoosingIdea && ctx.userData == d
      else next == ChoosingStyle && ctx.userData == d.(selectedIdea := Some(Text.Strip(text)), availableStyles := Some(CustomStyles))
  {
    if !ctx.userData.customIdea {
      return End;
    }
    var idea := Text.Strip(text);
    if idea == [] {
      return ChoosingIdea;
    }
    ctx.userData := ctx.userData.(selectedIdea := Some(idea), availableStyles := Some(CustomStyles));
    var _, _ := ShowStyles(ctx);
    next := ChoosingStyle;
  }

  /**
   * `choose_style`: record the style, resolve the channel (an absent key is
   * looked up as the name "None"), write and keep a draft from the last five
   * posts, then store it as exactly one post and end.
   */
  method ChooseStyle(ctx: Context, db: Store, llm: string -> string, data: string) returns (next: Next)
    modifies ctx, db
    ensures var d := old(ctx.userData);
      var style := ChosenStyle(data);
      var styled := d.(selectedStyle := Some(style));
      match Resolved(old(db.channels), RefOf(d.selectedChannel))
      case None => next == End && ctx.userData == styled && unchanged(db)
      case Some(c) =>
        var kept := styled.(selectedChannel := Some(Record(c)));
        match d.selectedIdea
        case None => next == Raised(KeyError) && ctx.userData == kept && unchanged(db)
        case Some(idea) =>
          var posts := LastPosts(old(db.Contents()), c.channelId, ExampleLimit);
          var draft := SrcLlm.GeneratePostDraft(llm, c.name, idea, style, Texts(posts));
          && ctx.userData == kept.(draftPost := Some(draft))
          && (!HasChannel(old(db.channels), c.channelId) ==> next == Raised(IntegrityError) && unchanged(db))
          && (HasChannel(old(db.channels), c.channelId) ==>
                && next == End
                && db.Contents() == AddPost(old(db.Contents()), c.channelId, idea, style, draft).value.0
                && OnePostAdded(old(db.Contents()), db.Contents(), c.channelId, idea, style, draft))
    ensures !(old(ctx.userData.selectedChannel).Some? && old(ctx.userData.selectedChannel).value.Record?) ==>
      next != Raised(IntegrityError)
  {
    var style := ChosenStyle(data);
    ctx.userData := ctx.userData.(selectedStyle := Some(style));
    ghost var ref := RefOf(ctx.userData.selectedChannel);
    var found := ResolveChannel(ctx, db);
    if found.None? {
      return End;
    }
    var channel := found.value;
    if ctx.userData.selectedIdea.None? {
      return Raised(KeyError);
    }
    var idea := ctx.userData.selectedIdea.value;
    var posts := db.GetLastPosts(channel.channelId, ExampleLimit);
    var draft := SrcLlm.GeneratePostDraft(llm, channel.name, idea, style, Texts(posts));
    ctx.userData := ctx.userData.(draftPost := Some(draft));
    AddPostEffect(db.Contents(), channel.channelId, idea, style, draft);
    if HasChannel(db.channels, channel.channelId) {
      AddPostAddsOne(db.Contents(), channel.channelId, idea, style, draft);
    }
    var p := db.AddPost(channel.channelId, idea, style, draft);
    if p.None? {
      return Raised(IntegrityError);
    }
    next := End;
  }
}
