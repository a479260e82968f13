/**
 * The per-user session (`context.user_data`) shared by the handlers of both
 * bot variants, and the lookups the handlers perform on it: resolving the
 * selected channel, reading an idea button, reading a style button.
 */
module Session {
  import opened Wrappers
  import opened Text
  import opened Database
  import opened DatabaseStore
  import opened IdeaParser

  /**
   * `user_data["selected_channel"]`: normally a channel row (a dict); the
   * handlers also accept any other value and look it up through `str(...)`.
   */
  datatype ChannelRef = Record(channel: Channel) | Name(name: string)

  /** The Python exceptions a handler can raise. */
  datatype Failure = KeyError | TypeError | ValueError | IndexError | AttributeError | IntegrityError

  datatype Result<T> = Ok(value: T) | Err(failure: Failure)

  /** What a handler that returns no conversation state ends with. */
  datatype Outcome = Done | Failed(failure: Failure)

  /**
   * The keys of `user_data`. An absent key is `None`; a flag read with
   * `.get(...)` is absent exactly when it is `false`.
   */
  datatype UserData = UserData(
    selectedChannel: Option<ChannelRef>,
    postIdeas: Option<seq<IdeaRecord>>,
    selectedIdea: Option<string>,
    availableStyles: Option<seq<string>>,
    customIdea: bool,
    selectedStyle: Option<string>,
    draftPost: Option<string>,
    awaitingChannelName: bool,
    awaitingChannelDeletion: bool,
    awaitingChannelSelection: bool,
    state: Option<string>)

  /** `user_data` after `clear()`. */
  const Cleared: UserData := UserData(None, None, None, None, false, None, None, false, false, false, None)

  /** The session object the framework hands to every handler of one user. */
  class Context {
    var userData: UserData

    constructor ()
      ensures userData == Cleared
    {
      userData := Cleared;
    }
  }

  /** `str(user_data.get("selected_channel"))` when it is not a dict: an absent key reads as "None". */
  function RefOf(selected: Option<ChannelRef>): ChannelRef {
    match selected
    case Some(r) => r
    case None => Name("None")
  }

  /**
   * The channel a reference stands for: the dict itself, or the first row
   * of `get_channels_by_name(str(channel))`.
   */
  function Resolved(channels: seq<Channel>, ref: ChannelRef): (r: Option<Channel>)
    ensures ref.Record? ==> r == Some(ref.channel)
    ensures ref.Name? && r.Some? ==> r.value in channels && r.value.name == ref.name
  {
    match ref
    case Record(c) => Some(c)
    case Name(n) =>
      var named := ChannelsNamed(channels, n);
      if named == [] then None else assert named[0] in named; Some(named[0])
  }

  /** A name resolves to a stored channel of that name, and fails only when there is none. */
  lemma ResolvedByName(channels: seq<Channel>, n: string)
    ensures Resolved(channels, Name(n)).None? <==> forall c :: c in channels ==> c.name != n
    ensures Resolved(channels, Name(n)).Some? ==>
      Resolved(channels, Name(n)).value in channels && Resolved(channels, Name(n)).value.name == n
  {
    var named := ChannelsNamed(channels, n);
    if named != [] {
      assert named[0] in named;
    }
  }

  /**
   * The channel lookup of `newpost_command` and `choose_style`: a dict is
   * used as it is, anything else is looked up by `str(...)` and the first
   * row found replaces it in the session.
   */
  method ResolveChannel(ctx: Context, db: Store) returns (found: Option<Channel>)
    modifies ctx
    ensures found == Resolved(db.channels, RefOf(old(ctx.userData.selectedChannel)))
    ensures found.None? ==> ctx.userData == old(ctx.userData)
    ensures found.Some? ==> ctx.userData == old(ctx.userData).(selectedChannel := Some(Record(found.value)))
  {
    match RefOf(ctx.userData.selectedChannel) {
      case Record(c) =>
        found := Some(c);
      case Name(n) =>
        var named := db.GetChannelsByName(n);
        if named == [] {
          return None;
        }
        found := Some(named[0]);
        ctx.userData := ctx.userData.(selectedChannel := Some(Record(named[0])));
    }
  }

  /** `next((ch for ch in channels if ch["name"] == name), None)`: the earliest channel with that name. */
  function FirstNamed(channels: seq<Channel>, name: string): (r: Option<Channel>)
    ensures r.None? <==> forall c :: c in channels ==> c.name != name
    ensures r.Some? ==> r.value in channels && r.value.name == name
    decreases |channels|
  {
    if channels == [] then None
    else if channels[0].name == name then Some(channels[0])
    else
      assert channels == [channels[0]] + channels[1..];
      FirstNamed(channels[1..], name)
  }

  /** The first match by exact name is the first row `get_channels_by_name` would return among these channels. */
  lemma {:induction false} FirstNamedIsFirstOfNamed(channels: seq<Channel>, name: string)
    ensures FirstNamed(channels, name) == Resolved(channels, Name(name))
    decreases |channels|
  {
    if channels != [] {
      var init := channels[..|channels| - 1];
      var last := channels[|channels| - 1];
      assert channels == init + [last];
      FirstNamedIsFirstOfNamed(init, name);
      FirstNamedAppend(init, last, name);
    }
  }

  lemma {:induction false} FirstNamedAppend(init: seq<Channel>, last: Channel, name: string)
    ensures FirstNamed(init + [last], name) ==
      if FirstNamed(init, name).Some? then FirstNamed(init, name)
      else if last.name == name then Some(last) else None
    decreases |init|
  {
    if init == [] {
      assert init + [last] == [last];
      assert [last][1..] == [];
    } else {
      assert (init + [last])[0] == init[0];
      assert (init + [last])[1..] == init[1..] + [last];
      FirstNamedAppend(init[1..], last, name);
    }
  }

  /** `list[i]` with Python's negative indices; `None` is an `IndexError`. */
  function PyIndex<T>(xs: seq<T>, i: int): (r: Option<T>)
    ensures r.Some? <==> -|xs| <= i < |xs|
    ensures r.Some? && i >= 0 ==> r.value == xs[i]
    ensures r.Some? && i < 0 ==> r.value == xs[|xs| + i]
  {
    if 0 <= i < |xs| then Some(xs[i])
    else if -|xs| <= i < 0 then Some(xs[|xs| + i])
    else None
  }

  /** `[p["text"] for p in posts]`. */
  function Texts(posts: seq<RecentPost>): (r: seq<string>)
    ensures |r| == |posts| && forall k :: 0 <= k < |posts| ==> r[k] == posts[k].text
  {
    seq(|posts|, k requires 0 <= k < |posts| => posts[k].text)
  }

  // ---------------------------------------------------------------
  // Idea buttons
  // ---------------------------------------------------------------

  const IdeaPrefix: string := "idea_"
  const CustomButton: string := "custom"

  /** The callback data `f"idea_{i}"`. */
  function IdeaButton(i: nat): string {
    IdeaPrefix + NumberText(i)
  }

  /** The callback data of the idea keyboard: one button per idea, then "custom". */
  function IdeaButtons(ideas: seq<IdeaRecord>): (r: seq<string>)
    ensures |r| == |ideas| + 1
    ensures forall i :: 0 <= i < |ideas| ==> r[i] == IdeaButton(i)
    ensures r[|ideas|] == CustomButton
  {
    seq(|ideas|, i requires 0 <= i < |ideas| => IdeaButton(i)) + [CustomButton]
  }

  /**
   * `user_data["post_ideas"][int(data.replace("idea_", ""))]`, failing
   * the way Python does: `int()` first, then the missing key, then the index.
   */
  function SelectIdea(postIdeas: Option<seq<IdeaRecord>>, data: string): (r: Result<IdeaRecord>)
    ensures r.Ok? ==> postIdeas.Some? && r.value in postIdeas.value
    ensures postIdeas.None? ==> r.Err?
  {
    match PyInt(ReplaceAll(data, IdeaPrefix, ""))
    case None => Err(ValueError)
    case Some(i) =>
      match postIdeas
      case None => Err(KeyError)
      case Some(ideas) =>
        match PyIndex(ideas, i)
        case None => Err(IndexError)
        case Some(rec) => Ok(rec)
  }

  /** The `i`-th idea button selects the `i`-th idea. */
  lemma IdeaButtonSelects(ideas: seq<IdeaRecord>, i: nat)
    requires i < |ideas|
    ensures SelectIdea(Some(ideas), IdeaButtons(ideas)[i]) == Ok(ideas[i])
  {
    var n := NumberText(i);
    DigitsLackMarker(n, IdeaPrefix);
    ReplacePrefixMarker(IdeaPrefix, n);
    PyIntOfNumberText(i);
  }

  // ---------------------------------------------------------------
  // Style buttons
  // ---------------------------------------------------------------

  const StylePrefix: string := "style_"
  const BackToIdeasButton: string := "back_to_ideas"

  /** The callback data `f"style_{style}"` of each style, in order. */
  function StyleButtons(styles: seq<string>): (r: seq<string>)
    ensures |r| == |styles| && forall k :: 0 <= k < |styles| ==> r[k] == StylePrefix + styles[k]
  {
    seq(|styles|, k requires 0 <= k < |styles| => StylePrefix + styles[k])
  }

  /** `query.data.replace("style_", "")`. */
  function ChosenStyle(data: string): (style: string)
    ensures !Contains(data, StylePrefix) ==> style == data
  {
    if !Contains(data, StylePrefix) then ReplaceAbsent(data, StylePrefix, ""); ReplaceAll(data, StylePrefix, "")
    else ReplaceAll(data, StylePrefix, "")
  }

  /**
   * A style button gives back its style, unless the style itself contains
   * "style_" (every occurrence is removed, not only the prefix).
   */
  lemma StyleButtonSelects(styles: seq<string>, k: nat)
    requires k < |styles| && !Contains(styles[k], StylePrefix)
    ensures ChosenStyle(StyleButtons(styles)[k]) == styles[k]
  {
    ReplacePrefixMarker(StylePrefix, styles[k]);
  }

  /** The styles offered for a free-text idea. */
  const CustomStyles: seq<string> := ["Юмористический", "Серьёзный", "Информационный"]
}
