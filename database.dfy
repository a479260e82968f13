/**
 * The content store of `src/services/database.py`: five tables (users,
 * channels, ideas, styles, posts) kept in memory.
 *
 * Every `SERIAL` key is a counter that hands out the next id; `published_at`
 * (`DEFAULT NOW()`) is the id of the post, so later posts carry larger
 * timestamps. Rows come back in insertion order. A statement that would
 * violate a foreign key fails (`None`) and changes nothing.
 *
 * The pure functions are the specification; the class `Store` holds the
 * tables as fields and its methods run the loops the SQL engine runs.
 */
module Database {
  import opened Wrappers

  datatype User = User(userId: nat, username: Option<string>, telegramId: int)
  datatype Channel = Channel(channelId: nat, userId: nat, name: string, status: string)
  datatype Idea = Idea(ideaId: nat, title: string)
  datatype Style = Style(styleId: nat, name: string)
  datatype Post = Post(postId: nat, channelId: nat, ideaId: nat, styleId: nat, text: string, publishedAt: nat)

  /** A row of `get_last_posts`: the two `LEFT JOIN`s give `None` where no idea or style matches. */
  datatype RecentPost = RecentPost(text: string, idea: Option<string>, style: Option<string>, publishedAt: nat)

  /** `status TEXT DEFAULT 'active'`. */
  const DefaultStatus: string := "active"

  /** The default `limit` of `get_last_posts`. */
  const DefaultLimit: nat := 10

  datatype Tables = Tables(
    users: seq<User>,
    channels: seq<Channel>,
    ideas: seq<Idea>,
    styles: seq<Style>,
    posts: seq<Post>,
    nextUserId: nat,
    nextChannelId: nat,
    nextIdeaId: nat,
    nextStyleId: nat,
    nextPostId: nat)

  const EmptyTables: Tables := Tables([], [], [], [], [], 1, 1, 1, 1, 1)

  // ---------------------------------------------------------------
  // Lookups (`SELECT ... WHERE key = value`, first row)
  // ---------------------------------------------------------------

  function UserByTelegramId(users: seq<User>, telegramId: int): (r: Option<User>)
    ensures r.Some? ==> r.value in users && r.value.telegramId == telegramId && HasUser(users, r.value.userId)
    ensures r.None? ==> forall u :: u in users ==> u.telegramId != telegramId
    decreases |users|
  {
    if users == [] then None
    else
      var init := users[..|users| - 1];
      var last := users[|users| - 1];
      assert users == init + [last];
      match UserByTelegramId(init, telegramId)
      case Some(u) => Some(u)
      case None => if last.telegramId == telegramId then Some(last) else None
  }

  predicate HasUser(users: seq<User>, userId: nat) {
    exists u :: u in users && u.userId == userId
  }

  predicate HasChannel(channels: seq<Channel>, channelId: nat) {
    exists c :: c in channels && c.channelId == channelId
  }

  function IdeaByTitle(ideas: seq<Idea>, title: string): (r: Option<Idea>)
    ensures r.Some? ==> r.value in ideas && r.value.title == title
    ensures r.None? ==> forall i :: i in ideas ==> i.title != title
    decreases |ideas|
  {
    if ideas == [] then None
    else
      var init := ideas[..|ideas| - 1];
      var last := ideas[|ideas| - 1];
      assert ideas == init + [last];
      match IdeaByTitle(init, title)
      case Some(i) => Some(i)
      case None => if last.title == title then Some(last) else None
  }

  function StyleByName(styles: seq<Style>, name: string): (r: Option<Style>)
    ensures r.Some? ==> r.value in styles && r.value.name == name
    ensures r.None? ==> forall s :: s in styles ==> s.name != name
    decreases |styles|
  {
    if styles == [] then None
    else
      var init := styles[..|styles| - 1];
      var last := styles[|styles| - 1];
      assert styles == init + [last];
      match StyleByName(init, name)
      case Some(s) => Some(s)
      case None => if last.name == name then Some(last) else None
  }

  /** The title the `LEFT JOIN ideas` attaches to a post. */
  function IdeaTitle(ideas: seq<Idea>, ideaId: nat): (r: Option<string>)
    ensures r.Some? ==> Idea(ideaId, r.value) in ideas
    ensures r.None? ==> forall i :: i in ideas ==> i.ideaId != ideaId
    decreases |ideas|
  {
    if ideas == [] then None
    else
      var init := ideas[..|ideas| - 1];
      var last := ideas[|ideas| - 1];
      assert ideas == init + [last];
      match IdeaTitle(init, ideaId)
      case Some(t) => Some(t)
      case None => if last.ideaId == ideaId then Some(last.title) else None
  }

  /** The name the `LEFT JOIN styles` attaches to a post. */
  function StyleName(styles: seq<Style>, styleId: nat): (r: Option<string>)
    ensures r.Some? ==> Style(styleId, r.value) in styles
    ensures r.None? ==> forall s :: s in styles ==> s.styleId != styleId
    decreases |styles|
  {
    if styles == [] then None
    else
      var init := styles[..|styles| - 1];
      var last := styles[|styles| - 1];
      assert styles == init + [last];
      match StyleName(init, styleId)
      case Some(n) => Some(n)
      case None => if last.styleId == styleId then Some(last.name) else None
  }

  // ---------------------------------------------------------------
  // Filtered listings
  // ---------------------------------------------------------------

  /** `SELECT * FROM channels WHERE user_id = ...`, in insertion order. */
  function ChannelsOf(channels: seq<Channel>, userId: nat): (r: seq<Channel>)
    ensures forall c :: c in r <==> c in channels && c.userId == userId
    decreases |channels|
  {
    if channels == [] then []
    else
      var init := channels[..|channels| - 1];
      var last := channels[|channels| - 1];
      assert channels == init + [last];
      ChannelsOf(init, userId) + (if last.userId == userId then [last] else [])
  }

  /** `SELECT * FROM channels WHERE name = ...`, across all users, in insertion order. */
  function ChannelsNamed(channels: seq<Channel>, name: string): (r: seq<Channel>)
    ensures forall c :: c in r <==> c in channels && c.name == name
    decreases |channels|
  {
    if channels == [] then []
    else
      var init := channels[..|channels| - 1];
      var last := channels[|channels| - 1];
      assert channels == init + [last];
      ChannelsNamed(init, name) + (if last.name == name then [last] else [])
  }

  /** The posts of one channel, in insertion (= publication) order. */
  function PostsOf(posts: seq<Post>, channelId: nat): (r: seq<Post>)
    ensures |r| <= |posts|
    ensures forall p :: p in r <==> p in posts && p.channelId == channelId
    decreases |posts|
  {
    if posts == [] then []
    else
      var init := posts[..|posts| - 1];
      var last := posts[|posts| - 1];
      assert posts == init + [last];
      PostsOf(init, channelId) + (if last.channelId == channelId then [last] else [])
  }

  // ---------------------------------------------------------------
  // The table invariant
  // ---------------------------------------------------------------

  predicate UserIdsIncreasing(users: seq<User>, next: nat) {
    && (forall i, j :: 0 <= i < j < |users| ==> users[i].userId < users[j].userId)
    && (forall i :: 0 <= i < |users| ==> users[i].userId < next)
  }

  predicate ChannelIdsIncreasing(channels: seq<Channel>, next: nat) {
    && (forall i, j :: 0 <= i < j < |channels| ==> channels[i].channelId < channels[j].channelId)
    && (forall i :: 0 <= i < |channels| ==> channels[i].channelId < next)
  }

  predicate IdeaIdsIncreasing(ideas: seq<Idea>, next: nat) {
    && (forall i, j :: 0 <= i < j < |ideas| ==> ideas[i].ideaId < ideas[j].ideaId)
    && (forall i :: 0 <= i < |ideas| ==> ideas[i].ideaId < next)
  }

  predicate StyleIdsIncreasing(styles: seq<Style>, next: nat) {
    && (forall i, j :: 0 <= i < j < |styles| ==> styles[i].styleId < styles[j].styleId)
    && (forall i :: 0 <= i < |styles| ==> styles[i].styleId < next)
  }

  /** Post ids and timestamps both increase in insertion order. */
  predicate PostIdsIncreasing(posts: seq<Post>, next: nat) {
    && (forall i, j :: 0 <= i < j < |posts| ==> posts[i].postId < posts[j].postId)
    && (forall i, j :: 0 <= i < j < |posts| ==> posts[i].publishedAt < posts[j].publishedAt)
    && (forall i :: 0 <= i < |posts| ==> posts[i].postId < next && posts[i].publishedAt < next)
  }

  /** `telegram_id BIGINT UNIQUE`. */
  predicate UniqueTelegramIds(users: seq<User>) {
    forall i, j :: 0 <= i < j < |users| ==> users[i].telegramId != users[j].telegramId
  }

  /** `title TEXT UNIQUE`. */
  predicate UniqueTitles(ideas: seq<Idea>) {
    forall i, j :: 0 <= i < j < |ideas| ==> ideas[i].title != ideas[j].title
  }

  /** `name TEXT UNIQUE`. */
  predicate UniqueStyleNames(styles: seq<Style>) {
    forall i, j :: 0 <= i < j < |styles| ==> styles[i].name != styles[j].name
  }

  /** `idea_id REFERENCES ideas`, `style_id REFERENCES styles`. */
  predicate PostsReferenceIdeasAndStyles(t: Tables) {
    forall p :: p in t.posts ==>
      (exists i :: i in t.ideas && i.ideaId == p.ideaId) && (exists s :: s in t.styles && s.styleId == p.styleId)
  }

  /** `user_id REFERENCES users`. */
  predicate ChannelsReferenceUsers(t: Tables) {
    forall c :: c in t.channels ==> HasUser(t.users, c.userId)
  }

  /** `channel_id REFERENCES channels`. */
  predicate PostsReferenceChannels(t: Tables) {
    forall p :: p in t.posts ==> HasChannel(t.channels, p.channelId)
  }

  /** What the schema and the serial counters guarantee of the tables. */
  predicate ValidTables(t: Tables) {
    && UserIdsIncreasing(t.users, t.nextUserId)
    && ChannelIdsIncreasing(t.channels, t.nextChannelId)
    && IdeaIdsIncreasing(t.ideas, t.nextIdeaId)
    && StyleIdsIncreasing(t.styles, t.nextStyleId)
    && PostIdsIncreasing(t.posts, t.nextPostId)
    && UniqueTelegramIds(t.users)
    && UniqueTitles(t.ideas)
    && UniqueStyleNames(t.styles)
    && PostsReferenceIdeasAndStyles(t)
    && ChannelsReferenceUsers(t)
    && PostsReferenceChannels(t)
  }

  lemma EmptyTablesValid()
    ensures ValidTables(EmptyTables)
  {
  }

  // ---------------------------------------------------------------
  // The operations
  // ---------------------------------------------------------------

  /** `add_user`: the existing row with that `telegram_id`, or a new one. */
  function AddUser(t: Tables, telegramId: int, username: Option<string>): (r: (Tables, User))
    ensures r.1.telegramId == telegramId
    ensures UserByTelegramId(t.users, telegramId).Some? ==> r == (t, UserByTelegramId(t.users, telegramId).value)
    ensures UserByTelegramId(t.users, telegramId).None? ==>
      && r.1 == User(t.nextUserId, username, telegramId)
      && r.0 == t.(users := t.users + [r.1], nextUserId := t.nextUserId + 1)
  {
    match UserByTelegramId(t.users, telegramId)
    case Some(u) => (t, u)
    case None =>
      var u := User(t.nextUserId, username, telegramId);
      (t.(users := t.users + [u], nextUserId := t.nextUserId + 1), u)
  }

  /** `add_channel`: always a new row; fails when no user has `userId`. */
  function AddChannel(t: Tables, userId: nat, name: string): (r: Option<(Tables, Channel)>)
    ensures r.None? <==> !HasUser(t.users, userId)
    ensures r.Some? ==>
      && r.value.1 == Channel(t.nextChannelId, userId, name, DefaultStatus)
      && r.value.0 == t.(channels := t.channels + [r.value.1], nextChannelId := t.nextChannelId + 1)
  {
    if !HasUser(t.users, userId) then None
    else
      var c := Channel(t.nextChannelId, userId, name, DefaultStatus);
      Some((t.(channels := t.channels + [c], nextChannelId := t.nextChannelId + 1), c))
  }

  /** The `ideas` half of `add_post`: reuse the row with that title or insert one. */
  function FindOrCreateIdea(t: Tables, title: string): (r: (Tables, nat))
  {
    match IdeaByTitle(t.ideas, title)
    case Some(i) => (t, i.ideaId)
    case None => (t.(ideas := t.ideas + [Idea(t.nextIdeaId, title)], nextIdeaId := t.nextIdeaId + 1), t.nextIdeaId)
  }

  /** The `styles` half of `add_post`: reuse the row with that name or insert one. */
  function FindOrCreateStyle(t: Tables, name: string): (r: (Tables, nat))
  {
    match StyleByName(t.styles, name)
    case Some(s) => (t, s.styleId)
    case None => (t.(styles := t.styles + [Style(t.nextStyleId, name)], nextStyleId := t.nextStyleId + 1), t.nextStyleId)
  }

  /**
   * `add_post`: find or create the idea and the style, then insert the post.
   * The insert fails when no channel has `channelId`, and then nothing is kept.
   */
  function AddPost(t: Tables, channelId: nat, title: string, styleName: string, text: string): (r: Option<(Tables, Post)>)
    ensures r.None? <==> !HasChannel(t.channels, channelId)
    ensures r.Some? ==> r.value.0.posts == t.posts + [r.value.1] && r.value.1.channelId == channelId && r.value.1.text == text
    ensures r.Some? ==> r.value.0.users == t.users && r.value.0.channels == t.channels
  {
    if !HasChannel(t.channels, channelId) then None
    else
      var (t1, ideaId) := FindOrCreateIdea(t, title);
      var (t2, styleId) := FindOrCreateStyle(t1, styleName);
      Some(InsertPost(t2, channelId, ideaId, styleId, text))
  }

  /** The `INSERT INTO posts` step: the next post id, published "now". */
  function InsertPost(t: Tables, channelId: nat, ideaId: nat, styleId: nat, text: string): (r: (Tables, Post))
    ensures r.0.posts == t.posts + [r.1] && r.1 == Post(t.nextPostId, channelId, ideaId, styleId, text, t.nextPostId)
    ensures r.0 == t.(posts := r.0.posts, nextPostId := t.nextPostId + 1)
  {
    var p := Post(t.nextPostId, channelId, ideaId, styleId, text, t.nextPostId);
    (t.(posts := t.posts + [p], nextPostId := t.nextPostId + 1), p)
  }

  /** The row `get_last_posts` returns for one post. */
  function Row(t: Tables, p: Post): RecentPost {
    RecentPost(p.text, IdeaTitle(t.ideas, p.ideaId), StyleName(t.styles, p.styleId), p.publishedAt)
  }

  /**
   * `get_last_posts`, as a scan from the newest post back: the channel's
   * posts, newest first, at most `limit` of them.
   */
  function LastPostsFrom(t: Tables, posts: seq<Post>, channelId: nat, limit: nat): (r: seq<RecentPost>)
    ensures |r| <= limit
    decreases |posts|
  {
    if posts == [] || limit == 0 then []
    else
      var last := posts[|posts| - 1];
      var init := posts[..|posts| - 1];
      if last.channelId == channelId then [Row(t, last)] + LastPostsFrom(t, init, channelId, limit - 1)
      else LastPostsFrom(t, init, channelId, limit)
  }

  function LastPosts(t: Tables, channelId: nat, limit: nat := DefaultLimit): (r: seq<RecentPost>)
    ensures |r| <= limit
  {
    LastPostsFrom(t, t.posts, channelId, limit)
  }

  /**
   * `db.delete_channel(user_id, name)`: drops that user's channels with
   * exactly that name. The foreign key `posts.channel_id` makes the delete
   * fail (`None`, an `IntegrityError`) while a post still refers to one of
   * them, and then nothing is deleted.
   */
  function DeleteChannel(t: Tables, userId: nat, name: string): (r: Option<Tables>)
    ensures r.None? <==> exists p :: p in t.posts && p.channelId in RemovedIds(t.channels, userId, name)
    ensures r.Some? ==> forall c :: c in r.value.channels <==> c in t.channels && !(c.userId == userId && c.name == name)
    ensures r.Some? ==> r.value == t.(channels := r.value.channels)
  {
    if exists p :: p in t.posts && p.channelId in RemovedIds(t.channels, userId, name) then None
    else Some(t.(channels := WithoutChannel(t.channels, userId, name)))
  }

  /** The ids of the rows `delete_channel(user_id, name)` removes. */
  function RemovedIds(channels: seq<Channel>, userId: nat, name: string): (r: set<nat>)
    ensures forall id :: id in r <==> exists c :: c in channels && c.userId == userId && c.name == name && c.channelId == id
    decreases |channels|
  {
    if channels == [] then {}
    else
      var init := channels[..|channels| - 1];
      var last := channels[|channels| - 1];
      assert channels == init + [last];
      RemovedIds(init, userId, name) + (if last.userId == userId && last.name == name then {last.channelId} else {})
  }

  function WithoutChannel(channels: seq<Channel>, userId: nat, name: string): (r: seq<Channel>)
    ensures forall c :: c in r <==> c in channels && !(c.userId == userId && c.name == name)
    decreases |channels|
  {
    if channels == [] then []
    else
      var init := channels[..|channels| - 1];
      var last := channels[|channels| - 1];
      assert channels == init + [last];
      WithoutChannel(init, userId, name) + (if last.userId == userId && last.name == name then [] else [last])
  }

  /** One more channel scanned: both the kept rows and the removed ids grow by its verdict. */
  lemma MatchingStep(channels: seq<Channel>, i: nat, userId: nat, name: string)
    requires i < |channels|
    ensures var c := channels[i];
      && WithoutChannel(channels[..i + 1], userId, name)
         == WithoutChannel(channels[..i], userId, name) + (if c.userId == userId && c.name == name then [] else [c])
      && RemovedIds(channels[..i + 1], userId, name)
         == RemovedIds(channels[..i], userId, name) + (if c.userId == userId && c.name == name then {c.channelId} else {})
  {
    assert channels[..i + 1][..i] == channels[..i];
  }

  // ---------------------------------------------------------------
  // The invariant is kept
  // ---------------------------------------------------------------

  /** After `add_user`, `get_user` finds the row it returned. */
  lemma AddUserFinds(t: Tables, telegramId: int, username: Option<string>)
    ensures UserByTelegramId(AddUser(t, telegramId, username).0.users, telegramId) == Some(AddUser(t, telegramId, username).1)
  {
    var (t', u) := AddUser(t, telegramId, username);
    if UserByTelegramId(t.users, telegramId).None? {
      assert t'.users == t.users + [u];
      assert t'.users[..|t'.users| - 1] == t.users;
    }
  }

  lemma AddUserKeepsValid(t: Tables, telegramId: int, username: Option<string>)
    requires ValidTables(t)
    ensures ValidTables(AddUser(t, telegramId, username).0)
  {
    var (t', u) := AddUser(t, telegramId, username);
    if UserByTelegramId(t.users, telegramId).None? {
      assert t'.users == t.users + [u];
      forall i | 0 <= i < |t.users| ensures t.users[i].telegramId != telegramId {
        assert t.users[i] in t.users;
      }
      forall c | c in t'.channels ensures HasUser(t'.users, c.userId) {
        var w :| w in t.users && w.userId == c.userId;
        assert w in t'.users;
      }
    }
  }

  lemma AddChannelKeepsValid(t: Tables, userId: nat, name: string)
    requires ValidTables(t)
    requires AddChannel(t, userId, name).Some?
    ensures ValidTables(AddChannel(t, userId, name).value.0)
  {
    var (t', c) := AddChannel(t, userId, name).value;
    assert t'.channels == t.channels + [c];
    forall p | p in t'.posts ensures HasChannel(t'.channels, p.channelId) {
      var w :| w in t.channels && w.channelId == p.channelId;
      assert w in t'.channels;
    }
  }

  lemma FindOrCreateIdeaEffect(t: Tables, title: string)
    ensures var (t', id) := FindOrCreateIdea(t, title);
      && IdeaByTitle(t'.ideas, title) == Some(Idea(id, title))
      && t' == t.(ideas := t'.ideas, nextIdeaId := t'.nextIdeaId)
      && |t.ideas| <= |t'.ideas| <= |t.ideas| + 1
      && t'.ideas[..|t.ideas|] == t.ideas
  {
    var (t', id) := FindOrCreateIdea(t, title);
    if IdeaByTitle(t.ideas, title).None? {
      assert t'.ideas[..|t'.ideas| - 1] == t.ideas;
    }
  }

  lemma FindOrCreateIdeaKeepsValid(t: Tables, title: string)
    requires ValidTables(t)
    ensures ValidTables(FindOrCreateIdea(t, title).0)
  {
    var (t', id) := FindOrCreateIdea(t, title);
    if IdeaByTitle(t.ideas, title).None? {
      var n := Idea(t.nextIdeaId, title);
      assert t'.ideas == t.ideas + [n];
      forall i | 0 <= i < |t.ideas| ensures t.ideas[i].title != title {
        assert t.ideas[i] in t.ideas;
      }
      forall p | p in t'.posts
        ensures (exists i :: i in t'.ideas && i.ideaId == p.ideaId)
      {
        var w :| w in t.ideas && w.ideaId == p.ideaId;
        assert w in t'.ideas;
      }
    }
  }

  lemma FindOrCreateStyleEffect(t: Tables, name: string)
    ensures var (t', id) := FindOrCreateStyle(t, name);
      && StyleByName(t'.styles, name) == Some(Style(id, name))
      && t' == t.(styles := t'.styles, nextStyleId := t'.nextStyleId)
      && |t.styles| <= |t'.styles| <= |t.styles| + 1
      && t'.styles[..|t.styles|] == t.styles
  {
    var (t', id) := FindOrCreateStyle(t, name);
    if StyleByName(t.styles, name).None? {
      assert t'.styles[..|t'.styles| - 1] == t.styles;
    }
  }

  lemma FindOrCreateStyleKeepsValid(t: Tables, name: string)
    requires ValidTables(t)
    ensures ValidTables(FindOrCreateStyle(t, name).0)
  {
    var (t', id) := FindOrCreateStyle(t, name);
    if StyleByName(t.styles, name).None? {
      var n := Style(t.nextStyleId, name);
      assert t'.styles == t.styles + [n];
      forall i | 0 <= i < |t.styles| ensures t.styles[i].name != name {
        assert t.styles[i] in t.styles;
      }
      forall p | p in t'.posts
        ensures (exists s :: s in t'.styles && s.styleId == p.styleId)
      {
        var w :| w in t.styles && w.styleId == p.styleId;
        assert w in t'.styles;
      }
    }
  }

  lemma InsertPostKeepsValid(t: Tables, channelId: nat, ideaId: nat, styleId: nat, text: string, title: string, styleName: string)
    requires ValidTables(t) && HasChannel(t.channels, channelId)
    requires Idea(ideaId, title) in t.ideas && Style(styleId, styleName) in t.styles
    ensures ValidTables(InsertPost(t, channelId, ideaId, styleId, text).0)
  {
    var (t', p) := InsertPost(t, channelId, ideaId, styleId, text);
    AppendPostIncreasing(t.posts, p, t.nextPostId);
    AppendPostReferences(t, t', p, title, styleName);
    AppendPostChannel(t, t', p);
  }

  /** A post of an existing channel keeps every post's channel existing. */
  lemma AppendPostChannel(t: Tables, t': Tables, p: Post)
    requires PostsReferenceChannels(t) && HasChannel(t.channels, p.channelId)
    requires t'.posts == t.posts + [p] && t'.channels == t.channels
    ensures PostsReferenceChannels(t')
  {
  }

  /** A post numbered with the counter keeps the ids and timestamps increasing. */
  lemma AppendPostIncreasing(posts: seq<Post>, p: Post, next: nat)
    requires PostIdsIncreasing(posts, next) && p.postId == next && p.publishedAt == next
    ensures PostIdsIncreasing(posts + [p], next + 1)
  {
  }

  /** A post whose idea and style rows exist keeps every post's references valid. */
  lemma AppendPostReferences(t: Tables, t': Tables, p: Post, title: string, styleName: string)
    requires PostsReferenceIdeasAndStyles(t)
    requires t'.posts == t.posts + [p] && t'.ideas == t.ideas && t'.styles == t.styles
    requires Idea(p.ideaId, title) in t.ideas && Style(p.styleId, styleName) in t.styles
    ensures PostsReferenceIdeasAndStyles(t')
  {
    forall q | q in t'.posts
      ensures (exists i :: i in t'.ideas && i.ideaId == q.ideaId) && (exists s :: s in t'.styles && s.styleId == q.styleId)
    {
      if q == p {
        assert Idea(p.ideaId, title) in t'.ideas;
        assert Style(p.styleId, styleName) in t'.styles;
      } else {
        assert q in t.posts;
      }
    }
  }

  /**
   * `add_post` fails exactly when the channel does not exist; otherwise it
   * inserts exactly one post, which references the idea row with that title
   * and the style row with that name; users and channels are untouched and
   * at most one idea and one style row are added, the existing ones kept.
   */
  lemma AddPostEffect(t: Tables, channelId: nat, title: string, styleName: string, text: string)
    ensures AddPost(t, channelId, title, styleName, text).None? <==> !HasChannel(t.channels, channelId)
    ensures AddPost(t, channelId, title, styleName, text).Some? ==>
      var (t', p) := AddPost(t, channelId, title, styleName, text).value;
      && t'.posts == t.posts + [p]
      && p.channelId == channelId && p.text == text
      && IdeaByTitle(t'.ideas, title) == Some(Idea(p.ideaId, title))
      && StyleByName(t'.styles, styleName) == Some(Style(p.styleId, styleName))
      && t'.users == t.users && t'.channels == t.channels
      && |t.ideas| <= |t'.ideas| <= |t.ideas| + 1 && t'.ideas[..|t.ideas|] == t.ideas
      && |t.styles| <= |t'.styles| <= |t.styles| + 1 && t'.styles[..|t.styles|] == t.styles
  {
    if HasChannel(t.channels, channelId) {
      var (t1, ideaId) := FindOrCreateIdea(t, title);
      FindOrCreateIdeaEffect(t, title);
      var (t2, styleId) := FindOrCreateStyle(t1, styleName);
      FindOrCreateStyleEffect(t1, styleName);
    }
  }

  /**
   * `t` is `t0` with exactly one more post, of channel `channelId` with text
   * `text`, whose idea and style rows carry `title` and `styleName`; users
   * and channels are as before.
   */
  predicate OnePostAdded(t0: Tables, t: Tables, channelId: nat, title: string, styleName: string, text: string) {
    && |t.posts| == |t0.posts| + 1
    && t.posts[..|t0.posts|] == t0.posts
    && var p := t.posts[|t0.posts|];
    && p.channelId == channelId && p.text == text
    && IdeaByTitle(t.ideas, title) == Some(Idea(p.ideaId, title))
    && StyleByName(t.styles, styleName) == Some(Style(p.styleId, styleName))
    && t.users == t0.users && t.channels == t0.channels
  }

  /** A successful `add_post` stores exactly one post. */
  lemma AddPostAddsOne(t: Tables, channelId: nat, title: string, styleName: string, text: string)
    requires HasChannel(t.channels, channelId)
    ensures AddPost(t, channelId, title, styleName, text).Some?
    ensures OnePostAdded(t, AddPost(t, channelId, title, styleName, text).value.0, channelId, title, styleName, text)
  {
    AddPostEffect(t, channelId, title, styleName, text);
    var t' := AddPost(t, channelId, title, styleName, text).value.0;
    assert t'.posts[..|t.posts|] == t.posts;
  }

  lemma AddPostKeepsValid(t: Tables, channelId: nat, title: string, styleName: string, text: string)
    requires ValidTables(t)
    requires HasChannel(t.channels, channelId)
    ensures ValidTables(AddPost(t, channelId, title, styleName, text).value.0)
  {
    var r1 := FindOrCreateIdea(t, title);
    FindOrCreateIdeaEffect(t, title);
    FindOrCreateIdeaKeepsValid(t, title);
    var r2 := FindOrCreateStyle(r1.0, styleName);
    FindOrCreateStyleEffect(r1.0, styleName);
    FindOrCreateStyleKeepsValid(r1.0, styleName);
    InsertPostKeepsValid(r2.0, channelId, r1.1, r2.1, text, title, styleName);
  }

  /** Every idea row with this title (at most one while the invariant holds). */
  function CountTitle(ideas: seq<Idea>, title: string): nat
    decreases |ideas|
  {
    if ideas == [] then 0
    else (if ideas[0].title == title then 1 else 0) + CountTitle(ideas[1..], title)
  }

  lemma {:induction false} UniqueTitleCount(ideas: seq<Idea>, title: string)
    requires UniqueTitles(ideas)
    requires IdeaByTitle(ideas, title).Some?
    ensures CountTitle(ideas, title) == 1
    decreases |ideas|
  {
    var rest := ideas[1..];
    assert UniqueTitles(rest) by {
      forall i, j | 0 <= i < j < |rest| ensures rest[i].title != rest[j].title {
        assert rest[i] == ideas[i + 1] && rest[j] == ideas[j + 1];
      }
    }
    if ideas[0].title == title {
      forall k | 0 <= k < |rest| ensures rest[k].title != title {
        assert rest[k] == ideas[k + 1];
      }
      NoTitleCount(rest, title);
    } else {
      var w := IdeaByTitle(ideas, title).value;
      assert w in rest by {
        var k :| 0 <= k < |ideas| && ideas[k] == w;
        assert k > 0;
        assert rest[k - 1] == w;
      }
      UniqueTitleCount(rest, title);
    }
  }

  lemma {:induction false} NoTitleCount(ideas: seq<Idea>, title: string)
    requires forall k :: 0 <= k < |ideas| ==> ideas[k].title != title
    ensures CountTitle(ideas, title) == 0
    decreases |ideas|
  {
    if ideas != [] {
      NoTitleCount(ideas[1..], title);
    }
  }

  /**
   * Two `add_post` calls with the same idea title leave exactly one idea row
   * with that title, and both posts reference it.
   */
  lemma AddPostSameTitleSharesIdea(t: Tables, c1: nat, c2: nat, title: string, s1: string, s2: string, x1: string, x2: string)
    requires ValidTables(t)
    requires AddPost(t, c1, title, s1, x1).Some?
    requires AddPost(AddPost(t, c1, title, s1, x1).value.0, c2, title, s2, x2).Some?
    ensures var (t1, p1) := AddPost(t, c1, title, s1, x1).value;
      var (t2, p2) := AddPost(t1, c2, title, s2, x2).value;
      && p1.ideaId == p2.ideaId
      && CountTitle(t2.ideas, title) == 1
  {
    var (t1, p1) := AddPost(t, c1, title, s1, x1).value;
    AddPostEffect(t, c1, title, s1, x1);
    AddPostKeepsValid(t, c1, title, s1, x1);
    var (t2, p2) := AddPost(t1, c2, title, s2, x2).value;
    AddPostEffect(t1, c2, title, s2, x2);
    AddPostKeepsValid(t1, c2, title, s2, x2);
    UniqueTitleCount(t2.ideas, title);
  }

  // ---------------------------------------------------------------
  // get_last_posts
  // ---------------------------------------------------------------

  /** A sequence of posts, newest (last inserted) first. */
  function NewestFirst(posts: seq<Post>): (r: seq<Post>)
    ensures |r| == |posts|
    decreases |posts|
  {
    if posts == [] then []
    else [posts[|posts| - 1]] + NewestFirst(posts[..|posts| - 1])
  }

  function Rows(t: Tables, posts: seq<Post>): (r: seq<RecentPost>)
    ensures |r| == |posts|
    decreases |posts|
  {
    if posts == [] then [] else [Row(t, posts[0])] + Rows(t, posts[1..])
  }

  function Min(a: nat, b: nat): nat {
    if a <= b then a else b
  }

  lemma RowsCons(t: Tables, p: Post, posts: seq<Post>)
    ensures Rows(t, [p] + posts) == [Row(t, p)] + Rows(t, posts)
  {
    assert ([p] + posts)[1..] == posts;
  }

  /** One step of the scan: the newest post is taken when it is the channel's. */
  lemma LastPostsStep(t: Tables, posts: seq<Post>, channelId: nat, limit: nat)
    requires posts != [] && limit != 0
    ensures var init := posts[..|posts| - 1];
      var last := posts[|posts| - 1];
      LastPostsFrom(t, posts, channelId, limit) ==
        if last.channelId == channelId then [Row(t, last)] + LastPostsFrom(t, init, channelId, limit - 1)
        else LastPostsFrom(t, init, channelId, limit)
  {
  }

  lemma PostsOfStep(posts: seq<Post>, channelId: nat)
    requires posts != []
    ensures var init := posts[..|posts| - 1];
      var last := posts[|posts| - 1];
      PostsOf(posts, channelId) ==
        PostsOf(init, channelId) + if last.channelId == channelId then [last] else []
  {
  }

  lemma NewestFirstStep(own: seq<Post>, rest: seq<Post>, last: Post)
    requires own == rest + [last]
    ensures NewestFirst(own) == [last] + NewestFirst(rest)
  {
    assert own[..|own| - 1] == rest;
  }

  lemma NewestRowsCons(t: Tables, own: seq<Post>, rest: seq<Post>, last: Post, limit: nat)
    requires own == rest + [last] && limit != 0
    ensures Rows(t, NewestFirst(own)[..Min(limit, |own|)]) == [Row(t, last)] + Rows(t, NewestFirst(rest)[..Min(limit - 1, |rest|)])
  {
    NewestFirstStep(own, rest, last);
    var tail := NewestFirst(rest)[..Min(limit - 1, |rest|)];
    assert NewestFirst(own)[..Min(limit, |own|)] == [last] + tail;
    RowsCons(t, last, tail);
  }

  /** The newest `limit` rows of one channel's posts. */
  function NewestRows(t: Tables, posts: seq<Post>, channelId: nat, limit: nat): seq<RecentPost> {
    var own := PostsOf(posts, channelId);
    Rows(t, NewestFirst(own)[..Min(limit, |own|)])
  }

  lemma NewestRowsSkip(t: Tables, posts: seq<Post>, channelId: nat, limit: nat)
    requires posts != [] && posts[|posts| - 1].channelId != channelId
    ensures NewestRows(t, posts, channelId, limit) == NewestRows(t, posts[..|posts| - 1], channelId, limit)
  {
    PostsOfStep(posts, channelId);
    assert PostsOf(posts, channelId) == PostsOf(posts[..|posts| - 1], channelId);
  }

  lemma NewestRowsTake(t: Tables, posts: seq<Post>, channelId: nat, limit: nat)
    requires posts != [] && limit != 0 && posts[|posts| - 1].channelId == channelId
    ensures NewestRows(t, posts, channelId, limit) ==
      [Row(t, posts[|posts| - 1])] + NewestRows(t, posts[..|posts| - 1], channelId, limit - 1)
  {
    var last := posts[|posts| - 1];
    var own := PostsOf(posts, channelId);
    var rest := PostsOf(posts[..|posts| - 1], channelId);
    PostsOfStep(posts, channelId);
    assert own == rest + [last];
    NewestRowsCons(t, own, rest, last, limit);
  }

  /**
   * `get_last_posts` is the channel's posts, reversed, cut to `limit`:
   * `WHERE channel_id = ... ORDER BY published_at DESC LIMIT ...`.
   */
  lemma {:induction false} LastPostsIsNewestOfChannel(t: Tables, posts: seq<Post>, channelId: nat, limit: nat)
    ensures LastPostsFrom(t, posts, channelId, limit) == NewestRows(t, posts, channelId, limit)
    decreases |posts|
  {
    if posts == [] {
      assert PostsOf(posts, channelId) == [];
    } else if limit == 0 {
      assert NewestFirst(PostsOf(posts, channelId))[..0] == [];
    } else {
      var init := posts[..|posts| - 1];
      var last := posts[|posts| - 1];
      LastPostsStep(t, posts, channelId, limit);
      if last.channelId == channelId {
        NewestRowsTake(t, posts, channelId, limit);
      } else {
        NewestRowsSkip(t, posts, channelId, limit);
      }
      LastPostsIsNewestOfChannel(t, init, channelId, if last.channelId == channelId then limit - 1 else limit);
    }
  }

  /** Every row of `get_last_posts` is the row of one of that channel's posts. */
  lemma {:induction false} LastPostsOnlyFromChannel(t: Tables, posts: seq<Post>, channelId: nat, limit: nat)
    ensures forall x :: x in LastPostsFrom(t, posts, channelId, limit) ==>
      exists p :: p in posts && p.channelId == channelId && x == Row(t, p)
    decreases |posts|
  {
    if posts != [] && limit != 0 {
      var init := posts[..|posts| - 1];
      var last := posts[|posts| - 1];
      var lim := if last.channelId == channelId then limit - 1 else limit;
      LastPostsStep(t, posts, channelId, limit);
      LastPostsOnlyFromChannel(t, init, channelId, lim);
      var r := LastPostsFrom(t, posts, channelId, limit);
      var rest := LastPostsFrom(t, init, channelId, lim);
      forall x | x in r
        ensures exists p :: p in posts && p.channelId == channelId && x == Row(t, p)
      {
        if x in rest {
          var p :| p in init && p.channelId == channelId && x == Row(t, p);
          assert p in posts;
        } else {
          assert last.channelId == channelId && x == Row(t, last);
          assert last in posts;
        }
      }
    }
  }

  /** Every row returned has a timestamp below `bound` when all posts do. */
  lemma {:induction false} LastPostsBelow(t: Tables, posts: seq<Post>, channelId: nat, limit: nat, bound: nat)
    requires forall i :: 0 <= i < |posts| ==> posts[i].publishedAt < bound
    ensures forall k :: 0 <= k < |LastPostsFrom(t, posts, channelId, limit)| ==>
      LastPostsFrom(t, posts, channelId, limit)[k].publishedAt < bound
    decreases |posts|
  {
    if posts != [] && limit != 0 {
      var init := posts[..|posts| - 1];
      var last := posts[|posts| - 1];
      assert last.publishedAt < bound;
      LastPostsStep(t, posts, channelId, limit);
      LastPostsBelow(t, init, channelId, if last.channelId == channelId then limit - 1 else limit, bound);
    }
  }

  /** Rows come newest first: timestamps strictly decrease. */
  lemma {:induction false} LastPostsDescending(t: Tables, posts: seq<Post>, channelId: nat, limit: nat)
    requires forall i, j :: 0 <= i < j < |posts| ==> posts[i].publishedAt < posts[j].publishedAt
    ensures var r := LastPostsFrom(t, posts, channelId, limit);
      forall i, j :: 0 <= i < j < |r| ==> r[i].publishedAt > r[j].publishedAt
    decreases |posts|
  {
    if posts != [] && limit != 0 {
      var init := posts[..|posts| - 1];
      var last := posts[|posts| - 1];
      var lim := if last.channelId == channelId then limit - 1 else limit;
      LastPostsStep(t, posts, channelId, limit);
      LastPostsDescending(t, init, channelId, lim);
      var r := LastPostsFrom(t, posts, channelId, limit);
      var rest := LastPostsFrom(t, init, channelId, lim);
      if last.channelId == channelId {
        assert r == [Row(t, last)] + rest;
        LastPostsBelow(t, init, channelId, lim, last.publishedAt);
        forall i, j | 0 <= i < j < |r| ensures r[i].publishedAt > r[j].publishedAt {
          assert r[j] == rest[j - 1];
          if i > 0 {
            assert r[i] == rest[i - 1];
          }
        }
      } else {
        assert r == rest;
      }
    }
  }

  /**
   * With the invariant, every row carries its post's idea title and style
   * name: both `LEFT JOIN`s find their row.
   */
  lemma {:induction false} LastPostsCarryIdeaAndStyle(t: Tables, posts: seq<Post>, channelId: nat, limit: nat)
    requires PostsReferenceIdeasAndStyles(t)
    requires forall p :: p in posts ==> p in t.posts
    ensures forall k :: 0 <= k < |LastPostsFrom(t, posts, channelId, limit)| ==>
      var row := LastPostsFrom(t, posts, channelId, limit)[k];
      row.idea.Some? && row.style.Some?
    decreases |posts|
  {
    if posts != [] && limit != 0 {
      var init := posts[..|posts| - 1];
      var last := posts[|posts| - 1];
      assert last in t.posts;
      var i :| i in t.ideas && i.ideaId == last.ideaId;
      var s :| s in t.styles && s.styleId == last.styleId;
      assert forall p :: p in init ==> p in posts;
      LastPostsCarryIdeaAndStyle(t, init, channelId, if last.channelId == channelId then limit - 1 else limit);
    }
  }

  /**
   * On valid tables `get_last_posts` returns `min(limit, n)` rows for a
   * channel with `n` posts, newest first, each the row of one of that
   * channel's posts and each with its idea title and style name.
   */
  lemma LastPostsProperties(t: Tables, channelId: nat, limit: nat)
    requires ValidTables(t)
    ensures var r := LastPosts(t, channelId, limit);
      && |r| == Min(limit, |PostsOf(t.posts, channelId)|)
      && (forall i, j :: 0 <= i < j < |r| ==> r[i].publishedAt > r[j].publishedAt)
      && (forall x :: x in r ==> exists p :: p in t.posts && p.channelId == channelId && x == Row(t, p))
      && (forall k :: 0 <= k < |r| ==> r[k].idea.Some? && r[k].style.Some?)
  {
    LastPostsIsNewestOfChannel(t, t.posts, channelId, limit);
    LastPostsDescending(t, t.posts, channelId, limit);
    LastPostsOnlyFromChannel(t, t.posts, channelId, limit);
    LastPostsCarryIdeaAndStyle(t, t.posts, channelId, limit);
  }

  // ---------------------------------------------------------------
  // Channel listings
  // ---------------------------------------------------------------

  /**
   * `add_channel` always adds a row, also when the name is taken: the new
   * channel is the last of its user's channels and the last of that name.
   */
  lemma AddChannelListed(t: Tables, userId: nat, name: string)
    requires AddChannel(t, userId, name).Some?
    ensures var (t', c) := AddChannel(t, userId, name).value;
      && ChannelsOf(t'.channels, userId) == ChannelsOf(t.channels, userId) + [c]
      && ChannelsNamed(t'.channels, name) == ChannelsNamed(t.channels, name) + [c]
      && |t'.channels| == |t.channels| + 1
  {
    var (t', c) := AddChannel(t, userId, name).value;
    assert t'.channels[..|t'.channels| - 1] == t.channels;
  }

  lemma DeleteChannelKeepsValid(t: Tables, userId: nat, name: string)
    requires ValidTables(t)
    requires DeleteChannel(t, userId, name).Some?
    ensures ValidTables(DeleteChannel(t, userId, name).value)
  {
    var t' := DeleteChannel(t, userId, name).value;
    WithoutChannelIncreasing(t.channels, userId, name, t.nextChannelId);
    forall p | p in t'.posts ensures HasChannel(t'.channels, p.channelId) {
      var w :| w in t.channels && w.channelId == p.channelId;
      assert w in t'.channels;
    }
  }

  lemma {:induction false} WithoutChannelIncreasing(channels: seq<Channel>, userId: nat, name: string, next: nat)
    requires ChannelIdsIncreasing(channels, next)
    ensures ChannelIdsIncreasing(WithoutChannel(channels, userId, name), next)
    decreases |channels|
  {
    if channels != [] {
      var init := channels[..|channels| - 1];
      var last := channels[|channels| - 1];
      assert channels == init + [last];
      InitIncreasing(channels, next);
      WithoutChannelIncreasing(init, userId, name, last.channelId);
      var rest := WithoutChannel(init, userId, name);
      if last.userId == userId && last.name == name {
        IncreasingBelowMore(rest, last.channelId, next);
      } else {
        AppendIncreasing(rest, last, next);
      }
    }
  }

  /** The ids before the last row are below the last row's id. */
  lemma InitIncreasing(channels: seq<Channel>, next: nat)
    requires channels != [] && ChannelIdsIncreasing(channels, next)
    ensures ChannelIdsIncreasing(channels[..|channels| - 1], channels[|channels| - 1].channelId)
    ensures channels[|channels| - 1].channelId < next
  {
    var init := channels[..|channels| - 1];
    forall i | 0 <= i < |init| ensures init[i].channelId < channels[|channels| - 1].channelId {
      assert init[i] == channels[i];
    }
  }

  lemma IncreasingBelowMore(channels: seq<Channel>, bound: nat, next: nat)
    requires ChannelIdsIncreasing(channels, bound) && bound <= next
    ensures ChannelIdsIncreasing(channels, next)
  {
  }

  /** Appending a row whose id is above all others and below `next` keeps the ids increasing. */
  lemma AppendIncreasing(channels: seq<Channel>, last: Channel, next: nat)
    requires ChannelIdsIncreasing(channels, last.channelId) && last.channelId < next
    ensures ChannelIdsIncreasing(channels + [last], next)
  {
    var r := channels + [last];
    forall i, j | 0 <= i < j < |r| ensures r[i].channelId < r[j].channelId {
      assert r[i] == channels[i];
      if j < |channels| {
        assert r[j] == channels[j];
      }
    }
    forall i | 0 <= i < |r| ensures r[i].channelId < next {
      if i < |channels| {
        assert r[i] == channels[i];
      }
    }
  }
}
