/**
 * The database behind `src/services/database.py` as an object: the five
 * tables are fields that the operations update in place, and every query
 * is the loop the SQL engine runs over a table. Each method is proved
 * against the function of the same name in `Database`.
 */
module DatabaseStore {
  import opened Wrappers
  import opened Database

  class Store {
    var users: seq<User>
    var channels: seq<Channel>
    var ideas: seq<Idea>
    var styles: seq<Style>
    var posts: seq<Post>
    var nextUserId: nat
    var nextChannelId: nat
    var nextIdeaId: nat
    var nextStyleId: nat
    var nextPostId: nat

    /** The tables as a value. */
    function Contents(): Tables
      reads this
    {
      Tables(users, channels, ideas, styles, posts, nextUserId, nextChannelId, nextIdeaId, nextStyleId, nextPostId)
    }

    /** The schema's constraints and the serial counters hold of the tables. */
    predicate Valid()
      reads this
    {
      ValidTables(Contents())
    }

    /** `init_db` on an empty database. */
    constructor ()
      ensures Contents() == EmptyTables && Valid()
    {
      users, channels, ideas, styles, posts := [], [], [], [], [];
      nextUserId, nextChannelId, nextIdeaId, nextStyleId, nextPostId := 1, 1, 1, 1, 1;
      EmptyTablesValid();
    }

    /** `get_user`: the first row with that `telegram_id`. */
    method GetUser(telegramId: int) returns (r: Option<User>)
      ensures r == UserByTelegramId(users, telegramId)
    {
      r := None;
      var i := 0;
      while i < |users|
        invariant 0 <= i <= |users|
        invariant r == UserByTelegramId(users[..i], telegramId)
      {
        assert users[..i + 1][..i] == users[..i];
        if r.None? && users[i].telegramId == telegramId {
          r := Some(users[i]);
        }
        i := i + 1;
      }
      assert users[..i] == users;
    }

    /** `add_user`: look the user up, insert only when absent. */
    method AddUser(telegramId: int, username: Option<string>) returns (u: User)
      modifies this
      ensures (Contents(), u) == Database.AddUser(old(Contents()), telegramId, username)
      ensures old(Valid()) ==> Valid()
    {
      if Valid() {
        AddUserKeepsValid(Contents(), telegramId, username);
      }
      var found := GetUser(telegramId);
      if found.Some? {
        u := found.value;
      } else {
        u := User(nextUserId, username, telegramId);
        users := users + [u];
        nextUserId := nextUserId + 1;
      }
    }

    /** The foreign-key check of `channels.user_id`. */
    method UserExists(userId: nat) returns (b: bool)
      ensures b == HasUser(users, userId)
    {
      b := false;
      var i := 0;
      while i < |users|
        invariant 0 <= i <= |users|
        invariant b == HasUser(users[..i], userId)
      {
        assert users[..i + 1] == users[..i] + [users[i]];
        b := b || users[i].userId == userId;
        i := i + 1;
      }
      assert users[..i] == users;
    }

    /** `add_channel`: a plain insert; the foreign key makes it fail for an unknown user. */
    method AddChannel(userId: nat, name: string) returns (r: Option<Channel>)
      modifies this
      ensures var res := Database.AddChannel(old(Contents()), userId, name);
        && (res.None? ==> r.None? && unchanged(this))
        && (res.Some? ==> r == Some(res.value.1) && Contents() == res.value.0)
      ensures old(Valid()) ==> Valid()
    {
      var known := UserExists(userId);
      if !known {
        return None;
      }
      if Valid() {
        AddChannelKeepsValid(Contents(), userId, name);
      }
      var c := Channel(nextChannelId, userId, name, DefaultStatus);
      channels := channels + [c];
      nextChannelId := nextChannelId + 1;
      r := Some(c);
    }

    /** `get_channels`: the user's channels, in insertion order. */
    method GetChannels(userId: nat) returns (r: seq<Channel>)
      ensures r == ChannelsOf(channels, userId)
    {
      r := [];
      var i := 0;
      while i < |channels|
        invariant 0 <= i <= |channels|
        invariant r == ChannelsOf(channels[..i], userId)
      {
        assert channels[..i + 1][..i] == channels[..i];
        if channels[i].userId == userId {
          r := r + [channels[i]];
        }
        i := i + 1;
      }
      assert channels[..i] == channels;
    }

    /** `get_channels_by_name`: every user's channels with that name. */
    method GetChannelsByName(name: string) returns (r: seq<Channel>)
      ensures r == ChannelsNamed(channels, name)
    {
      r := [];
      var i := 0;
      while i < |channels|
        invariant 0 <= i <= |channels|
        invariant r == ChannelsNamed(channels[..i], name)
      {
        assert channels[..i + 1][..i] == channels[..i];
        if channels[i].name == name {
          r := r + [channels[i]];
        }
        i := i + 1;
      }
      assert channels[..i] == channels;
    }

    /**
     * `delete_channel(user_id, name)`: collects the rows to remove and keeps
     * the others, in order; then the foreign key of `posts.channel_id` is
     * checked, and a post of a removed row makes the delete fail unapplied.
     */
    method DeleteChannel(userId: nat, name: string) returns (deleted: bool)
      modifies this
      ensures var res := Database.DeleteChannel(old(Contents()), userId, name);
        && (res.None? ==> !deleted && unchanged(this))
        && (res.Some? ==> deleted && Contents() == res.value)
      ensures old(Valid()) ==> Valid()
    {
      var kept, removed := MatchingChannels(userId, name);
      var referenced := Referenced(removed);
      if referenced {
        return false;
      }
      if Valid() {
        DeleteChannelKeepsValid(Contents(), userId, name);
      }
      channels := kept;
      deleted := true;
    }

    /** One pass over `channels`: the rows to keep, in order, and the ids of those to remove. */
    method MatchingChannels(userId: nat, name: string) returns (kept: seq<Channel>, removed: set<nat>)
      ensures kept == WithoutChannel(channels, userId, name)
      ensures removed == RemovedIds(channels, userId, name)
    {
      kept := [];
      removed := {};
      var i := 0;
      while i < |channels|
        invariant 0 <= i <= |channels|
        invariant kept == WithoutChannel(channels[..i], userId, name)
        invariant removed == RemovedIds(channels[..i], userId, name)
      {
        MatchingStep(channels, i, userId, name);
        if channels[i].userId == userId && channels[i].name == name {
          removed := removed + {channels[i].channelId};
        } else {
          kept := kept + [channels[i]];
        }
        i := i + 1;
      }
      assert channels[..i] == channels;
    }

    /** The foreign-key check of a delete: does any post refer to one of these channels? */
    method Referenced(ids: set<nat>) returns (b: bool)
      ensures b <==> exists p :: p in posts && p.channelId in ids
    {
      b := false;
      var j := 0;
      while j < |posts|
        invariant 0 <= j <= |posts|
        invariant b <==> exists p :: p in posts[..j] && p.channelId in ids
      {
        assert posts[..j + 1] == posts[..j] + [posts[j]];
        b := b || posts[j].channelId in ids;
        j := j + 1;
      }
      assert posts[..j] == posts;
    }

    /** The foreign-key check of `posts.channel_id`. */
    method ChannelExists(channelId: nat) returns (b: bool)
      ensures b == HasChannel(channels, channelId)
    {
      b := false;
      var i := 0;
      while i < |channels|
        invariant 0 <= i <= |channels|
        invariant b == HasChannel(channels[..i], channelId)
      {
        assert channels[..i + 1] == channels[..i] + [channels[i]];
        b := b || channels[i].channelId == channelId;
        i := i + 1;
      }
      assert channels[..i] == channels;
    }

    /** `SELECT idea_id FROM ideas WHERE title = ...`. */
    method FindIdea(title: string) returns (r: Option<Idea>)
      ensures r == IdeaByTitle(ideas, title)
    {
      r := None;
      var i := 0;
      while i < |ideas|
        invariant 0 <= i <= |ideas|
        invariant r == IdeaByTitle(ideas[..i], title)
      {
        assert ideas[..i + 1][..i] == ideas[..i];
        if r.None? && ideas[i].title == title {
          r := Some(ideas[i]);
        }
        i := i + 1;
      }
      assert ideas[..i] == ideas;
    }

    /** `SELECT style_id FROM styles WHERE name = ...`. */
    method FindStyle(name: string) returns (r: Option<Style>)
      ensures r == StyleByName(styles, name)
    {
      r := None;
      var i := 0;
      while i < |styles|
        invariant 0 <= i <= |styles|
        invariant r == StyleByName(styles[..i], name)
      {
        assert styles[..i + 1][..i] == styles[..i];
        if r.None? && styles[i].name == name {
          r := Some(styles[i]);
        }
        i := i + 1;
      }
      assert styles[..i] == styles;
    }

    /** The idea part of `add_post`: the row with that title, inserted when missing. */
    method FindOrCreateIdea(title: string) returns (ideaId: nat)
      modifies this
      ensures (Contents(), ideaId) == Database.FindOrCreateIdea(old(Contents()), title)
    {
      var idea := FindIdea(title);
      if idea.Some? {
        ideaId := idea.value.ideaId;
      } else {
        ideaId := nextIdeaId;
        ideas := ideas + [Idea(ideaId, title)];
        nextIdeaId := nextIdeaId + 1;
      }
    }

    /** The style part of `add_post`: the row with that name, inserted when missing. */
    method FindOrCreateStyle(name: string) returns (styleId: nat)
      modifies this
      ensures (Contents(), styleId) == Database.FindOrCreateStyle(old(Contents()), name)
    {
      var style := FindStyle(name);
      if style.Some? {
        styleId := style.value.styleId;
      } else {
        styleId := nextStyleId;
        styles := styles + [Style(styleId, name)];
        nextStyleId := nextStyleId + 1;
      }
    }

    /**
     * `add_post`: find or create the idea and the style, then insert the
     * post; an unknown channel makes the insert fail and nothing is kept.
     */
    method AddPost(channelId: nat, title: string, styleName: string, text: string) returns (r: Option<Post>)
      modifies this
      ensures var res := Database.AddPost(old(Contents()), channelId, title, styleName, text);
        && (res.None? ==> r.None? && unchanged(this))
        && (res.Some? ==> r == Some(res.value.1) && Contents() == res.value.0)
      ensures old(Valid()) ==> Valid()
    {
      var known := ChannelExists(channelId);
      if !known {
        return None;
      }
      if Valid() {
        AddPostKeepsValid(Contents(), channelId, title, styleName, text);
      }
      var ideaId := FindOrCreateIdea(title);
      var styleId := FindOrCreateStyle(styleName);
      var p := Post(nextPostId, channelId, ideaId, styleId, text, nextPostId);
      posts := posts + [p];
      nextPostId := nextPostId + 1;
      r := Some(p);
    }

    /**
     * `get_last_posts`: walks the posts from the newest back and keeps the
     * channel's until `limit` rows are collected.
     */
    method GetLastPosts(channelId: nat, limit: nat := DefaultLimit) returns (r: seq<RecentPost>)
      ensures r == LastPosts(Contents(), channelId, limit)
    {
      var t := Contents();
      r := [];
      var i := |posts|;
      assert posts[..i] == posts;
      while i > 0 && |r| < limit
        invariant 0 <= i <= |posts|
        invariant |r| <= limit
        invariant r + LastPostsFrom(t, posts[..i], channelId, limit - |r|) == LastPostsFrom(t, posts, channelId, limit)
        decreases i
      {
        LastPostsStep(t, posts[..i], channelId, limit - |r|);
        assert posts[..i][..i - 1] == posts[..i - 1];
        if posts[i - 1].channelId == channelId {
          ghost var rest := LastPostsFrom(t, posts[..i - 1], channelId, limit - |r| - 1);
          assert (r + [Row(t, posts[i - 1])]) + rest == r + ([Row(t, posts[i - 1])] + rest);
          r := r + [Row(t, posts[i - 1])];
        }
        i := i - 1;
      }
    }
  }
}
