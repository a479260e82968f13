/**
 * The loops of `handle_file` in both `addposts.py` files: one pass over the
 * blocks, lines or rows of an uploaded file, one `add_post` per parsed entry
 * and a `saved_posts` counter. Each loop is proved against `SaveFrom` over
 * what its per-item parser returns, and `SaveFrom` is shown to be
 * `SaveEntries` over the entries the matching `PostFormats` function reads.
 */
module PostImport {
  import opened Wrappers
  import opened Database
  import opened DatabaseStore
  import opened PostFormats

  /** The entries among the per-item results, in order. */
  function Present(items: seq<Option<Entry>>): seq<Entry>
    decreases |items|
  {
    if items == [] then []
    else (match items[0] case Some(e) => [e] case None => []) + Present(items[1..])
  }

  /** One pass of a loop: an item's entry, if any, handed to `add_post`. */
  ghost function SaveItem(t: Tables, channelId: nat, item: Option<Entry>): Option<Tables> {
    match item
    case None => Some(t)
    case Some(e) =>
      match AddPost(t, channelId, UserIdea, e.style, e.text)
      case None => None
      case Some((t1, _)) => Some(t1)
  }

  /** What a loop does from item `i` on; `None` once an insert fails. */
  ghost function SaveFrom(t: Tables, channelId: nat, items: seq<Option<Entry>>, i: nat): Option<Tables>
    requires i <= |items|
    decreases |items| - i
  {
    if i == |items| then Some(t)
    else match SaveItem(t, channelId, items[i])
      case None => None
      case Some(t1) => SaveFrom(t1, channelId, items, i + 1)
  }

  lemma PresentAt(items: seq<Option<Entry>>, i: nat)
    requires i < |items|
    ensures items[i].None? ==> Present(items[i..]) == Present(items[i + 1..])
    ensures items[i].Some? ==> Present(items[i..]) == [items[i].value] + Present(items[i + 1..])
  {
    assert items[i..][0] == items[i];
    assert items[i..][1..] == items[i + 1..];
  }

  /** The batch from an entry on, after the store has handled that entry. */
  lemma SaveEntriesCons(t: Tables, channelId: nat, e: Entry, rest: seq<Entry>)
    ensures AddPost(t, channelId, UserIdea, e.style, e.text).None? ==> SaveEntries(t, channelId, [e] + rest).None?
    ensures AddPost(t, channelId, UserIdea, e.style, e.text).Some? ==>
      var t1 := AddPost(t, channelId, UserIdea, e.style, e.text).value.0;
      SaveEntries(t, channelId, [e] + rest) == SaveEntries(t1, channelId, rest)
  {
    assert ([e] + rest)[0] == e && ([e] + rest)[1..] == rest;
  }

  lemma {:induction false} SaveFromIsSaveEntries(t: Tables, channelId: nat, items: seq<Option<Entry>>, i: nat)
    requires i <= |items|
    ensures SaveFrom(t, channelId, items, i) == SaveEntries(t, channelId, Present(items[i..]))
    decreases |items| - i
  {
    if i < |items| {
      PresentAt(items, i);
      match items[i]
      case None =>
        SaveFromIsSaveEntries(t, channelId, items, i + 1);
      case Some(e) =>
        SaveEntriesCons(t, channelId, e, Present(items[i + 1..]));
        if AddPost(t, channelId, UserIdea, e.style, e.text).Some? {
          SaveFromIsSaveEntries(AddPost(t, channelId, UserIdea, e.style, e.text).value.0, channelId, items, i + 1);
        }
    } else {
      assert items[i..] == [];
    }
  }

  /** A whole loop saves exactly the entries present among its items, as `SaveEntries` does. */
  lemma SaveFromStartIsSaveEntries(t: Tables, channelId: nat, items: seq<Option<Entry>>)
    ensures SaveFrom(t, channelId, items, 0) == SaveEntries(t, channelId, Present(items))
  {
    SaveFromIsSaveEntries(t, channelId, items, 0);
    assert items[0..] == items;
  }

  /** The results of the per-item parsers, item by item. */
  function BlockItems(blocks: seq<string>): (r: seq<Option<Entry>>)
    ensures |r| == |blocks| && forall k :: 0 <= k < |blocks| ==> r[k] == BlockEntry(blocks[k])
  {
    seq(|blocks|, k requires 0 <= k < |blocks| => BlockEntry(blocks[k]))
  }

  function LineItems(lines: seq<string>): (r: seq<Option<Entry>>)
    ensures |r| == |lines| && forall k :: 0 <= k < |lines| ==> r[k] == LineEntry(lines[k])
  {
    seq(|lines|, k requires 0 <= k < |lines| => LineEntry(lines[k]))
  }

  function RowItems(rows: seq<seq<string>>): (r: seq<Option<Entry>>)
    ensures |r| == |rows| && forall k :: 0 <= k < |rows| ==> r[k] == RowEntry(rows[k])
  {
    seq(|rows|, k requires 0 <= k < |rows| => RowEntry(rows[k]))
  }

  lemma {:induction false} BlockItemsPresent(blocks: seq<string>)
    ensures Present(BlockItems(blocks)) == BlockEntries(blocks)
    decreases |blocks|
  {
    if blocks != [] {
      assert BlockItems(blocks)[1..] == BlockItems(blocks[1..]);
      BlockItemsPresent(blocks[1..]);
    }
  }

  lemma {:induction false} LineItemsPresent(lines: seq<string>)
    ensures Present(LineItems(lines)) == LineEntries(lines)
    decreases |lines|
  {
    if lines != [] {
      assert LineItems(lines)[1..] == LineItems(lines[1..]);
      LineItemsPresent(lines[1..]);
    }
  }

  lemma {:induction false} RowItemsPresent(rows: seq<seq<string>>)
    ensures Present(RowItems(rows)) == RowEntries(rows)
    decreases |rows|
  {
    if rows != [] {
      assert RowItems(rows)[1..] == RowItems(rows[1..]);
      RowItemsPresent(rows[1..]);
    }
  }

  /**
   * The body of every loop: save the item's entry, if it has one. `added`
   * tells whether a post was stored, which is what `saved_posts += 1` counts.
   */
  method SaveOne(db: Store, channelId: nat, item: Option<Entry>) returns (ok: bool, added: bool)
    modifies db
    ensures var r := SaveItem(old(db.Contents()), channelId, item);
      && (ok <==> r.Some?)
      && (ok ==> db.Contents() == r.value)
      && added == (ok && item.Some?)
      && (!added ==> unchanged(db))
      && (!ok ==> !HasChannel(db.channels, channelId))
      && |db.posts| == |old(db.posts)| + (if added then 1 else 0)
      && db.channels == old(db.channels)
  {
    if item.None? {
      return true, false;
    }
    var e := item.value;
    AddPostEffect(db.Contents(), channelId, UserIdea, e.style, e.text);
    var p := db.AddPost(channelId, UserIdea, e.style, e.text);
    ok := p.Some?;
    added := ok;
  }

  /**
   * The `.txt` branch of `handle_file` in `ai_telegram_bot`: the `Пост:`
   * blocks saved one by one. When an insert fails nothing has been stored;
   * otherwise the store holds what `SaveFrom` computes and `saved` counts
   * the new posts.
   */
  method SaveBlocks(db: Store, channelId: nat, blocks: seq<string>) returns (saved: nat, ok: bool)
    modifies db
    ensures ok <==> SaveFrom(old(db.Contents()), channelId, BlockItems(blocks), 0).Some?
    ensures ok ==> Some(db.Contents()) == SaveFrom(old(db.Contents()), channelId, BlockItems(blocks), 0)
    ensures ok ==> |db.posts| == |old(db.posts)| + saved
    ensures !ok ==> unchanged(db)
  {
    ghost var t0 := db.Contents();
    ghost var items := BlockItems(blocks);
    saved, ok := 0, true;
    var i := 0;
    while i < |blocks|
      invariant 0 <= i <= |blocks|
      invariant SaveFrom(db.Contents(), channelId, items, i) == SaveFrom(t0, channelId, items, 0)
      invariant |db.posts| == |old(db.posts)| + saved
      invariant db.channels == old(db.channels)
      invariant saved > 0 ==> HasChannel(db.channels, channelId)
      invariant saved == 0 ==> unchanged(db)
    {
      var stepOk, added := SaveOne(db, channelId, BlockEntry(blocks[i]));
      if !stepOk {
        return 0, false;
      }
      if added {
        saved := saved + 1;
      }
      i := i + 1;
    }
  }

  /** The `.txt` branch of `handle_file` in `src`: the non-blank lines saved one by one. */
  method SaveLines(db: Store, channelId: nat, lines: seq<string>) returns (saved: nat, ok: bool)
    modifies db
    ensures ok <==> SaveFrom(old(db.Contents()), channelId, LineItems(lines), 0).Some?
    ensures ok ==> Some(db.Contents()) == SaveFrom(old(db.Contents()), channelId, LineItems(lines), 0)
    ensures ok ==> |db.posts| == |old(db.posts)| + saved
    ensures !ok ==> unchanged(db)
  {
    ghost var t0 := db.Contents();
    ghost var items := LineItems(lines);
    saved, ok := 0, true;
    var i := 0;
    while i < |lines|
      invariant 0 <= i <= |lines|
      invariant SaveFrom(db.Contents(), channelId, items, i) == SaveFrom(t0, channelId, items, 0)
      invariant |db.posts| == |old(db.posts)| + saved
      invariant db.channels == old(db.channels)
      invariant saved > 0 ==> HasChannel(db.channels, channelId)
      invariant saved == 0 ==> unchanged(db)
    {
      var stepOk, added := SaveOne(db, channelId, LineEntry(lines[i]));
      if !stepOk {
        return 0, false;
      }
      if added {
        saved := saved + 1;
      }
      i := i + 1;
    }
  }

  /** The `.csv` branch of `handle_file`, the same in both variants: the non-empty rows saved one by one. */
  method SaveRows(db: Store, channelId: nat, rows: seq<seq<string>>) returns (saved: nat, ok: bool)
    modifies db
    ensures ok <==> SaveFrom(old(db.Contents()), channelId, RowItems(rows), 0).Some?
    ensures ok ==> Some(db.Contents()) == SaveFrom(old(db.Contents()), channelId, RowItems(rows), 0)
    ensures ok ==> |db.posts| == |old(db.posts)| + saved
    ensures !ok ==> unchanged(db)
  {
    ghost var t0 := db.Contents();
    ghost var items := RowItems(rows);
    saved, ok := 0, true;
    var i := 0;
    while i < |rows|
      invariant 0 <= i <= |rows|
      invariant SaveFrom(db.Contents(), channelId, items, i) == SaveFrom(t0, channelId, items, 0)
      invariant |db.posts| == |old(db.posts)| + saved
      invariant db.channels == old(db.channels)
      invariant saved > 0 ==> HasChannel(db.channels, channelId)
      invariant saved == 0 ==> unchanged(db)
    {
      var stepOk, added := SaveOne(db, channelId, RowEntry(rows[i]));
      if !stepOk {
        return 0, false;
      }
      if added {
        saved := saved + 1;
      }
      i := i + 1;
    }
  }

  /**
   * Whatever a loop stores is the batch `SaveEntries` saves: it fails exactly
   * when there is something to save and the channel is missing, and then
   * stores nothing; otherwise `saved` is the number of entries.
   */
  lemma SavedBatch(t0: Tables, t: Tables, channelId: nat, items: seq<Option<Entry>>, saved: nat, ok: bool)
    requires ok <==> SaveFrom(t0, channelId, items, 0).Some?
    requires ok ==> Some(t) == SaveFrom(t0, channelId, items, 0) && |t.posts| == |t0.posts| + saved
    ensures ok <==> (Present(items) == [] || HasChannel(t0.channels, channelId))
    ensures ok ==> Some(t) == SaveEntries(t0, channelId, Present(items)) && saved == |Present(items)|
  {
    SaveFromStartIsSaveEntries(t0, channelId, items);
    SaveEntriesFails(t0, channelId, Present(items));
    if ok {
      SaveEntriesAppends(t0, channelId, Present(items));
    }
  }
}
