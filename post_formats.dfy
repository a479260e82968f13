/**
 * How example posts reach the store in both `addposts.py` files: the
 * `Стиль:` convention of `parse_line_style` and of manual messages, the
 * `.txt` formats (blocks introduced by `Пост:` in `ai_telegram_bot`, one post
 * per line in `src`), `.csv` rows, and the store effect of saving a batch.
 */
module PostFormats {
  import opened Wrappers
  import opened Text
  import opened Database

  /** The style a post gets when none is given. */
  const DefaultStyle: string := "ручной ввод"

  /** The idea title every imported or typed-in post is filed under. */
  const UserIdea: string := "Пост придуман пользователем"

  const StyleMarker: string := "Стиль:"
  const ManualStyleMarker: string := "\nСтиль:"
  const PostMarker: string := "Пост:"

  /** A post to be stored: its text and its style name. */
  datatype Entry = Entry(text: string, style: string)

  lemma MarkersHaveUniqueHeads()
    ensures HeadIsUnique(StyleMarker) && HeadIsUnique(ManualStyleMarker) && HeadIsUnique(PostMarker)
  {
  }

  // ---------------------------------------------------------------
  // parse_line_style and manual messages
  // ---------------------------------------------------------------

  /** `parse_line_style`: text and style split at the last `Стиль:`, both stripped. */
  function ParseLineStyle(line: string): (r: Entry)
    ensures IsStripped(r.text) && |r.text| <= |line|
    ensures Contains(line, StyleMarker) ==> IsStripped(r.style) && |r.text| + |StyleMarker| + |r.style| <= |line|
    ensures !Contains(line, StyleMarker) ==> r.style == DefaultStyle
  {
    match SplitLast(line, StyleMarker)
    case Some((before, after)) => Entry(Strip(before), Strip(after))
    case None => Entry(Strip(line), DefaultStyle)
  }

  /** The style convention of `save_manual_post`: the last `\nСтиль:` on a line of its own. */
  function ManualEntry(message: string): (r: Entry)
    ensures !Contains(message, ManualStyleMarker) ==> r == Entry(message, DefaultStyle)
    ensures Contains(message, ManualStyleMarker) ==> IsStripped(r.text) && IsStripped(r.style) && |r.text| + |ManualStyleMarker| + |r.style| <= |message|
  {
    match SplitLast(message, ManualStyleMarker)
    case Some((before, after)) => Entry(Strip(before), Strip(after))
    case None => Entry(message, DefaultStyle)
  }

  /** A line in the format the bot asks for: text, the marker, the style. */
  function StyledLine(text: string, style: string): string {
    text + StyleMarker + style
  }

  /**
   * `parse_line_style` reads back a styled line: the text before the last
   * marker (which may itself contain the marker) and the style after it.
   */
  lemma ParseStyledLine(text: string, style: string)
    requires IsStripped(text) && IsStripped(style) && !Contains(style, StyleMarker)
    ensures ParseLineStyle(StyledLine(text, style)) == Entry(text, style)
  {
    MarkersHaveUniqueHeads();
    SplitLastOf(text, StyleMarker, style);
    StrippedIsFixed(text);
    StrippedIsFixed(style);
  }

  /** Without the marker the whole line, stripped, is the text and the style is the default. */
  lemma ParseUnstyledLine(line: string)
    requires !Contains(line, StyleMarker)
    ensures ParseLineStyle(line) == Entry(Strip(line), DefaultStyle)
  {
  }

  /** With the marker, the text and the style are what surrounds its last occurrence. */
  lemma ParseLineStyleSplitsAtLast(line: string)
    requires Contains(line, StyleMarker)
    ensures exists before, after ::
      && line == before + StyleMarker + after
      && !Contains(after, StyleMarker)
      && ParseLineStyle(line) == Entry(Strip(before), Strip(after))
  {
    var (before, after) := SplitLast(line, StyleMarker).value;
    AfterLastLacksSeparator(line, StyleMarker);
  }

  /** A manual message "text\nСтиль: style" is read back as its text and style. */
  lemma ManualStyledMessage(text: string, style: string)
    requires IsStripped(text) && IsStripped(style) && !Contains(style, ManualStyleMarker)
    ensures ManualEntry(text + ManualStyleMarker + style) == Entry(text, style)
  {
    MarkersHaveUniqueHeads();
    SplitLastOf(text, ManualStyleMarker, style);
    StrippedIsFixed(text);
    StrippedIsFixed(style);
  }

  /** A manual message without the marker is saved verbatim, not even stripped. */
  lemma ManualPlainMessage(message: string)
    requires !Contains(message, ManualStyleMarker)
    ensures ManualEntry(message) == Entry(message, DefaultStyle)
  {
  }

  // ---------------------------------------------------------------
  // File formats
  // ---------------------------------------------------------------

  /**
   * One `Пост:` block of an `ai_telegram_bot` `.txt` file: stripped, split at
   * the first `Стиль:`, each side stripped of whitespace and then of double
   * quotes. `None` when nothing is saved (a blank block or an empty text).
   */
  function BlockEntry(block: string): (r: Option<Entry>)
    ensures r.Some? ==> r.value.text != []
    ensures Strip(block) == [] ==> r.None?
  {
    var b := Strip(block);
    if b == [] then None
    else
      var e := match SplitFirst(b, StyleMarker)
        case Some((textPart, stylePart)) => Entry(StripQuotes(Strip(textPart)), StripQuotes(Strip(stylePart)))
        case None => Entry(StripQuotes(Strip(b)), DefaultStyle);
      if e.text == [] then None else Some(e)
  }

  /**
   * A non-blank block without `Стиль:` is all text, in the default style; it
   * is skipped exactly when nothing but quotes is left of it.
   */
  lemma BlockEntryWithoutMarker(block: string)
    requires Strip(block) != [] && !Contains(Strip(block), StyleMarker)
    ensures BlockEntry(block).None? <==> StripQuotes(Strip(block)) == []
    ensures BlockEntry(block).Some? ==> BlockEntry(block).value == Entry(StripQuotes(Strip(block)), DefaultStyle)
  {
    StripIdempotent(block);
  }

  /**
   * A block with `Стиль:` is cut at its first one: the text comes from before
   * it and the style from after it; the block is skipped exactly when the
   * text is empty.
   */
  lemma BlockEntryAtFirstMarker(block: string)
    requires Contains(Strip(block), StyleMarker)
    ensures SplitFirst(Strip(block), StyleMarker).Some?
    ensures var (textPart, stylePart) := SplitFirst(Strip(block), StyleMarker).value;
      && Strip(block) == textPart + StyleMarker + stylePart
      && !Contains(textPart, StyleMarker)
      && (BlockEntry(block).None? <==> StripQuotes(Strip(textPart)) == [])
      && (BlockEntry(block).Some? ==> BlockEntry(block).value == Entry(StripQuotes(Strip(textPart)), StripQuotes(Strip(stylePart))))
  {
    var b := Strip(block);
    var (textPart, stylePart) := SplitFirst(b, StyleMarker).value;
    assert !Contains(textPart, StyleMarker) by { BeforeFirstLacksSeparator(b, StyleMarker); }
    var e := Entry(StripQuotes(Strip(textPart)), StripQuotes(Strip(stylePart)));
    assert BlockEntry(block) == if e.text == [] then None else Some(e);
  }

  /** One line of a `src` `.txt` file: blank lines are skipped, others go through `parse_line_style`. */
  function LineEntry(line: string): (r: Option<Entry>)
    ensures r.None? <==> Strip(line) == []
  {
    if Strip(line) == [] then None else Some(ParseLineStyle(line))
  }

  /**
   * One `.csv` row: an empty row is skipped; a single cell goes through
   * `parse_line_style`; otherwise cell 0 is the text and cell 1 the style,
   * verbatim. The text is stripped once more before saving.
   */
  function RowEntry(row: seq<string>): (r: Option<Entry>)
    ensures r.None? <==> row == []
    ensures |row| == 1 ==> r == Some(ParseLineStyle(row[0]))
    ensures |row| >= 2 ==> r.Some? && r.value.style == row[1] && TrimmedFrom(r.value.text, row[0])
  {
    if row == [] then None
    else if |row| == 1 then
      var e := ParseLineStyle(row[0]);
      StrippedIsFixed(e.text);
      Some(Entry(Strip(e.text), e.style))
    else
      StripIsTrimmed(row[0]);
      Some(Entry(Strip(row[0]), row[1]))
  }

  /** A row of a stripped text and a style, with any further cells, is read back as that pair. */
  lemma RowEntryOfPair(text: string, style: string, more: seq<string>)
    requires IsStripped(text)
    ensures RowEntry([text, style] + more) == Some(Entry(text, style))
  {
    StrippedIsFixed(text);
  }

  /** The `Пост:` blocks of a file (`content.split("Пост:")`). */
  function Blocks(content: string): seq<string> {
    Split(content, PostMarker)
  }

  /**
   * The lines of a `src` `.txt` file. Iterating a text file yields the same
   * pieces with their "\n" still attached; every use strips it off again.
   */
  function FileLines(content: string): seq<string> {
    Split(content, "\n")
  }

  /** The entries saved from the blocks, in file order. */
  function BlockEntries(blocks: seq<string>): seq<Entry>
    decreases |blocks|
  {
    if blocks == [] then []
    else (match BlockEntry(blocks[0]) case Some(e) => [e] case None => []) + BlockEntries(blocks[1..])
  }

  /** The entries saved from the lines, in file order. */
  function LineEntries(lines: seq<string>): seq<Entry>
    decreases |lines|
  {
    if lines == [] then []
    else (match LineEntry(lines[0]) case Some(e) => [e] case None => []) + LineEntries(lines[1..])
  }

  /** The entries saved from the rows, in file order. */
  function RowEntries(rows: seq<seq<string>>): seq<Entry>
    decreases |rows|
  {
    if rows == [] then []
    else (match RowEntry(rows[0]) case Some(e) => [e] case None => []) + RowEntries(rows[1..])
  }

  /** The non-blank lines, in order. */
  function NonBlank(lines: seq<string>): seq<string>
    decreases |lines|
  {
    if lines == [] then []
    else (if Strip(lines[0]) == [] then [] else [lines[0]]) + NonBlank(lines[1..])
  }

  /** Every non-blank line becomes exactly one entry; blank lines none. */
  lemma {:induction false} LineEntriesCount(lines: seq<string>)
    ensures |LineEntries(lines)| == |NonBlank(lines)|
    decreases |lines|
  {
    if lines != [] {
      LineEntriesCount(lines[1..]);
    }
  }

  /** The non-empty rows, in order. */
  function NonEmptyRows(rows: seq<seq<string>>): seq<seq<string>>
    decreases |rows|
  {
    if rows == [] then []
    else (if rows[0] == [] then [] else [rows[0]]) + NonEmptyRows(rows[1..])
  }

  /** Every non-empty row becomes exactly one entry. */
  lemma {:induction false} RowEntriesCount(rows: seq<seq<string>>)
    ensures |RowEntries(rows)| == |NonEmptyRows(rows)|
    decreases |rows|
  {
    if rows != [] {
      RowEntriesCount(rows[1..]);
    }
  }

  // ---------------------------------------------------------------
  // The upload format read back
  // ---------------------------------------------------------------

  /**
   * One entry laid out as the upload instructions show it: after `Пост:`,
   * the text on a line of its own, then `Стиль:` and the style on the next two.
   */
  function DocumentedBlock(e: Entry): string {
    "\n" + e.text + "\n" + StyleMarker + "\n" + e.style + "\n"
  }

  function DocumentedBlocks(entries: seq<Entry>): (r: seq<string>)
    ensures |r| == |entries|
    decreases |entries|
  {
    if entries == [] then [] else [DocumentedBlock(entries[0])] + DocumentedBlocks(entries[1..])
  }

  lemma {:induction false} DocumentedBlocksIndex(entries: seq<Entry>, k: nat)
    requires k < |entries|
    ensures DocumentedBlocks(entries)[k] == DocumentedBlock(entries[k])
    decreases |entries|
  {
    if k > 0 {
      DocumentedBlocksIndex(entries[1..], k - 1);
    }
  }

  /** A `.txt` file in the block format the upload instructions describe. */
  function BlockFile(entries: seq<Entry>): string {
    Join([""] + DocumentedBlocks(entries), PostMarker)
  }

  /** Free of surrounding whitespace and of surrounding double quotes. */
  predicate IsClean(s: string) {
    IsStripped(s) && (s == [] || (s[0] != '"' && s[|s| - 1] != '"'))
  }

  /** An entry the block format carries unchanged. */
  predicate Transportable(e: Entry) {
    && e.text != [] && IsClean(e.text) && IsClean(e.style)
    && !Contains(e.text, StyleMarker)
    && !Contains(e.text, PostMarker) && !Contains(e.style, PostMarker)
  }

  lemma CleanIsFixed(s: string)
    requires IsClean(s)
    ensures StripQuotes(Strip(s)) == s
  {
    StrippedIsFixed(s);
    assert TrimLeft(s, Quote) == s;
  }

  /** A styled line with a non-empty stripped text and a stripped style is stripped. */
  lemma StyledLineIsStripped(text: string, style: string)
    requires text != [] && IsStripped(text) && IsStripped(style)
    ensures Strip(StyledLine(text, style)) == StyledLine(text, style)
  {
    var tail := StyleMarker + style;
    assert StyledLine(text, style) == text + tail;
    assert tail[|tail| - 1] == if style == [] then ':' else style[|style| - 1];
    StripKeepsStrippedTail(text, tail);
  }

  /** A block written on one line, `text Стиль: style`, is read back as well. */
  lemma BlockEntryOfStyledLine(e: Entry)
    requires Transportable(e)
    ensures BlockEntry(StyledLine(e.text, e.style)) == Some(e)
  {
    var line := StyledLine(e.text, e.style);
    StyledLineIsStripped(e.text, e.style);
    MarkersHaveUniqueHeads();
    SplitFirstOf(e.text, StyleMarker, e.style);
    assert SplitFirst(Strip(line), StyleMarker) == Some((e.text, e.style));
    CleanIsFixed(e.text);
    CleanIsFixed(e.style);
  }

  /** A block without `Стиль:` is a post in the default style. */
  lemma BlockEntryUnstyled(text: string)
    requires text != [] && IsClean(text) && !Contains(text, StyleMarker)
    ensures BlockEntry(text) == Some(Entry(text, DefaultStyle))
  {
    StrippedIsFixed(text);
    CleanIsFixed(text);
  }

  /** The double quotes around a block's text are dropped. */
  lemma BlockEntryQuoted(text: string)
    requires text != [] && IsClean(text) && !Contains(text, StyleMarker)
    ensures BlockEntry("\"" + text + "\"") == Some(Entry(text, DefaultStyle))
  {
    QuotedBlock(text);
    BlockEntryOfUnmarked("\"" + text + "\"", text);
  }

  /** A stripped block without the marker whose quotes leave `text` is that text in the default style. */
  lemma BlockEntryOfUnmarked(block: string, text: string)
    requires IsStripped(block) && block != [] && !Contains(block, StyleMarker)
    requires text != [] && StripQuotes(block) == text
    ensures BlockEntry(block) == Some(Entry(text, DefaultStyle))
  {
    StrippedIsFixed(block);
    BlockEntryWithoutMarker(block);
  }

  /** What a quoted text looks like to the block reader. */
  lemma QuotedBlock(text: string)
    requires IsClean(text) && !Contains(text, StyleMarker)
    ensures var q := "\"" + text + "\""; IsStripped(q) && !Contains(q, StyleMarker) && StripQuotes(q) == text
  {
    QuotedLacksMarker(text);
    StripQuotesPadded("\"", text, "\"");
  }

  /** Quotes around a text without `Стиль:` do not bring one about. */
  lemma QuotedLacksMarker(text: string)
    requires !Contains(text, StyleMarker)
    ensures !Contains("\"" + text + "\"", StyleMarker)
  {
    MarkersDiffer();
    NoOccurrenceAcross(text, '"', [], StyleMarker);
    assert text + ['"'] + [] == text + "\"";
    NoOccurrenceAcross([], '"', text + "\"", StyleMarker);
    assert [] + ['"'] + (text + "\"") == "\"" + text + "\"";
  }

  /** `Стиль:` and `Пост:` are told apart by their first letters. */
  lemma MarkersDiffer()
    ensures !Contains(StyleMarker, PostMarker) && !Contains([], PostMarker) && !Contains([], StyleMarker)
  {
    ContainsIff(StyleMarker, PostMarker);
    ContainsIff([], PostMarker);
    ContainsIff([], StyleMarker);
    forall j | 0 <= j && j + |PostMarker| <= |StyleMarker| ensures !OccursAt(StyleMarker, PostMarker, j) {
      assert StyleMarker[j..j + |PostMarker|][0] == StyleMarker[j];
    }
  }

  lemma MarkersLackBreaks()
    ensures forall k :: 0 <= k < |PostMarker| ==> PostMarker[k] != '\n'
    ensures forall k :: 0 <= k < |StyleMarker| ==> StyleMarker[k] != '\n'
  {
  }

  /** The line breaks of a documented block cannot bring `Пост:` about. */
  lemma DocumentedBlockLacksPostMarker(e: Entry)
    requires !Contains(e.text, PostMarker) && !Contains(e.style, PostMarker)
    ensures !Contains(DocumentedBlock(e), PostMarker)
  {
    MarkersDiffer();
    MarkersLackBreaks();
    var x1 := "\n" + e.text;
    assert !Contains(x1, PostMarker) by {
      NoOccurrenceAcross([], '\n', e.text, PostMarker);
      assert [] + "\n" == "\n";
    }
    var x2 := x1 + "\n" + StyleMarker;
    NoOccurrenceAcross(x1, '\n', StyleMarker, PostMarker);
    var x3 := x2 + "\n" + e.style;
    NoOccurrenceAcross(x2, '\n', e.style, PostMarker);
    NoOccurrenceAcross(x3, '\n', [], PostMarker);
    assert x3 + "\n" + [] == x3 + "\n";
  }

  /** A block whose stripped form is `head Стиль: rest`, `head` without the marker, is split there. */
  lemma BlockEntryOfSplit(block: string, head: string, rest: string)
    requires Strip(block) == head + StyleMarker + rest && !Contains(head, StyleMarker)
    ensures StripQuotes(Strip(head)) != [] ==>
      BlockEntry(block) == Some(Entry(StripQuotes(Strip(head)), StripQuotes(Strip(rest))))
  {
    MarkersHaveUniqueHeads();
    SplitFirstOf(head, StyleMarker, rest);
    assert Strip(block) != [];
  }

  /** The documented layout strips to `text`, a line break, `Стиль:` and the style on its own line. */
  lemma DocumentedBlockStrips(e: Entry)
    requires e.text != [] && IsStripped(e.text) && IsStripped(e.style)
    ensures Strip(DocumentedBlock(e)) == e.text + "\n" + StyleMarker + (if e.style == [] then [] else "\n" + e.style)
  {
    var t, st := e.text, e.style;
    var core := t + "\n" + StyleMarker + (if st == [] then [] else "\n" + st);
    assert core[0] == t[0];
    assert core[|core| - 1] == if st == [] then ':' else st[|st| - 1];
    if st == [] {
      assert DocumentedBlock(e) == "\n" + core + "\n\n";
      StripPadded("\n", core, "\n\n");
    } else {
      assert DocumentedBlock(e) == "\n" + core + "\n";
      StripPadded("\n", core, "\n");
    }
  }

  /** The text line of a documented block reads back as the text. */
  lemma DocumentedText(text: string)
    requires IsClean(text) && !Contains(text, StyleMarker)
    ensures !Contains(text + "\n", StyleMarker) && StripQuotes(Strip(text + "\n")) == text
  {
    MarkersDiffer();
    NoOccurrenceAcross(text, '\n', [], StyleMarker);
    assert text + ['\n'] + [] == text + "\n";
    StripPadded([], text, "\n");
    assert [] + text + "\n" == text + "\n";
    StrippedIsFixed(text);
    CleanIsFixed(text);
  }

  /** The style line of a documented block reads back as the style. */
  lemma DocumentedStyle(style: string)
    requires IsClean(style)
    ensures StripQuotes(Strip(if style == [] then [] else "\n" + style)) == style
  {
    if style != [] {
      StripPadded("\n", style, []);
      assert "\n" + style + [] == "\n" + style;
    }
    StrippedIsFixed(style);
    CleanIsFixed(style);
  }

  /** A block in the documented layout is read back as the entry it was written from. */
  lemma BlockEntryOfDocumentedBlock(e: Entry)
    requires Transportable(e)
    ensures BlockEntry(DocumentedBlock(e)) == Some(e)
  {
    DocumentedBlockStrips(e);
    DocumentedText(e.text);
    DocumentedStyle(e.style);
    BlockEntryOfSplit(DocumentedBlock(e), e.text + "\n", if e.style == [] then [] else "\n" + e.style);
  }

  lemma BlockEntriesCons(blocks: seq<string>, e: Entry)
    requires blocks != [] && BlockEntry(blocks[0]) == Some(e)
    ensures BlockEntries(blocks) == [e] + BlockEntries(blocks[1..])
  {
  }

  lemma EntriesCons(entries: seq<Entry>)
    requires entries != []
    ensures entries == [entries[0]] + entries[1..]
  {
  }

  /** Blocks that each yield their entry yield exactly those entries. */
  lemma {:induction false} BlockEntriesOfEach(blocks: seq<string>, entries: seq<Entry>)
    requires |blocks| == |entries|
    requires forall k :: 0 <= k < |blocks| ==> BlockEntry(blocks[k]) == Some(entries[k])
    ensures BlockEntries(blocks) == entries
    decreases |blocks|
  {
    if blocks != [] {
      var tail, rest := blocks[1..], entries[1..];
      assert BlockEntries(blocks) == [entries[0]] + BlockEntries(tail) by {
        BlockEntriesCons(blocks, entries[0]);
      }
      assert forall k :: 0 <= k < |tail| ==> BlockEntry(tail[k]) == Some(rest[k]) by {
        forall k | 0 <= k < |tail| ensures BlockEntry(tail[k]) == Some(rest[k]) {
          assert tail[k] == blocks[k + 1] && rest[k] == entries[k + 1];
        }
      }
      BlockEntriesOfEach(tail, rest);
      EntriesCons(entries);
    }
  }

  /** The pieces of a block file hold no `Пост:` of their own. */
  lemma DocumentedPartsLackPostMarker(entries: seq<Entry>)
    requires forall k :: 0 <= k < |entries| ==> Transportable(entries[k])
    ensures forall k :: 0 <= k < |entries| + 1 ==> !Contains(([""] + DocumentedBlocks(entries))[k], PostMarker)
  {
    var parts := [""] + DocumentedBlocks(entries);
    MarkersDiffer();
    forall k | 0 <= k < |parts| ensures !Contains(parts[k], PostMarker) {
      if k > 0 {
        DocumentedBlocksIndex(entries, k - 1);
        DocumentedBlockLacksPostMarker(entries[k - 1]);
      }
    }
  }

  /** Every documented block yields the entry it was written from. */
  lemma DocumentedBlocksReadBack(entries: seq<Entry>)
    requires forall k :: 0 <= k < |entries| ==> Transportable(entries[k])
    ensures forall k :: 0 <= k < |entries| ==> BlockEntry(DocumentedBlocks(entries)[k]) == Some(entries[k])
  {
    forall k | 0 <= k < |entries| ensures BlockEntry(DocumentedBlocks(entries)[k]) == Some(entries[k]) {
      DocumentedBlocksIndex(entries, k);
      BlockEntryOfDocumentedBlock(entries[k]);
    }
  }

  /**
   * A file written in the block format is read back as exactly the entries
   * it was written from, in order: the blank piece before the first `Пост:`
   * is skipped and every block yields its text and style.
   */
  lemma BlockFileRoundTrip(entries: seq<Entry>)
    requires forall k :: 0 <= k < |entries| ==> Transportable(entries[k])
    ensures BlockEntries(Blocks(BlockFile(entries))) == entries
  {
    var blocks := DocumentedBlocks(entries);
    var parts := [""] + blocks;
    assert Blocks(BlockFile(entries)) == parts by {
      DocumentedPartsLackPostMarker(entries);
      MarkersHaveUniqueHeads();
      SplitJoinMarker(parts, PostMarker);
    }
    assert BlockEntries(blocks) == entries by {
      DocumentedBlocksReadBack(entries);
      BlockEntriesOfEach(blocks, entries);
    }
    assert parts[1..] == blocks;
  }

  // ---------------------------------------------------------------
  // Saving a batch
  // ---------------------------------------------------------------

  /** `add_post` for each entry in turn; `None` once an insert fails. */
  function SaveEntries(t: Tables, channelId: nat, entries: seq<Entry>): (r: Option<Tables>)
    ensures entries != [] ==> (r.None? <==> !HasChannel(t.channels, channelId))
    ensures r.Some? ==> |r.value.posts| == |t.posts| + |entries| && r.value.users == t.users && r.value.channels == t.channels
    decreases |entries|
  {
    if entries == [] then Some(t)
    else
      match AddPost(t, channelId, UserIdea, entries[0].style, entries[0].text)
      case None => None
      case Some((t1, _)) => SaveEntries(t1, channelId, entries[1..])
  }

  /** Saving into a missing channel fails at the first entry. */
  lemma SaveEntriesNoChannel(t: Tables, channelId: nat, entries: seq<Entry>)
    requires entries != [] && !HasChannel(t.channels, channelId)
    ensures SaveEntries(t, channelId, entries).None?
  {
    AddPostEffect(t, channelId, UserIdea, entries[0].style, entries[0].text);
  }

  /** Into an existing channel, the first entry becomes one more post and the rest follow. */
  lemma SaveEntriesStep(t: Tables, channelId: nat, entries: seq<Entry>)
    requires entries != [] && HasChannel(t.channels, channelId)
    ensures AddPost(t, channelId, UserIdea, entries[0].style, entries[0].text).Some?
    ensures
      var t1 := AddPost(t, channelId, UserIdea, entries[0].style, entries[0].text).value.0;
      && SaveEntries(t, channelId, entries) == SaveEntries(t1, channelId, entries[1..])
      && |t1.posts| == |t.posts| + 1 && t1.posts[..|t.posts|] == t.posts
      && t1.posts[|t.posts|].text == entries[0].text && t1.posts[|t.posts|].channelId == channelId
      && t1.users == t.users && t1.channels == t.channels
  {
    AddPostEffect(t, channelId, UserIdea, entries[0].style, entries[0].text);
  }

  /** A batch fails exactly when it is non-empty and the channel does not exist. */
  lemma {:induction false} SaveEntriesFails(t: Tables, channelId: nat, entries: seq<Entry>)
    ensures SaveEntries(t, channelId, entries).None? <==> entries != [] && !HasChannel(t.channels, channelId)
    decreases |entries|
  {
    if entries != [] {
      if !HasChannel(t.channels, channelId) {
        SaveEntriesNoChannel(t, channelId, entries);
      } else {
        SaveEntriesStep(t, channelId, entries);
        var t1 := AddPost(t, channelId, UserIdea, entries[0].style, entries[0].text).value.0;
        SaveEntriesFails(t1, channelId, entries[1..]);
      }
    }
  }

  /**
   * `t'` is `t` with one post per entry appended, in order, each with the
   * entry's text and the channel, and the same users and channels.
   */
  predicate Appended(t: Tables, t': Tables, channelId: nat, entries: seq<Entry>) {
    && |t'.posts| == |t.posts| + |entries|
    && t'.posts[..|t.posts|] == t.posts
    && (forall i :: 0 <= i < |entries| ==>
          t'.posts[|t.posts| + i].text == entries[i].text && t'.posts[|t.posts| + i].channelId == channelId)
    && t'.users == t.users && t'.channels == t.channels
  }

  /** One post for the first entry, then the rest: together, one post per entry. */
  lemma AppendedStep(t: Tables, t1: Tables, t': Tables, channelId: nat, entries: seq<Entry>)
    requires entries != []
    requires Appended(t, t1, channelId, entries[..1])
    requires Appended(t1, t', channelId, entries[1..])
    ensures Appended(t, t', channelId, entries)
  {
    forall i | 0 <= i < |entries|
      ensures t'.posts[|t.posts| + i].text == entries[i].text && t'.posts[|t.posts| + i].channelId == channelId
    {
      if i == 0 {
        assert t'.posts[|t.posts|] == t'.posts[..|t1.posts|][|t.posts|];
        assert entries[..1][0] == entries[0];
      } else {
        assert entries[i] == entries[1..][i - 1];
        assert |t.posts| + i == |t1.posts| + (i - 1);
      }
    }
    assert t'.posts[..|t.posts|] == t'.posts[..|t1.posts|][..|t.posts|];
  }

  /** A batch that succeeds appends one post per entry, in order. */
  lemma {:induction false} SaveEntriesAppends(t: Tables, channelId: nat, entries: seq<Entry>)
    requires SaveEntries(t, channelId, entries).Some?
    ensures Appended(t, SaveEntries(t, channelId, entries).value, channelId, entries)
    decreases |entries|
  {
    if entries != [] {
      SaveEntriesFails(t, channelId, entries);
      SaveEntriesStep(t, channelId, entries);
      var t1 := AddPost(t, channelId, UserIdea, entries[0].style, entries[0].text).value.0;
      assert Appended(t, t1, channelId, entries[..1]);
      SaveEntriesAppends(t1, channelId, entries[1..]);
      AppendedStep(t, t1, SaveEntries(t1, channelId, entries[1..]).value, channelId, entries);
    }
  }

  /** Saving a batch keeps the table invariant. */
  lemma {:induction false} SaveEntriesKeepsValid(t: Tables, channelId: nat, entries: seq<Entry>)
    requires ValidTables(t)
    requires SaveEntries(t, channelId, entries).Some?
    ensures ValidTables(SaveEntries(t, channelId, entries).value)
    decreases |entries|
  {
    if entries != [] {
      var e := entries[0];
      AddPostEffect(t, channelId, UserIdea, e.style, e.text);
      AddPostKeepsValid(t, channelId, UserIdea, e.style, e.text);
      var (t1, p) := AddPost(t, channelId, UserIdea, e.style, e.text).value;
      SaveEntriesKeepsValid(t1, channelId, entries[1..]);
    }
  }
}
