# Telegram post-writing bot — Dafny model

The repository is a Telegram bot that helps a user write posts for their own
(imaginary) channels. A user registers with `/start`, adds and selects
channels by name, and feeds the bot example posts, either typed one per
message or uploaded as a `.txt` or `.csv` file. `/newpost` then shows the
channel's latest posts to a language model. The model is asked for three
ideas with three styles each, and the bot parses the answer into buttons.
Once an idea and a style are chosen, the model writes a draft that is saved
as a new post of the channel. The repository holds two variants of the bot,
`ai_telegram_bot/` and `src/`. They differ in prompts, in the `.txt` format,
in the newpost flow (the `ai` variant asks for confirmation before saving)
and in the start menu.

The project models:

* the PostgreSQL layer of `src/services/database.py`. `Database` is the five
  tables as a value, with one function per query and the table invariants.
  `DatabaseStore.Store` is a class whose fields are the tables; each method
  is the loop the engine runs and is proved equal to its `Database` function.
* the idea parser (`IdeaParser`), which is the same code in both `llm.py`
  files, and the two prompt builders and draft cleaners (`BotLlm`, `SrcLlm`).
  The model is a function parameter `llm: string -> string`.
* the session (`Session`): the keys of `context.user_data` as a record, the
  callback-data encodings and the "selected channel" lookup.
* the handlers of `handlers/start.py`, `handlers/newpost.py` and
  `handlers/addposts.py` of each variant (`BotStart`, `SrcStart`,
  `BotNewPost`, `SrcNewPost`, `BotAddPosts`, `SrcAddPosts`, `AddPostsCommon`).
  Each handler is a method over the session and the store. It returns the
  next conversation state, or `Raised(failure)` / `Failed(failure)` for the
  Python exception it would raise. An exception leaves in place the
  mutations that preceded it.
* the Python string builtins these use (`Text`): `strip`, `split`,
  `rsplit`, `splitlines`, `replace`, `in`, `startswith`/`endswith` and
  `int` on digit strings. `PostFormats` and `PostImport` hold the three
  upload formats and the saving loops.

Every module is proved against its own specification functions. The main
results:

* the idea parser always returns one to three records.
  - It equals a front-to-back reference reading of the completion: one
    record per numbered line, collecting the bullets up to the next one.
  - Without a numbered line it returns the fallback ideas.
  - It reads back exactly the records of a completion written in the format
    the prompt asks for.
* `.txt` files in the documented block layout round-trip through the block parser.
* an upload saves one post per entry its format's parser yields, in file
  order. Those entries are a non-empty csv row, a non-blank line, or a block
  whose text survives `strip().strip('"')`. A csv row of blanks only is
  non-empty, so it is saved with an empty text. With an unknown channel the
  upload saves nothing.
* `get_last_posts` returns the `min(limit, n)` newest posts of the channel,
  newest first, each with its idea and style.
* `add_post` adds exactly one post. Two posts with the same idea title share
  one idea row.

## Model

| member | source | states |
|---|---|---|
| Text.Strip | src/services/llm.py:63 | `str.strip()`: the result has no whitespace at either end and is no longer than the input |
| Text.StripIsInfix | src/services/llm.py:111-112 | `strip()` removes whitespace only, from the two ends: the result is a contiguous slice and everything outside it is whitespace |
| Text.StripIsTrimmed | src/services/llm.py:112 | `s.strip()` is trimmed from `s`: it is stripped, it occurs in `s`, and every character of `s` outside that occurrence is whitespace |
| Text.TrimmedIsStrip | src/services/llm.py:112 | anything trimmed from `s` in that sense is `s.strip()`, so the description determines the result |
| Text.StripPadded | ai_telegram_bot/handlers/addposts.py:166 | `strip()` of a stripped string with whitespace on both sides gives back that string |
| Text.StripQuotes | ai_telegram_bot/handlers/addposts.py:172-175 | `s.strip('"')` is a slice of `s` that neither starts nor ends with `"`, and every character of `s` outside it is `"` |
| Text.QuotesTrimmedIsStripQuotes | ai_telegram_bot/handlers/addposts.py:172-175 | any slice with that description is `s.strip('"')`, so the description determines the result |
| Text.StripQuotesPadded | ai_telegram_bot/handlers/addposts.py:172-175 | `strip('"')` of a string with quotes around it, and no quote at its own ends, gives back that string |
| Text.StripIdempotent | src/handlers/newpost.py:98 | stripping twice equals stripping once |
| Text.StripEmptyIff | src/handlers/addposts.py:136 | `line.strip()` is empty exactly when the line is all whitespace |
| Text.ContainsIff | src/handlers/addposts.py:113 | `sub in s` holds iff `sub` occurs at some index, iff the last occurrence exists |
| Text.Split | ai_telegram_bot/handlers/addposts.py:164 | `str.split(sep)`: at least one piece, joining the pieces with `sep` gives the input back, no piece contains `sep`, and the first cut is at the leftmost occurrence |
| Text.SplitJoinMarker | ai_telegram_bot/handlers/addposts.py:164 | splitting a join of marker-free pieces gives the pieces back |
| Text.SplitLast | src/handlers/addposts.py:113-116 | `rsplit(sep, 1)`: no cut iff `sep` is absent; otherwise the input is `before + sep + after`, cut at the last occurrence |
| Text.SplitFirst | ai_telegram_bot/handlers/addposts.py:170-171 | `split(sep, 1)`: no cut iff `sep` is absent; otherwise the input is `before + sep + after`, cut at the first occurrence |
| Text.SplitLastOf | src/handlers/addposts.py:114 | when the tail is free of the marker, `rsplit` cuts exactly before it |
| Text.SplitFirstOf | ai_telegram_bot/handlers/addposts.py:171 | when the head is free of the marker, `split(…, 1)` cuts exactly after it |
| Text.Lines | src/services/llm.py:62 | `splitlines()`: at least one piece and no piece contains a line break |
| Text.LinesRebuild | src/services/llm.py:62 | the pieces of `splitlines()`, put back together with one line-break character between neighbours, give the input: nothing is lost or reordered |
| Text.LinesJoin | src/services/llm.py:62 | `splitlines` undoes joining break-free lines with "\n" |
| Text.ReplacePrefixMarker | src/handlers/newpost.py:83 | removing the marker from `marker + t` gives `t` when `t` is free of it |
| Text.ReplaceAbsent | src/handlers/newpost.py:138 | `replace` leaves a string without the target unchanged |
| Text.ReplaceAll | src/handlers/newpost.py:83 | `str.replace(old, new)`: the input is cut into pieces free of `old` which, joined by `old`, give the input and, joined by `new`, give the result |
| Text.PyInt | src/handlers/newpost.py:83 | `int(s)` succeeds exactly when the stripped string is a non-empty digit string with at most one leading sign; an unsigned digit string gives its decimal value, `-digits` its negation and `+digits` the value itself |
| Text.NumberText | src/handlers/newpost.py:57 | `str(k)` of a natural number is a non-empty digit string |
| Text.PyIntOfNumberText | src/handlers/newpost.py:83 | `int(str(k)) == k` |
| Text.DigitsLackMarker | src/handlers/newpost.py:83 | a digit string does not contain a marker that starts with a non-digit |
| Text.FindFirst | ai_telegram_bot/handlers/addposts.py:171 | the earliest occurrence, or none when there is none |
| Text.FindLast | src/handlers/addposts.py:114 | the latest occurrence, or none when there is none |
| IdeaParser.ParseKinds | src/services/llm.py:82-90 | the parser's result always has one to three records |
| IdeaParser.ParseCompletion | src/services/llm.py:59-90 | the loop over `resp.splitlines()` computes `ParseIdeas(resp)` |
| IdeaParser.ParseIdeas | src/services/llm.py:59-90 | the parse of `resp.splitlines()`: one to three records |
| IdeaParser.ParsedIsReference | src/services/llm.py:61-80 | the state-machine loop equals the reference reading: each numbered line opens a record that collects the following bullets up to the next numbered line |
| IdeaParser.ReferenceIdeas | src/services/llm.py:68-72 | one record per numbered line, in order, titled with that line's text |
| IdeaParser.ParseWithoutNumberedLine | src/services/llm.py:82-88 | a completion without a numbered line yields the three fallback ideas |
| IdeaParser.ParseWithNumberedLines | src/services/llm.py:79-90 | with n numbered lines the result is the first min(n, 3) records of the reference reading, titled in order |
| IdeaParser.IgnoredLineIrrelevant | src/services/llm.py:63-65 | a blank or unrecognised line does not change the result |
| IdeaParser.LinesBeforeFirstIdeaDropped | src/services/llm.py:75 | bullets (and other lines) before the first numbered line are dropped |
| IdeaParser.ClassifyNumberLine | src/services/llm.py:68-72 | a line `k. idea` is read as the idea `idea` |
| IdeaParser.ClassifyBulletLine | src/services/llm.py:75-77 | a line `   - style` is read as the style `style` |
| IdeaParser.KindsAppend | src/services/llm.py:62 | lines are classified independently of one another |
| IdeaParser.ScanFromAppend | src/services/llm.py:62-77 | the loop over `a + b` is the loop over `b` resumed from the state after `a` |
| IdeaParser.RenderRoundTrip | src/services/llm.py:52-55 | a completion in exactly the requested format parses back to its records (the first three of them) |
| Completions.RecentContext | src/services/llm.py:101 | without posts the context is "Нет предыдущих постов."; every post occurs in it |
| Completions.JoinCarriesParts | src/services/llm.py:101 | every part occurs in `sep.join(parts)` |
| Completions.RecentContextLines | src/services/llm.py:101 | without posts the context is "Нет предыдущих постов."; otherwise, for posts without line breaks, its lines are exactly the posts |
| Completions.CleanDraft | src/services/llm.py:112 | the draft is the answer with the whitespace at its ends removed: it is trimmed from the answer, which Text.TrimmedIsStrip shows is exactly `strip()` |
| BotLlm.IdeasPrompt | ai_telegram_bot/services/llm.py:51-61 | the prompt starts with the fixed head and ends with the fixed request and answer format |
| BotLlm.IdeasPromptCarriesPosts | ai_telegram_bot/services/llm.py:51-61 | the ideas prompt contains the posts joined by "\n", and so each post |
| BotLlm.GeneratePostIdeas | ai_telegram_bot/services/llm.py:46-92 | the ideas are the parse of the model's answer to the prompt, one to three of them |
| BotLlm.DraftPrompt | ai_telegram_bot/services/llm.py:103-112 | the prompt starts with the opening that names the channel and the context label, and ends with the fixed request |
| BotLlm.DraftPromptCarries | ai_telegram_bot/services/llm.py:103-112 | the draft prompt contains the channel name, the recent-posts context, each post, the idea and the style |
| BotLlm.GeneratePostDraft | ai_telegram_bot/services/llm.py:98-114 | the draft is trimmed from the model's answer to that prompt, so it is exactly that answer's `strip()` |
| SrcLlm.IdeasPrompt | src/services/llm.py:47-56 | the prompt starts with the fixed head and ends with the fixed request and answer format |
| SrcLlm.IdeasPromptCarriesPosts | src/services/llm.py:47-56 | the ideas prompt contains the posts joined by "\n", and so each post |
| SrcLlm.GeneratePostIdeas | src/services/llm.py:42-90 | the ideas are the parse of the model's answer to the prompt, one to three of them |
| SrcLlm.DraftPrompt | src/services/llm.py:101-110 | the prompt starts with the opening that names the channel and the context label, and ends with the fixed request |
| SrcLlm.DraftPromptCarries | src/services/llm.py:101-110 | the draft prompt contains the channel name, the recent-posts context, each post, the idea and the style |
| SrcLlm.GeneratePostDraft | src/services/llm.py:96-112 | the draft is trimmed from the model's answer to that prompt, so it is exactly that answer's `strip()` |
| Database.UserByTelegramId | src/services/database.py:85-90 | the first user with that `telegram_id`, or none when no user has it |
| Database.IdeaByTitle | src/services/database.py:131-132 | the idea row with that title, or none |
| Database.StyleByName | src/services/database.py:138-139 | the style row with that name, or none |
| Database.IdeaTitle | src/services/database.py:164 | the `LEFT JOIN` on ideas: the title of that id, or NULL |
| Database.StyleName | src/services/database.py:165 | the `LEFT JOIN` on styles: the name of that id, or NULL |
| Database.ChannelsOf | src/services/database.py:108-113 | exactly the user's channels |
| Database.ChannelsNamed | src/services/database.py:116-121 | exactly the channels with that name |
| Database.PostsOf | src/services/database.py:166 | exactly the channel's posts |
| Database.EmptyTablesValid | src/services/database.py:24-62 | the fresh schema satisfies the table invariants (serial ids, unique `telegram_id`, title and style name, foreign keys including `posts.channel_id`) |
| Database.AddUser | src/services/database.py:70-82 | a known `telegram_id` returns its row and changes nothing; otherwise one row is appended with the next serial id |
| Database.AddUserFinds | src/services/database.py:70-90 | after `add_user`, `get_user` finds the row `add_user` returned |
| Database.AddUserKeepsValid | src/services/database.py:70-82 | `add_user` keeps the invariants, so `telegram_id` stays unique |
| Database.AddChannel | src/services/database.py:96-105 | fails exactly when the user does not exist (the foreign key); otherwise appends one active channel |
| Database.AddChannelKeepsValid | src/services/database.py:96-105 | `add_channel` keeps the invariants |
| Database.AddChannelListed | src/services/database.py:96-105 | the new channel becomes the last of the user's channels and of that name; duplicates are allowed |
| Database.FindOrCreateIdeaEffect | src/services/database.py:130-135 | an existing title is reused, otherwise one idea row is appended |
| Database.FindOrCreateStyleEffect | src/services/database.py:137-142 | an existing style name is reused, otherwise one style row is appended |
| Database.InsertPost | src/services/database.py:145-153 | appends one post with the next id; nothing else changes |
| Database.AddPost | src/services/database.py:127-156 | fails exactly when the channel is missing; otherwise exactly the returned post, with that channel and text, is appended, and users and channels are unchanged |
| Database.AddPostEffect | src/services/database.py:127-156 | fails exactly when the channel does not exist; otherwise the post references the idea and the style found or created by title and name |
| Database.AddPostAddsOne | src/services/database.py:127-156 | on an existing channel exactly one post is appended, with that channel and text, and users and channels are unchanged |
| Database.AddPostKeepsValid | src/services/database.py:127-156 | `add_post` keeps the invariants |
| Database.AddPostSameTitleSharesIdea | src/services/database.py:130-135 | two posts with the same idea title reference the same idea, and only one idea row has that title |
| Database.LastPostsFrom | src/services/database.py:168 | at most `limit` rows |
| Database.LastPosts | src/services/database.py:159-172 | at most `limit` rows (their order and contents are the next two rows) |
| Database.LastPostsIsNewestOfChannel | src/services/database.py:161-169 | the query is: the channel's posts, newest first, cut at `limit` |
| Database.LastPostsProperties | src/services/database.py:159-172 | `min(limit, n)` rows, strictly newest first, each the row of one of the channel's posts, each with its idea title and style name |
| Database.RemovedIds | ai_telegram_bot/handlers/start.py:159 | exactly the ids of the user's channels with that name |
| Database.DeleteChannel | ai_telegram_bot/handlers/start.py:159 | fails (an `IntegrityError`, nothing changed) exactly when a post refers to one of the user's channels with that name; otherwise removes exactly those channels and nothing else |
| Database.DeleteChannelKeepsValid | ai_telegram_bot/handlers/start.py:159 | a delete that succeeds keeps the invariants, including that every post's channel exists |
| DatabaseStore.Store.GetUser | src/services/database.py:85-90 | the scan returns `UserByTelegramId` |
| DatabaseStore.Store.AddUser | src/services/database.py:70-82 | the new tables and the row are those of `Database.AddUser`; tables that met the invariants still meet them |
| DatabaseStore.Store.UserExists | src/services/database.py:34 | the foreign-key check finds the user iff it exists |
| DatabaseStore.Store.AddChannel | src/services/database.py:96-105 | the tables are unchanged when the user is missing, and are `Database.AddChannel` otherwise; tables that met the invariants still meet them |
| DatabaseStore.Store.GetChannels | src/services/database.py:108-113 | the scan returns `ChannelsOf` |
| DatabaseStore.Store.GetChannelsByName | src/services/database.py:116-121 | the scan returns `ChannelsNamed` |
| DatabaseStore.Store.MatchingChannels | ai_telegram_bot/handlers/start.py:159 | the scan returns the rows that stay and the ids of the rows `Database.DeleteChannel` removes |
| DatabaseStore.Store.Referenced | src/services/database.py:49 | the foreign-key check of a delete: true iff some post refers to one of the ids |
| DatabaseStore.Store.DeleteChannel | ai_telegram_bot/handlers/start.py:159 | reports failure and changes nothing when `Database.DeleteChannel` fails; otherwise the tables become its result; tables that met the invariants still meet them |
| DatabaseStore.Store.ChannelExists | src/services/database.py:49 | the foreign-key check finds the channel iff it exists |
| DatabaseStore.Store.FindIdea | src/services/database.py:131-132 | the scan returns `IdeaByTitle` |
| DatabaseStore.Store.FindStyle | src/services/database.py:138-139 | the scan returns `StyleByName` |
| DatabaseStore.Store.FindOrCreateIdea | src/services/database.py:130-135 | the new tables and the id are those of `Database.FindOrCreateIdea` |
| DatabaseStore.Store.FindOrCreateStyle | src/services/database.py:137-142 | the new tables and the id are those of `Database.FindOrCreateStyle` |
| DatabaseStore.Store.AddPost | src/services/database.py:127-156 | the tables are unchanged for a missing channel, and are `Database.AddPost` otherwise; tables that met the invariants still meet them |
| DatabaseStore.Store.GetLastPosts | src/services/database.py:159-172 | the scan returns `LastPosts` |
| PostFormats.ParseLineStyle | src/handlers/addposts.py:111-119 | the text is stripped; with `Стиль:` present the style is stripped and text, marker and style fit in the line; without it the style is the default "ручной ввод" |
| PostFormats.ManualEntry | src/handlers/addposts.py:66-70 | a message without `\nСтиль:` is kept as it is, with the default style; otherwise text and style are stripped and fit in the message |
| PostFormats.ParseStyledLine | src/handlers/addposts.py:111-119 | `text Стиль: style` is read back as (text, style) |
| PostFormats.ParseUnstyledLine | src/handlers/addposts.py:117-118 | a line without `Стиль:` is its stripped text with the default style "ручной ввод" |
| PostFormats.ParseLineStyleSplitsAtLast | src/handlers/addposts.py:113-116 | with `Стиль:` present the line is cut at its last occurrence: the style has no marker left |
| PostFormats.ManualStyledMessage | src/handlers/addposts.py:66-70 | a message `text\nСтиль: style` is saved as (text, style) |
| PostFormats.ManualPlainMessage | src/handlers/addposts.py:66 | a message without `\nСтиль:` is saved unchanged with the default style |
| PostFormats.BlockEntry | ai_telegram_bot/handlers/addposts.py:165-178 | a block yields a post only with non-empty text; a blank block yields none |
| PostFormats.BlockEntryWithoutMarker | ai_telegram_bot/handlers/addposts.py:174-178 | a non-blank block without `Стиль:` is skipped exactly when `strip().strip('"')` leaves nothing, and otherwise is that text in the default style |
| PostFormats.BlockEntryAtFirstMarker | ai_telegram_bot/handlers/addposts.py:170-173 | a block with `Стиль:` is cut at its first marker (the text part holds none); it is skipped exactly when the text part leaves nothing, and otherwise the text and style are the two parts with whitespace and then quotes stripped |
| PostFormats.BlockEntryUnstyled | ai_telegram_bot/handlers/addposts.py:174-176 | a clean block without `Стиль:` is a post of that text in the default style |
| PostFormats.BlockEntryQuoted | ai_telegram_bot/handlers/addposts.py:175 | a block `"text"` is a post of `text`, without the quotes, in the default style |
| PostFormats.BlockEntryOfDocumentedBlock | ai_telegram_bot/handlers/addposts.py:126-129 | a block laid out as the upload instructions show (text line, `Стиль:` line, style line) is read back as its text and style |
| PostFormats.BlockEntriesOfEach | ai_telegram_bot/handlers/addposts.py:165-180 | blocks that each yield an entry yield exactly those entries, in order |
| PostFormats.BlockEntryOfStyledLine | ai_telegram_bot/handlers/addposts.py:170-176 | a clean `text Стиль: style` block is read back as (text, style) |
| PostFormats.CleanIsFixed | ai_telegram_bot/handlers/addposts.py:172-173 | `strip().strip('"')` leaves clean text unchanged |
| PostFormats.BlockFileRoundTrip | ai_telegram_bot/handlers/addposts.py:126-131 | a file in the documented `Пост:` / text / `Стиль:` / style layout, written from clean entries, reads back as exactly those entries, in order |
| PostFormats.LineEntry | src/handlers/addposts.py:135-137 | a line yields a post iff it is not blank |
| PostFormats.LineEntriesCount | src/handlers/addposts.py:135-139 | one post per non-blank line |
| PostFormats.RowEntry | src/handlers/addposts.py:143-149 | a csv row yields a post iff it is not empty; a single cell is read by `parse_line_style`; with two or more cells the style is cell 1 verbatim and the text is cell 0 with the whitespace at its ends removed |
| PostFormats.RowEntryOfPair | src/handlers/addposts.py:147-149 | a row starting with a stripped text and a style is read back as that pair, whatever follows |
| PostFormats.RowEntriesCount | src/handlers/addposts.py:143-150 | one post per non-empty row |
| PostFormats.SaveEntries | ai_telegram_bot/handlers/addposts.py:178-192 | `add_post` per entry: a non-empty batch fails iff the channel is missing; a saved batch adds one post per entry and keeps the users and the channels |
| PostFormats.SaveEntriesFails | ai_telegram_bot/handlers/addposts.py:159-192 | saving a batch fails iff it is non-empty and the channel is missing |
| PostFormats.SaveEntriesAppends | ai_telegram_bot/handlers/addposts.py:178-192 | a saved batch appends one post per entry, in order, with the entry's text, on that channel, keeping the earlier posts, the users and the channels |
| PostFormats.SaveEntriesKeepsValid | ai_telegram_bot/handlers/addposts.py:159-192 | saving a batch keeps the invariants |
| PostImport.SaveFromIsSaveEntries | ai_telegram_bot/handlers/addposts.py:165-180 | the loop that skips empty items saves exactly the present entries |
| PostImport.BlockItemsPresent | ai_telegram_bot/handlers/addposts.py:165-178 | the entries the block loop sees are `BlockEntries` |
| PostImport.LineItemsPresent | src/handlers/addposts.py:135-138 | the entries the line loop sees are `LineEntries` |
| PostImport.RowItemsPresent | src/handlers/addposts.py:143-149 | the entries the row loop sees are `RowEntries` |
| PostImport.SaveOne | ai_telegram_bot/handlers/addposts.py:178-180 | one iteration: an empty item is skipped, a present one is saved through `add_post` |
| PostImport.SaveBlocks | ai_telegram_bot/handlers/addposts.py:164-180 | the block loop leaves the tables of the batch save and counts the posts it added; on failure nothing changed |
| PostImport.SaveLines | src/handlers/addposts.py:133-139 | the line loop leaves the tables of the batch save and counts the posts it added; on failure nothing changed |
| PostImport.SaveRows | src/handlers/addposts.py:140-150 | the row loop leaves the tables of the batch save and counts the posts it added; on failure nothing changed |
| PostImport.SavedBatch | ai_telegram_bot/handlers/addposts.py:159-192 | the loop succeeds iff there is nothing to save or the channel exists, and then `saved_posts` is the number of entries |
| Session.Resolved | src/handlers/newpost.py:33-43 | a row stands for itself; a name resolves only to a stored channel with that name |
| Session.ResolvedByName | src/handlers/newpost.py:36-43 | looking a channel up by name fails iff no channel has that name; otherwise it gives a channel with that name |
| Session.ResolveChannel | src/handlers/newpost.py:33-43 | a row is used as it is; a name is looked up and the first row found replaces it in the session |
| Session.FirstNamed | ai_telegram_bot/handlers/start.py:154 | `next(...)` finds a channel with exactly that name iff there is one |
| Session.FirstNamedIsFirstOfNamed | ai_telegram_bot/handlers/start.py:154 | `next(...)` over rows picks the same row as `get_channels_by_name(...)[0]` over them |
| Session.PyIndex | src/handlers/newpost.py:84 | `list[i]` with negative indices; out of range is an `IndexError` |
| Session.IdeaButtons | src/handlers/newpost.py:56-60 | one `idea_<i>` button per idea, then the `custom` button |
| Session.SelectIdea | src/handlers/newpost.py:83-86 | the selected idea is one of the stored ideas; with no ideas stored it fails |
| Session.IdeaButtonSelects | src/handlers/newpost.py:83-86 | pressing idea button i selects idea i |
| Session.StyleButtons | src/handlers/newpost.py:113-116 | one `style_<style>` button per style |
| Session.ChosenStyle | src/handlers/newpost.py:138 | callback data without `style_` is itself the style |
| Session.StyleButtonSelects | src/handlers/newpost.py:138 | pressing a style button selects that style when its name is free of `style_` |
| BotNewPost.NewpostCommand | ai_telegram_bot/handlers/newpost.py:21-60 | no channel or an unknown name ends; fewer than 3 recent posts ends; otherwise one to three ideas from the last 5 posts are stored |
| BotNewPost.ChooseIdea | ai_telegram_bot/handlers/newpost.py:63-78 | `custom` arms free input; otherwise the pressed idea and its styles are stored, or the handler raises without changing the session |
| BotNewPost.CustomIdeaInput | ai_telegram_bot/handlers/newpost.py:81-92 | ends unless armed; a blank text keeps asking; otherwise the stripped text and the three stock styles are stored |
| BotNewPost.ShowStyles | ai_telegram_bot/handlers/newpost.py:95-108 | one button per stored style, then the back button |
| BotNewPost.BackToIdeas | ai_telegram_bot/handlers/newpost.py:111-124 | the stored ideas' buttons again |
| BotNewPost.ChooseStyle | ai_telegram_bot/handlers/newpost.py:127-156 | the style is stored; an unknown channel ends; otherwise the draft for the last 5 posts is stored and awaits confirmation |
| BotNewPost.BackToStyles | ai_telegram_bot/handlers/newpost.py:159-162 | the style buttons again |
| BotNewPost.ConfirmDraftPost | ai_telegram_bot/handlers/newpost.py:165-182 | a missing key or channel raises and saves nothing; otherwise exactly the draft is saved as one post |
| SrcNewPost.NewpostCommand | src/handlers/newpost.py:27-67 | no channel or an unknown name ends; a channel without posts ends; otherwise one to three ideas from the last 5 posts are stored |
| SrcNewPost.ChooseIdea | src/handlers/newpost.py:73-88 | as in the other variant |
| SrcNewPost.CustomIdeaInput | src/handlers/newpost.py:94-105 | as in the other variant |
| SrcNewPost.ShowStyles | src/handlers/newpost.py:111-128 | one button per stored style |
| SrcNewPost.ChooseStyle | src/handlers/newpost.py:133-167 | the style and the draft are stored and the draft is saved at once as exactly one post; only a stored row whose channel is gone raises `IntegrityError`, a channel looked up by name never does |
| AddPostsCommon.KindOf | src/handlers/addposts.py:133-153 | `.txt` is tested before `.csv`; anything else is refused |
| AddPostsCommon.SaveManualPost | src/handlers/addposts.py:61-81 | the message is saved as exactly one post of the selected channel, with the style after the last `\nСтиль:`; a missing selection, a channel name or a deleted channel raises and saves nothing |
| AddPostsCommon.DoneManual | src/handlers/addposts.py:84-86 | `/done` ends the conversation |
| AddPostsCommon.DoneManualButton | src/handlers/addposts.py:89-93 | the "done" button ends the conversation |
| BotAddPosts.AddpostsCommand | ai_telegram_bot/handlers/addposts.py:17-50 | ends without a selected channel; otherwise offers the two methods |
| BotAddPosts.DoneManualButtonAsWritten | ai_telegram_bot/handlers/addposts.py:103-116 | a button press raises instead of ending, where the corrected handler ends |
| BotAddPosts.HandleFile | ai_telegram_bot/handlers/addposts.py:149-207 | saves exactly the `Пост:` blocks or the csv rows, counting them; every error path is named and leaves the tables unchanged |
| SrcAddPosts.AddpostsCommand | src/handlers/addposts.py:22-39 | ends without a selected channel; a name (not a row) raises; otherwise offers the two methods |
| SrcAddPosts.HandleFile | src/handlers/addposts.py:122-156 | saves exactly the non-blank lines or the csv rows, counting them; every error path is named and leaves the tables unchanged |
| BotStart.Start | ai_telegram_bot/handlers/start.py:18-49 | clears the session; registers an unknown user, leaves a known one; afterwards the user exists |
| BotStart.AddChannelCmd | ai_telegram_bot/handlers/start.py:67-76 | arms the channel-name input |
| BotStart.DeleteChannelCmd | ai_telegram_bot/handlers/start.py:79-100 | an unregistered user raises; arms deletion only when the user has channels |
| BotStart.ChooseChannel | ai_telegram_bot/handlers/start.py:103-125 | an unregistered user raises; arms selection only when the user has channels |
| BotStart.BackCmd | ai_telegram_bot/handlers/start.py:128-130 | clears the session |
| BotStart.TextParser | ai_telegram_bot/handlers/start.py:133-191 | name, then deletion, then selection. An added channel can be selected afterwards; a deleted name is gone from the user's channels; a delete while a post refers to the channel raises `IntegrityError` and keeps the deletion pending; an unknown name keeps waiting |
| SrcStart.GetChannelKeyboard | src/handlers/start.py:10-22 | "choose" only when asked for and the user has channels; "add" always, last |
| SrcStart.Start | src/handlers/start.py:27-52 | registers the user, resets the state and both pending inputs, keeps the selection, shows that user's keyboard |
| SrcStart.TextParser | src/handlers/start.py:57-135 | commands and running conversations are left alone; then name, selection, the two buttons; an added channel can be selected afterwards |

## Left out

- Replies, keyboard labels and Markdown are not modelled: only the data a handler stores or returns.
- `help_cmd`, `main_menu_reply`, `add_manual` and `add_file` only send a reply and return a fixed state, so they are not modelled.
- `addposts_callback` in `ai_telegram_bot/handlers/newpost.py` is not registered with any handler, so it is not modelled.
- The `ConversationHandler` wiring (entry points, patterns, fallbacks) is not modelled. Each handler is modelled on its own, with the update it receives as a parameter.
- The bot entry points (`bot.py`) and `init_db`'s connection are not modelled. The store starts from the empty schema.
- `add_log` is never called from the handlers, so it is not modelled.
- Database.DeleteChannel: the `ai_telegram_bot` database module is not part of this model. `delete_channel(user_id, name)` is modelled as a plain `DELETE` of that user's channels with that exact name, under the schema of `src/services/database.py`. Its `posts.channel_id` foreign key has no `ON DELETE` action, so the delete fails unapplied (an `IntegrityError`) while a post refers to one of those channels. A channel without posts can still be deleted. A session can therefore still hold the row of a deleted channel, and the `IntegrityError` branches of AddPostsCommon.SaveManualPost, BotNewPost.ConfirmDraftPost and SrcNewPost.ChooseStyle model a save to such a channel. As for Database.AddPost, the aborted transaction after a failed delete is not modelled.
- `NOW()` is modelled as an insertion counter (`published_at` equals the post id). Rows with equal timestamps and SQL row order without `ORDER BY` are modelled as insertion order.
- Database.AddPost: when the channel is missing, PostgreSQL would still have inserted the idea and the style in the open transaction. The model leaves the tables unchanged, because that transaction is never committed. The aborted transaction, which makes later statements on the connection fail until a rollback, is not modelled.
- The language model is a pure function parameter. HTTP errors, the proxy, the API key and `async` are not modelled.
- File download and decoding are not modelled: the `.txt` content is given as text after newline translation, and the csv reader's tokenisation is given as rows.
- Text.Lines: the model differs from `splitlines()` in three cases. For the empty input it yields `[""]` where `splitlines()` yields `[]`. Where `splitlines()` treats "\r\n" as one break, or drops the piece after a final break, the model yields an extra empty line. Every consumer ignores blank lines.
- Text.PyInt reads ASCII digit strings with an optional sign and surrounding whitespace. `int()` also accepts underscores between digits and every other Unicode decimal digit; these are not modelled.
- IdeaParser.IsNumbered reads the `\d+` of the idea regexes as a run of ASCII digits. In Python 3 `\d` matches every Unicode decimal digit, so a line numbered with other digits is classified differently; this is a simplification. The class `\s` is modelled exactly, as `str.isspace()` (Text.IsSpace).
- Session.ChosenStyle removes every `style_`, not only the prefix, as `str.replace` does. Session.StyleButtonSelects is proved only for style names free of `style_`.
- `user.username` is an optional string. The Telegram update objects are reduced to the fields the handlers read.

## Findings

| source | as written | input that shows it | evidently intended | confidence | as-written member | corrected member |
|---|---|---|---|---|---|---|
| ai_telegram_bot/handlers/addposts.py:103-116 | `done_manual_button` answers the button press, then replies through `update.message` | any press of the "done" button: the update carries a callback query and no message, so line 110 raises `AttributeError` and the conversation stays in MANUAL_INPUT | reply through `query.message` and end the conversation, as `src/handlers/addposts.py:89-93` does | not executed | BotAddPosts.DoneManualButtonAsWritten | AddPostsCommon.DoneManualButton |
