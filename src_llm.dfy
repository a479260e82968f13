/**
 * `src/services/llm.py`: the two prompts, the idea generator
 * (prompt, completion, parser) and the draft generator (prompt, completion,
 * `strip`). The model is the parameter `llm`.
 */
module SrcLlm {
  import opened Text
  import opened IdeaParser
  import opened Completions

  const IdeasHead: string := "Ты — помощник для создания контента в телеграм-канале.\nНа основе этих постов:\n"

  const IdeasRequest: string :=
    "\n\nСгенерируй 3 новые идеи для постов(каждая идея короткая без длинных предложений). Для каждой идеи предложи 3 возможных стиля(в одно-два слова).\n"
    + "Отвечай строго в формате:\n"
    + "1. <Идея>\n   - <Стиль 1>\n   - <Стиль 2>\n   - <Стиль 3>\n"
    + "2. <Идея>\n   - <Стиль 1>\n   - <Стиль 2>\n   - <Стиль 3>\n"
    + "3. <Идея>\n   - <Стиль 1>\n   - <Стиль 2>\n   - <Стиль 3>\n"

  /** The prompt of `generate_post_ideas`: the recent posts one per line, then the request. */
  function IdeasPrompt(posts: seq<string>): (r: string)
    ensures StartsWith(r, IdeasHead) && EndsWith(r, IdeasRequest)
  {
    StartsWithAppend(IdeasHead, Join(posts, "\n"), IdeasHead);
    StartsWithAppend(IdeasHead + Join(posts, "\n"), IdeasRequest, IdeasHead);
    EndsWithAppend(IdeasHead + Join(posts, "\n"), IdeasRequest);
    IdeasHead + Join(posts, "\n") + IdeasRequest
  }

  /** The recent posts reach the model verbatim, and so does each post. */
  lemma IdeasPromptCarriesPosts(posts: seq<string>)
    ensures Contains(IdeasPrompt(posts), Join(posts, "\n"))
    ensures forall k :: 0 <= k < |posts| ==> Contains(IdeasPrompt(posts), posts[k])
  {
    var joined := Join(posts, "\n");
    ContainsEnd(IdeasHead, joined);
    ContainsExtended(IdeasHead + joined, IdeasRequest, joined);
    JoinCarriesParts(posts, "\n");
    forall k | 0 <= k < |posts|
      ensures Contains(IdeasPrompt(posts), posts[k])
    {
      ContainsPrepended(IdeasHead, joined, posts[k]);
      ContainsExtended(IdeasHead + joined, IdeasRequest, posts[k]);
    }
  }

  /**
   * `generate_post_ideas`: one completion for the prompt, read by the
   * parser loop; never empty and never more than three records.
   */
  method GeneratePostIdeas(llm: string -> string, posts: seq<string>) returns (ideas: seq<IdeaRecord>)
    ensures ideas == ParseIdeas(llm(IdeasPrompt(posts)))
    ensures 1 <= |ideas| <= MaxIdeas
  {
    var completion := llm(IdeasPrompt(posts));
    ideas := ParseCompletion(completion);
  }

  const DraftOpening: string := "Ты пишешь пост для телеграм-канала '"
  const ContextLabel: string := "'.\n\nПоследние посты канала:\n"
  const TopicLabel: string := "\n\nНовая тема поста: "
  const StyleLabel: string := "\nСтиль поста: "
  const DraftRequest: string :=
    "\n\nСоздай связный телеграм-пост в 3–5 предложениях, "
    + "чтобы он соответствовал теме и стилю, а также сохранял общую тематику прошлых постов."

  /** The prompt of `generate_post_draft`. */
  function DraftPrompt(channelName: string, idea: string, style: string, posts: seq<string>): (r: string)
    ensures StartsWith(r, DraftOpening + channelName + ContextLabel) && EndsWith(r, DraftRequest)
  {
    var head := DraftOpening + channelName + ContextLabel;
    var withContext := head + RecentContext(posts);
    var withTopic := withContext + TopicLabel + idea;
    var withStyle := withTopic + StyleLabel + style;
    StartsWithAppend(head, RecentContext(posts), head);
    StartsWithAppend(withContext, TopicLabel, head);
    StartsWithAppend(withContext + TopicLabel, idea, head);
    StartsWithAppend(withTopic, StyleLabel, head);
    StartsWithAppend(withTopic + StyleLabel, style, head);
    StartsWithAppend(withStyle, DraftRequest, head);
    EndsWithAppend(withStyle, DraftRequest);
    withStyle + DraftRequest
  }

  /** The prompt names the channel, the idea and the style and carries the recent-posts context, each post included. */
  lemma DraftPromptCarries(channelName: string, idea: string, style: string, posts: seq<string>)
    ensures var p := DraftPrompt(channelName, idea, style, posts);
      Contains(p, channelName) && Contains(p, RecentContext(posts)) && Contains(p, idea) && Contains(p, style)
    ensures forall k :: 0 <= k < |posts| ==> Contains(DraftPrompt(channelName, idea, style, posts), posts[k])
  {
    var ctx := RecentContext(posts);
    var named := DraftOpening + channelName;
    ContainsEnd(DraftOpening, channelName);
    ContainsExtended(named, ContextLabel, channelName);
    ContainsExtended(named + ContextLabel, ctx, channelName);
    ContainsEnd(named + ContextLabel, ctx);
    var withContext := named + ContextLabel + ctx;
    ContainsExtended(withContext, TopicLabel, channelName);
    ContainsExtended(withContext, TopicLabel, ctx);
    ContainsExtended(withContext + TopicLabel, idea, channelName);
    ContainsExtended(withContext + TopicLabel, idea, ctx);
    ContainsEnd(withContext + TopicLabel, idea);
    var withIdea := withContext + TopicLabel + idea;
    ContainsExtended(withIdea, StyleLabel, channelName);
    ContainsExtended(withIdea, StyleLabel, ctx);
    ContainsExtended(withIdea, StyleLabel, idea);
    ContainsExtended(withIdea + StyleLabel, style, channelName);
    ContainsExtended(withIdea + StyleLabel, style, ctx);
    ContainsExtended(withIdea + StyleLabel, style, idea);
    ContainsEnd(withIdea + StyleLabel, style);
    var withStyle := withIdea + StyleLabel + style;
    ContainsExtended(withStyle, DraftRequest, channelName);
    ContainsExtended(withStyle, DraftRequest, ctx);
    ContainsExtended(withStyle, DraftRequest, idea);
    ContainsExtended(withStyle, DraftRequest, style);
    forall k | 0 <= k < |posts|
      ensures Contains(DraftPrompt(channelName, idea, style, posts), posts[k])
    {
      var x := posts[k];
      ContainsPrepended(named + ContextLabel, ctx, x);
      ContainsExtended(withContext, TopicLabel, x);
      ContainsExtended(withContext + TopicLabel, idea, x);
      ContainsExtended(withIdea, StyleLabel, x);
      ContainsExtended(withIdea + StyleLabel, style, x);
      ContainsExtended(withStyle, DraftRequest, x);
    }
  }

  /** `generate_post_draft`: the completion for the prompt, stripped. */
  function GeneratePostDraft(llm: string -> string, channelName: string, idea: string, style: string, posts: seq<string>): (draft: string)
    ensures TrimmedFrom(draft, llm(DraftPrompt(channelName, idea, style, posts)))
  {
    CleanDraft(llm(DraftPrompt(channelName, idea, style, posts)))
  }
}
