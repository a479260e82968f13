/**
 * What both `llm.py` files share around the model call: the recent-posts
 * context of the draft prompt and the clean-up of a draft. The model itself
 * is a parameter `llm` that maps a prompt to a completion.
 */
module Completions {
  import opened Text

  /** The context used when the channel has no posts yet. */
  const NoRecentPosts: string := "Нет предыдущих постов."

  /** `"\n".join(posts) if posts else "Нет предыдущих постов."` */
  function RecentContext(posts: seq<string>): (r: string)
    ensures posts == [] ==> r == NoRecentPosts
    ensures forall k :: 0 <= k < |posts| ==> Contains(r, posts[k])
  {
    JoinCarriesParts(posts, "\n");
    if posts == [] then NoRecentPosts else Join(posts, "\n")
  }

  predicate OneLine(s: string) {
    forall i :: 0 <= i < |s| ==> !IsLineBreak(s[i])
  }

  /**
   * The context either announces that there are no posts, or gives back
   * every post, in order, one per line.
   */
  lemma RecentContextLines(posts: seq<string>)
    requires forall k :: 0 <= k < |posts| ==> OneLine(posts[k])
    ensures posts == [] ==> RecentContext(posts) == NoRecentPosts
    ensures posts != [] ==> Lines(RecentContext(posts)) == posts
  {
    if posts != [] {
      assert forall k, i :: 0 <= k < |posts| && 0 <= i < |posts[k]| ==> !IsLineBreak(posts[k][i]) by {
        forall k, i | 0 <= k < |posts| && 0 <= i < |posts[k]| ensures !IsLineBreak(posts[k][i]) {
          assert OneLine(posts[k]);
        }
      }
      LinesJoin(posts);
    }
  }

  /** `draft.strip()` of a completion: the completion without the whitespace at its ends. */
  function CleanDraft(completion: string): (draft: string)
    ensures TrimmedFrom(draft, completion)
  {
    StripIsTrimmed(completion);
    Strip(completion)
  }

  /** A text contains what it ends with. */
  lemma ContainsEnd(a: string, x: string)
    ensures Contains(a + x, x)
  {
    assert OccursAt(a + x, x, |a|) by { assert (a + x)[|a|..|a| + |x|] == x; }
    ContainsIff(a + x, x);
  }

  /** Text appended after an occurrence leaves it in place. */
  lemma ContainsExtended(s: string, b: string, x: string)
    requires Contains(s, x)
    ensures Contains(s + b, x)
  {
    ContainsIff(s, x);
    var i :| OccursAt(s, x, i);
    assert (s + b)[i..i + |x|] == s[i..i + |x|];
    assert OccursAt(s + b, x, i);
    ContainsIff(s + b, x);
  }

  /** Text put before an occurrence leaves it in place. */
  lemma ContainsPrepended(a: string, s: string, x: string)
    requires Contains(s, x)
    ensures Contains(a + s, x)
  {
    ContainsIff(s, x);
    var i :| OccursAt(s, x, i);
    OccursShifted(a, s, x, i);
    ContainsIff(a + s, x);
  }

  /** Every part occurs in `sep.join(parts)`. */
  lemma {:induction false} JoinCarriesParts(parts: seq<string>, sep: string)
    ensures forall k :: 0 <= k < |parts| ==> Contains(Join(parts, sep), parts[k])
    decreases |parts|
  {
    if parts != [] {
      ContainsEnd([], parts[0]);
      assert [] + parts[0] == parts[0];
    }
    if |parts| > 1 {
      var rest := parts[1..];
      var tail := Join(rest, sep);
      JoinCarriesParts(rest, sep);
      assert Join(parts, sep) == parts[0] + (sep + tail);
      ContainsExtended(parts[0], sep + tail, parts[0]);
      forall k | 1 <= k < |parts|
        ensures Contains(Join(parts, sep), parts[k])
      {
        assert rest[k - 1] == parts[k];
        ContainsPrepended(parts[0] + sep, tail, parts[k]);
        assert parts[0] + sep + tail == Join(parts, sep);
      }
    }
  }
}
