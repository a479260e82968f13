/**
 * The Python string operations the bot relies on, written out with the
 * semantics of CPython's `str` methods: `strip`, `in`, `find`/`rfind`,
 * `split`, `rsplit(sep, 1)`, `replace`, `startswith`/`endswith`,
 * `"\n".join` and `splitlines`.
 */
module Text {
  import opened Wrappers

  /** `c.isspace()`: the characters Python's `str.strip()` and the regex class `\s` remove. */
  predicate IsSpace(c: char) {
    || c == ' '
    || '\t' <= c <= '\r'
    || '\U{001C}' <= c <= '\U{001F}'
    || c == '\U{0085}' || c == '\U{00A0}' || c == '\U{1680}'
    || '\U{2000}' <= c <= '\U{200A}'
    || c == '\U{2028}' || c == '\U{2029}' || c == '\U{202F}' || c == '\U{205F}' || c == '\U{3000}'
  }

  /** The characters at which `str.splitlines()` breaks a string. */
  predicate IsLineBreak(c: char) {
    || c == '\n' || c == '\r' || c == '\U{000B}' || c == '\U{000C}'
    || '\U{001C}' <= c <= '\U{001E}'
    || c == '\U{0085}' || c == '\U{2028}' || c == '\U{2029}'
  }

  predicate IsDigit(c: char) { '0' <= c <= '9' }

  /** The character classes the trimming functions remove. */
  datatype CharClass = Whitespace | Digit | Quote

  predicate InClass(c: char, cls: CharClass) {
    match cls
    case Whitespace => IsSpace(c)
    case Digit => IsDigit(c)
    case Quote => c == '"'
  }

  /** A string with no whitespace at either end: what `strip()` returns. */
  predicate IsStripped(s: string) {
    s == [] || (!IsSpace(s[0]) && !IsSpace(s[|s| - 1]))
  }

  /** Removes the longest prefix whose characters all belong to `cls`. */
  function TrimLeft(s: string, cls: CharClass): (r: string)
    ensures |r| <= |s| && r == s[|s| - |r|..]
    ensures r == [] || !InClass(r[0], cls)
    decreases |s|
  {
    if s != [] && InClass(s[0], cls) then TrimLeft(s[1..], cls) else s
  }

  /** Removes the longest suffix whose characters all belong to `cls`. */
  function TrimRight(s: string, cls: CharClass): (r: string)
    ensures |r| <= |s| && r == s[..|r|]
    ensures r == [] || !InClass(r[|r| - 1], cls)
    decreases |s|
  {
    if s != [] && InClass(s[|s| - 1], cls) then TrimRight(s[..|s| - 1], cls) else s
  }

  /** Everything `TrimLeft` removes satisfies `drop`. */
  lemma {:induction false} TrimLeftRemoves(s: string, cls: CharClass)
    ensures forall i :: 0 <= i < |s| - |TrimLeft(s, cls)| ==> InClass(s[i], cls)
    decreases |s|
  {
    if s != [] && InClass(s[0], cls) {
      TrimLeftRemoves(s[1..], cls);
      forall i | 1 <= i < |s| - |TrimLeft(s, cls)| ensures InClass(s[i], cls) {
        assert s[i] == s[1..][i - 1];
      }
    }
  }

  /** Everything `TrimRight` removes satisfies `drop`. */
  lemma {:induction false} TrimRightRemoves(s: string, cls: CharClass)
    ensures forall i :: |TrimRight(s, cls)| <= i < |s| ==> InClass(s[i], cls)
    decreases |s|
  {
    if s != [] && InClass(s[|s| - 1], cls) {
      TrimRightRemoves(s[..|s| - 1], cls);
    }
  }

  /** Number of whitespace characters `strip()` removes at the front. */
  function LeadingSpaces(s: string): nat {
    |s| - |TrimLeft(s, Whitespace)|
  }

  /** `s.strip()`: what is left after removing whitespace at both ends. */
  function Strip(s: string): (r: string)
    ensures |r| <= |s|
    ensures IsStripped(r)
  {
    var left := TrimLeft(s, Whitespace);
    var r := TrimRight(left, Whitespace);
    assert r == [] || r[0] == left[0];
    r
  }

  /** A prefix of a suffix of `s` is a slice of `s`. */
  lemma SliceOfPrefixOfSuffix(s: string, left: string, r: string)
    requires |left| <= |s| && left == s[|s| - |left|..]
    requires |r| <= |left| && r == left[..|r|]
    ensures |s| - |left| + |r| <= |s| && r == s[|s| - |left|..|s| - |left| + |r|]
  {
  }

  /** `strip()` keeps an infix of its argument and removes only whitespace around it. */
  lemma StripIsInfix(s: string)
    ensures LeadingSpaces(s) + |Strip(s)| <= |s|
    ensures Strip(s) == s[LeadingSpaces(s)..LeadingSpaces(s) + |Strip(s)|]
    ensures forall i :: 0 <= i < |s| && !(LeadingSpaces(s) <= i < LeadingSpaces(s) + |Strip(s)|) ==> IsSpace(s[i])
  {
    TrimBothCuts(s, Whitespace);
    assert Strip(s) == TrimRight(TrimLeft(s, Whitespace), Whitespace);
  }

  /** Neither the first nor the last character belongs to `cls`. */
  predicate Bare(d: string, cls: CharClass) {
    d == [] || (!InClass(d[0], cls) && !InClass(d[|d| - 1], cls))
  }

  /** `d` is the slice of `s` at `l`, bare, with nothing but `cls` around it. */
  predicate CutAround(s: string, d: string, l: int, cls: CharClass) {
    && 0 <= l && l + |d| <= |s| && d == s[l..l + |d|] && Bare(d, cls)
    && forall j :: 0 <= j < |s| && !(l <= j < l + |d|) ==> InClass(s[j], cls)
  }

  /**
   * `d` is `s` without the characters of `cls` at its two ends: a bare slice
   * of `s` with nothing but such characters around it.
   */
  predicate Trimmed(d: string, s: string, cls: CharClass) {
    exists l :: 0 <= l <= |s| && CutAround(s, d, l, cls)
  }

  /** A prefix that ends outside `cls` of a string that starts outside it is bare. */
  lemma BarePrefix(left: string, r: string, cls: CharClass)
    requires left == [] || !InClass(left[0], cls)
    requires |r| <= |left| && r == left[..|r|]
    requires r == [] || !InClass(r[|r| - 1], cls)
    ensures Bare(r, cls)
  {
    assert r == [] || r[0] == left[0];
  }

  /** Trimming both ends cuts `s` right after the trimmed front. */
  lemma {:induction false} TrimBothCuts(s: string, cls: CharClass)
    ensures CutAround(s, TrimRight(TrimLeft(s, cls), cls), |s| - |TrimLeft(s, cls)|, cls)
  {
    TrimsCut(s, cls, TrimLeft(s, cls), TrimRight(TrimLeft(s, cls), cls));
  }

  /** `TrimBothCuts` with the two trims named. */
  lemma TrimsCut(s: string, cls: CharClass, left: string, r: string)
    requires left == TrimLeft(s, cls) && r == TrimRight(left, cls)
    ensures CutAround(s, r, |s| - |left|, cls)
  {
    LeftCut(s, cls, left);
    RightCut(left, cls, r);
    CutOfTrims(s, left, r, cls);
  }

  /** What `TrimLeft` keeps and what it removes. */
  lemma LeftCut(s: string, cls: CharClass, left: string)
    requires left == TrimLeft(s, cls)
    ensures |left| <= |s| && left == s[|s| - |left|..]
    ensures left == [] || !InClass(left[0], cls)
    ensures forall i :: 0 <= i < |s| - |left| ==> InClass(s[i], cls)
  {
    TrimLeftRemoves(s, cls);
  }

  /** What `TrimRight` keeps and what it removes. */
  lemma RightCut(left: string, cls: CharClass, r: string)
    requires r == TrimRight(left, cls)
    ensures |r| <= |left| && r == left[..|r|]
    ensures r == [] || !InClass(r[|r| - 1], cls)
    ensures forall i :: |r| <= i < |left| ==> InClass(left[i], cls)
  {
    TrimRightRemoves(left, cls);
  }

  /** What the two trims leave and remove, stated on their results alone. */
  lemma CutOfTrims(s: string, left: string, r: string, cls: CharClass)
    requires |left| <= |s| && left == s[|s| - |left|..]
    requires left == [] || !InClass(left[0], cls)
    requires forall i :: 0 <= i < |s| - |left| ==> InClass(s[i], cls)
    requires |r| <= |left| && r == left[..|r|]
    requires r == [] || !InClass(r[|r| - 1], cls)
    requires forall i :: |r| <= i < |left| ==> InClass(left[i], cls)
    ensures CutAround(s, r, |s| - |left|, cls)
  {
    var l := |s| - |left|;
    SliceOfPrefixOfSuffix(s, left, r);
    forall j | 0 <= j < |s| && !(l <= j < l + |r|) ensures InClass(s[j], cls) {
      if j >= l {
        assert s[j] == left[j - l];
      }
    }
    BarePrefix(left, r, cls);
  }

  /** Trimming both ends meets the description. */
  lemma TrimBothIsTrimmed(s: string, cls: CharClass)
    ensures Trimmed(TrimRight(TrimLeft(s, cls), cls), s, cls)
  {
    TrimBothCuts(s, cls);
  }

  /** Only one string meets it, so `Trimmed` pins down the trimming functions. */
  lemma TrimmedIsTrimBoth(d: string, s: string, cls: CharClass)
    requires Trimmed(d, s, cls)
    ensures d == TrimRight(TrimLeft(s, cls), cls)
  {
    var i :| 0 <= i <= |s| && CutAround(s, d, i, cls);
    TrimBothCuts(s, cls);
    BareSlicesAgree(s, cls, d, i, TrimRight(TrimLeft(s, cls), cls), |s| - |TrimLeft(s, cls)|);
  }

  /** Two cuts of `s` around bare slices are the same slice. */
  lemma BareSlicesAgree(s: string, cls: CharClass, d: string, i: int, r: string, l: int)
    requires CutAround(s, d, i, cls) && CutAround(s, r, l, cls)
    ensures d == r
  {
    if d != [] && r != [] {
      assert s[i] == d[0] && s[l] == r[0];
      assert s[i + |d| - 1] == d[|d| - 1] && s[l + |r| - 1] == r[|r| - 1];
      assert i == l && |d| == |r|;
    }
  }

  /** `d` is `s.strip()` described without computing it. */
  predicate TrimmedFrom(d: string, s: string) {
    Trimmed(d, s, Whitespace)
  }

  lemma StripIsTrimmed(s: string)
    ensures TrimmedFrom(Strip(s), s)
  {
    TrimBothIsTrimmed(s, Whitespace);
  }

  /** Only one string is trimmed from `s`, so `TrimmedFrom` pins down `strip()`. */
  lemma TrimmedIsStrip(d: string, s: string)
    requires TrimmedFrom(d, s)
    ensures d == Strip(s)
  {
    TrimmedIsTrimBoth(d, s, Whitespace);
  }

  /** Trimming `a + d + b` leaves `d` when `a` and `b` are all `cls` and `d` is bare. */
  lemma TrimPadded(a: string, d: string, b: string, cls: CharClass)
    requires forall k :: 0 <= k < |a| ==> InClass(a[k], cls)
    requires forall k :: 0 <= k < |b| ==> InClass(b[k], cls)
    requires Bare(d, cls)
    ensures TrimRight(TrimLeft(a + d + b, cls), cls) == d
  {
    var s := a + d + b;
    assert CutAround(s, d, |a|, cls) by {
      assert s[|a|..|a| + |d|] == d;
      forall j | 0 <= j < |s| && !(|a| <= j < |a| + |d|) ensures InClass(s[j], cls) {
        if j < |a| {
          assert s[j] == a[j];
        } else {
          assert s[j] == b[j - |a| - |d|];
        }
      }
    }
    TrimmedIsTrimBoth(d, s, cls);
  }

  /** `strip()` removes exactly the whitespace padding around a stripped string. */
  lemma StripPadded(a: string, d: string, b: string)
    requires forall k :: 0 <= k < |a| ==> IsSpace(a[k])
    requires forall k :: 0 <= k < |b| ==> IsSpace(b[k])
    requires IsStripped(d)
    ensures Strip(a + d + b) == d
  {
    TrimPadded(a, d, b, Whitespace);
  }

  /** `s.strip('"')`: a slice of `s` that neither starts nor ends with `"`, with only `"` removed around it. */
  function StripQuotes(s: string): (r: string)
    ensures |r| <= |s|
    ensures Trimmed(r, s, Quote)
  {
    TrimBothIsTrimmed(s, Quote);
    TrimRight(TrimLeft(s, Quote), Quote)
  }

  /** `strip('"')` removes exactly the quotes around a string that neither starts nor ends with one. */
  lemma StripQuotesPadded(a: string, d: string, b: string)
    requires forall k :: 0 <= k < |a| ==> a[k] == '"'
    requires forall k :: 0 <= k < |b| ==> b[k] == '"'
    requires d == [] || (d[0] != '"' && d[|d| - 1] != '"')
    ensures StripQuotes(a + d + b) == d
  {
    TrimPadded(a, d, b, Quote);
  }

  /** Only the quotes at the two ends go, so `Trimmed` pins down `strip('"')`. */
  lemma QuotesTrimmedIsStripQuotes(d: string, s: string)
    requires Trimmed(d, s, Quote)
    ensures d == StripQuotes(s)
  {
    TrimmedIsTrimBoth(d, s, Quote);
  }

  lemma StrippedIsFixed(s: string)
    requires IsStripped(s)
    ensures Strip(s) == s
  {
    assert TrimLeft(s, Whitespace) == s;
  }

  /** `strip()` is idempotent. */
  lemma StripIdempotent(s: string)
    ensures Strip(Strip(s)) == Strip(s)
  {
    StrippedIsFixed(Strip(s));
  }

  /** `strip()` yields the empty string exactly when every character is whitespace. */
  lemma StripEmptyIff(s: string)
    ensures Strip(s) == [] <==> forall i :: 0 <= i < |s| ==> IsSpace(s[i])
  {
    StripIsInfix(s);
  }

  /** Leading whitespace never survives `strip()`. */
  lemma {:induction false} StripSkipsLeadingSpaces(ws: string, s: string)
    requires forall i :: 0 <= i < |ws| ==> IsSpace(ws[i])
    ensures Strip(ws + s) == Strip(s)
    decreases |ws|
  {
    if ws != [] {
      assert (ws + s)[1..] == ws[1..] + s;
      StripSkipsLeadingSpaces(ws[1..], s);
    } else {
      assert ws + s == s;
    }
  }

  /** A string that starts with a non-space character and ends stripped keeps its front under `strip()`. */
  lemma StripKeepsStrippedTail(p: string, s: string)
    requires p != [] && !IsSpace(p[0])
    requires s != [] && !IsSpace(s[|s| - 1])
    ensures Strip(p + s) == p + s
  {
    StrippedIsFixed(p + s);
  }

  // ---------------------------------------------------------------
  // Substring search
  // ---------------------------------------------------------------

  /** `sub` occurs in `s` starting at index `i`. */
  predicate OccursAt(s: string, sub: string, i: int) {
    0 <= i && i + |sub| <= |s| && s[i..i + |sub|] == sub
  }

  /** The first index `>= from` at which `sub` occurs (`s.find(sub, from)`). */
  function FindFrom(s: string, sub: string, from: nat): (r: Option<nat>)
    requires from <= |s|
    ensures r.Some? ==> from <= r.value && OccursAt(s, sub, r.value)
    ensures r.Some? ==> forall j :: from <= j < r.value ==> !OccursAt(s, sub, j)
    ensures r.None? ==> forall j :: from <= j ==> !OccursAt(s, sub, j)
    decreases |s| - from
  {
    if OccursAt(s, sub, from) then Some(from)
    else if from == |s| then None
    else FindFrom(s, sub, from + 1)
  }

  /** `s.find(sub)`, as an option. */
  function FindFirst(s: string, sub: string): (r: Option<nat>)
    ensures r.Some? ==> OccursAt(s, sub, r.value) && forall j :: 0 <= j < r.value ==> !OccursAt(s, sub, j)
    ensures r.None? ==> forall j :: !OccursAt(s, sub, j)
  {
    FindFrom(s, sub, 0)
  }

  /** The last index `<= hi` at which `sub` occurs. */
  function FindLastUpTo(s: string, sub: string, hi: nat): (r: Option<nat>)
    requires hi <= |s|
    ensures r.Some? ==> r.value <= hi && OccursAt(s, sub, r.value)
    ensures r.Some? ==> forall j :: r.value < j <= hi ==> !OccursAt(s, sub, j)
    ensures r.None? ==> forall j :: j <= hi ==> !OccursAt(s, sub, j)
    decreases hi
  {
    if OccursAt(s, sub, hi) then Some(hi)
    else if hi == 0 then None
    else FindLastUpTo(s, sub, hi - 1)
  }

  /** `s.rfind(sub)`, as an option. */
  function FindLast(s: string, sub: string): (r: Option<nat>)
    ensures r.Some? ==> OccursAt(s, sub, r.value) && forall j :: r.value < j ==> !OccursAt(s, sub, j)
    ensures r.None? ==> forall j :: !OccursAt(s, sub, j)
  {
    FindLastUpTo(s, sub, |s|)
  }

  /** `sub in s`. */
  predicate Contains(s: string, sub: string) {
    FindFirst(s, sub).Some?
  }

  /** `sub in s` holds exactly when `sub` occurs somewhere, and then `rfind` finds it too. */
  lemma ContainsIff(s: string, sub: string)
    ensures Contains(s, sub) <==> exists i :: OccursAt(s, sub, i)
    ensures Contains(s, sub) <==> FindLast(s, sub).Some?
  {
    if FindLast(s, sub).Some? {
      assert OccursAt(s, sub, FindLast(s, sub).value);
    }
  }

  /** A search from `from` returns `k` when `sub` occurs at `k` and nowhere in between. */
  lemma {:induction false} FindFromIsFirst(s: string, sub: string, from: nat, k: nat)
    requires from <= k <= |s| && OccursAt(s, sub, k)
    requires forall j :: from <= j < k ==> !OccursAt(s, sub, j)
    ensures FindFrom(s, sub, from) == Some(k)
    decreases k - from
  {
    if from < k {
      FindFromIsFirst(s, sub, from + 1, k);
    }
  }

  /** `s.startswith(p)`. */
  predicate StartsWith(s: string, p: string) {
    |p| <= |s| && s[..|p|] == p
  }

  /** `s.endswith(p)`. */
  predicate EndsWith(s: string, p: string) {
    |p| <= |s| && s[|s| - |p|..] == p
  }

  /** Text appended to a string keeps its prefixes. */
  lemma StartsWithAppend(a: string, b: string, p: string)
    requires StartsWith(a, p)
    ensures StartsWith(a + b, p)
  {
    assert (a + b)[..|p|] == a[..|p|];
  }

  lemma EndsWithAppend(a: string, b: string)
    ensures EndsWith(a + b, b)
  {
    assert (a + b)[|a|..] == b;
  }

  // ---------------------------------------------------------------
  // Join, split, replace
  // ---------------------------------------------------------------

  /** `sep.join(parts)`. */
  function Join(parts: seq<string>, sep: string): string
    decreases |parts|
  {
    if parts == [] then ""
    else if |parts| == 1 then parts[0]
    else parts[0] + sep + Join(parts[1..], sep)
  }

  lemma NoOccurrenceBefore(s: string, sep: string, i: nat)
    requires sep != [] && i <= |s|
    requires forall j :: 0 <= j < i ==> !OccursAt(s, sep, j)
    ensures !Contains(s[..i], sep)
  {
    if Contains(s[..i], sep) {
      var j := FindFirst(s[..i], sep).value;
      assert s[..i][j..j + |sep|] == s[j..j + |sep|];
      assert OccursAt(s, sep, j);
    }
  }

  /** `s.split(sep)`: the pieces between the non-overlapping occurrences of `sep`, left to right. */
  function Split(s: string, sep: string): (parts: seq<string>)
    requires sep != []
    ensures |parts| >= 1
    ensures Join(parts, sep) == s
    ensures forall k :: 0 <= k < |parts| ==> !Contains(parts[k], sep)
    ensures |parts| > 1 ==> FindFirst(s, sep) == Some(|parts[0]|)
    decreases |s|
  {
    match FindFirst(s, sep)
    case None =>
      assert !Contains(s, sep);
      [s]
    case Some(i) =>
      NoOccurrenceBefore(s, sep, i);
      var rest := Split(s[i + |sep|..], sep);
      assert s == s[..i] + sep + s[i + |sep|..] by {
        assert s[i..i + |sep|] == sep;
      }
      [s[..i]] + rest
  }

  /** `s.replace(old, new)`: every non-overlapping occurrence, left to right. */
  function ReplaceAll(s: string, target: string, replacement: string): (r: string)
    requires target != []
    ensures exists parts ::
      && Join(parts, target) == s && Join(parts, replacement) == r
      && forall k :: 0 <= k < |parts| ==> !Contains(parts[k], target)
  {
    Join(Split(s, target), replacement)
  }

  /** Replacing in a string that lacks `old` changes nothing. */
  lemma ReplaceAbsent(s: string, target: string, replacement: string)
    requires target != [] && !Contains(s, target)
    ensures ReplaceAll(s, target, replacement) == s
  {
    assert FindFirst(s, target).None?;
  }

  /** Removing a prefix marker with `replace` gives back the rest exactly when the rest lacks the marker. */
  lemma ReplacePrefixMarker(marker: string, t: string)
    requires marker != [] && !Contains(t, marker)
    ensures ReplaceAll(marker + t, marker, "") == t
  {
    var s := marker + t;
    assert OccursAt(s, marker, 0) by { assert s[0..|marker|] == marker; }
    FindFromIsFirst(s, marker, 0, 0);
    assert s[|marker|..] == t;
    assert FindFirst(t, marker).None?;
    assert Split(t, marker) == [t];
    assert Split(s, marker) == [""] + [t];
    assert Join([""] + [t], "") == "" + "" + t;
  }

  // ---------------------------------------------------------------
  // splitlines
  // ---------------------------------------------------------------

  /** Length of the longest prefix free of line breaks. */
  function FirstBreak(s: string): (n: nat)
    ensures n <= |s|
    ensures forall i :: 0 <= i < n ==> !IsLineBreak(s[i])
    ensures n < |s| ==> IsLineBreak(s[n])
    decreases |s|
  {
    if s == [] || IsLineBreak(s[0]) then 0 else 1 + FirstBreak(s[1..])
  }

  /**
   * `s.splitlines()`, up to empty pieces: the text is cut at every line-break
   * character. Where Python treats "\r\n" as one break, and where it drops the
   * empty piece after a final break, this yields an extra empty line.
   */
  function Lines(s: string): (ls: seq<string>)
    ensures |ls| >= 1
    ensures forall k, i :: 0 <= k < |ls| && 0 <= i < |ls[k]| ==> !IsLineBreak(ls[k][i])
    decreases |s|
  {
    var n := FirstBreak(s);
    if n == |s| then [s] else [s[..n]] + Lines(s[n + 1..])
  }

  /** The pieces with one break character between each two of them. */
  function Interleave(ls: seq<string>, breaks: seq<char>): string
    requires |ls| == |breaks| + 1
    decreases |breaks|
  {
    if breaks == [] then ls[0] else ls[0] + [breaks[0]] + Interleave(ls[1..], breaks[1..])
  }

  /** `s` is the pieces `ls` with the single break characters `breaks` between them. */
  predicate CutAtBreaks(s: string, ls: seq<string>, breaks: seq<char>) {
    && |ls| == |breaks| + 1
    && (forall k :: 0 <= k < |breaks| ==> IsLineBreak(breaks[k]))
    && Interleave(ls, breaks) == s
  }

  /**
   * `Lines` loses nothing: the text is its pieces with a single line-break
   * character between each two of them, so every break is a cut.
   */
  lemma {:induction false} LinesRebuild(s: string)
    ensures exists breaks :: CutAtBreaks(s, Lines(s), breaks)
    decreases |s|
  {
    var n := FirstBreak(s);
    if n == |s| {
      assert CutAtBreaks(s, Lines(s), []);
    } else {
      var rest := s[n + 1..];
      LinesRebuild(rest);
      var b :| CutAtBreaks(rest, Lines(rest), b);
      LinesUnfold(s, n);
      SplitAt(s, n);
      CutCons(s, s[..n], s[n], rest, Lines(rest), b);
    }
  }

  /** A sequence is what comes before position `n`, the element there, and the rest. */
  lemma SplitAt(s: string, n: nat)
    requires n < |s|
    ensures s == s[..n] + [s[n]] + s[n + 1..]
  {
  }

  lemma LinesUnfold(s: string, n: nat)
    requires n == FirstBreak(s) < |s|
    ensures Lines(s) == [s[..n]] + Lines(s[n + 1..])
  {
  }

  /** A piece and a break in front of a cut text give a cut of the longer text. */
  lemma CutCons(s: string, x: string, c: char, rest: string, ls: seq<string>, b: seq<char>)
    requires s == x + [c] + rest && IsLineBreak(c)
    requires CutAtBreaks(rest, ls, b)
    ensures CutAtBreaks(s, [x] + ls, [c] + b)
  {
    assert ([x] + ls)[1..] == ls;
    assert ([c] + b)[1..] == b;
  }

  /** Cutting at line breaks undoes joining with "\n" when no line holds a break. */
  lemma {:induction false} LinesJoin(ls: seq<string>)
    requires |ls| >= 1
    requires forall k, i :: 0 <= k < |ls| && 0 <= i < |ls[k]| ==> !IsLineBreak(ls[k][i])
    ensures Lines(Join(ls, "\n")) == ls
    decreases |ls|
  {
    var s := Join(ls, "\n");
    if |ls| == 1 {
      assert FirstBreak(s) == |s| by { FirstBreakOf(ls[0], ""); }
    } else {
      var rest := Join(ls[1..], "\n");
      assert s == ls[0] + "\n" + rest;
      assert s == ls[0] + ("\n" + rest);
      FirstBreakOf(ls[0], "\n" + rest);
      assert s[..|ls[0]|] == ls[0];
      assert s[|ls[0]| + 1..] == rest;
      LinesJoin(ls[1..]);
      assert FirstBreak(s) == |ls[0]| < |s|;
      assert Lines(s) == [s[..|ls[0]|]] + Lines(s[|ls[0]| + 1..]);
      assert ls == [ls[0]] + ls[1..];
    }
  }

  lemma {:induction false} FirstBreakOf(x: string, y: string)
    requires forall i :: 0 <= i < |x| ==> !IsLineBreak(x[i])
    requires y == [] || IsLineBreak(y[0])
    ensures FirstBreak(x + y) == |x|
    decreases |x|
  {
    if x == [] {
      assert x + y == y;
    } else {
      assert (x + y)[1..] == x[1..] + y;
      FirstBreakOf(x[1..], y);
    }
  }

  // ---------------------------------------------------------------
  // split(sep, 1) and rsplit(sep, 1)
  // ---------------------------------------------------------------

  /** The two sides of an occurrence of `sep` at `i`. */
  function CutAt(s: string, sep: string, i: nat): (r: (string, string))
    requires OccursAt(s, sep, i)
    ensures s == r.0 + sep + r.1 && |r.0| == i
  {
    assert s == s[..i] + s[i..i + |sep|] + s[i + |sep|..];
    (s[..i], s[i + |sep|..])
  }

  /** `s.split(sep, 1)` when `sep in s`: the sides of the first occurrence. */
  function SplitFirst(s: string, sep: string): (r: Option<(string, string)>)
    ensures r.None? <==> !Contains(s, sep)
    ensures r.Some? ==> s == r.value.0 + sep + r.value.1
    ensures r.Some? ==> forall j :: 0 <= j < |r.value.0| ==> !OccursAt(s, sep, j)
  {
    match FindFirst(s, sep)
    case None => None
    case Some(i) => Some(CutAt(s, sep, i))
  }

  /** What precedes the first separator holds no separator. */
  lemma BeforeFirstLacksSeparator(s: string, sep: string)
    requires sep != [] && Contains(s, sep)
    ensures !Contains(SplitFirst(s, sep).value.0, sep)
  {
    var (before, after) := SplitFirst(s, sep).value;
    assert s[..|before|] == before;
    NoOccurrenceBefore(s, sep, |before|);
  }

  /** A string without `c` occurs in `a + [c] + b` only if it occurs in `a` or in `b`. */
  lemma NoOccurrenceAcross(a: string, c: char, b: string, sub: string)
    requires !Contains(a, sub) && !Contains(b, sub)
    requires forall k :: 0 <= k < |sub| ==> sub[k] != c
    ensures !Contains(a + [c] + b, sub)
  {
    var s := a + [c] + b;
    ContainsIff(a, sub);
    ContainsIff(b, sub);
    forall j | 0 <= j && j + |sub| <= |s| ensures !OccursAt(s, sub, j) {
      if j + |sub| <= |a| {
        assert a[j..j + |sub|] == s[j..j + |sub|];
        assert !OccursAt(a, sub, j);
      } else if j > |a| {
        var i := j - |a| - 1;
        assert b[i..i + |sub|] == s[j..j + |sub|];
        assert !OccursAt(b, sub, i);
      } else {
        assert s[j..j + |sub|][|a| - j] == c;
      }
    }
    ContainsIff(s, sub);
  }

  /** `s.rsplit(sep, 1)` when `sep in s`: the sides of the last occurrence. */
  function SplitLast(s: string, sep: string): (r: Option<(string, string)>)
    ensures r.None? <==> !Contains(s, sep)
    ensures r.Some? ==> s == r.value.0 + sep + r.value.1
    ensures r.Some? ==> forall j :: |r.value.0| < j ==> !OccursAt(s, sep, j)
  {
    ContainsIff(s, sep);
    match FindLast(s, sep)
    case None => None
    case Some(i) => Some(CutAt(s, sep, i))
  }

  /** What follows the last separator holds no separator. */
  lemma AfterLastLacksSeparator(s: string, sep: string)
    requires sep != [] && Contains(s, sep)
    ensures !Contains(SplitLast(s, sep).value.1, sep)
  {
    var (before, after) := SplitLast(s, sep).value;
    ContainsIff(after, sep);
    forall j | OccursAt(after, sep, j) ensures false {
      OccursShifted(before + sep, after, sep, j);
    }
  }

  /** An occurrence in `b` is an occurrence in `a + b`, `|a|` further on. */
  lemma OccursShifted(a: string, b: string, sep: string, j: int)
    requires OccursAt(b, sep, j)
    ensures OccursAt(a + b, sep, |a| + j)
  {
    assert (a + b)[|a| + j..|a| + j + |sep|] == b[j..j + |sep|];
  }

  /**
   * A marker whose first character occurs nowhere else in it cannot overlap
   * itself: an occurrence that starts inside an occurrence is impossible.
   */
  predicate HeadIsUnique(sep: string) {
    sep != [] && forall k :: 0 < k < |sep| ==> sep[k] != sep[0]
  }

  /** No occurrence of `sep` in `a + sep + b` starts after `a` when `b` lacks `sep`. */
  lemma NoOccurrenceAfter(a: string, sep: string, b: string)
    requires HeadIsUnique(sep) && !Contains(b, sep)
    ensures forall j :: |a| < j ==> !OccursAt(a + sep + b, sep, j)
  {
    var s := a + sep + b;
    ContainsIff(b, sep);
    forall j | |a| < j ensures !OccursAt(s, sep, j) {
      if j < |a| + |sep| {
        assert s[j] == sep[j - |a|];
        assert s[j] != sep[0];
      } else if j + |sep| <= |s| {
        assert s[j..j + |sep|] == b[j - |a| - |sep|..j - |a|];
        assert !OccursAt(b, sep, j - |a| - |sep|);
      }
    }
  }

  /** `rsplit(sep, 1)` cuts `a + sep + b` right after `a` when `b` lacks `sep`. */
  lemma SplitLastOf(a: string, sep: string, b: string)
    requires HeadIsUnique(sep) && !Contains(b, sep)
    ensures SplitLast(a + sep + b, sep) == Some((a, b))
  {
    var s := a + sep + b;
    assert OccursAt(s, sep, |a|) by { assert s[|a|..|a| + |sep|] == sep; }
    ContainsIff(s, sep);
    NoOccurrenceAfter(a, sep, b);
    assert FindLast(s, sep) == Some(|a|);
    assert s[..|a|] == a;
    assert s[|a| + |sep|..] == b;
  }

  /** The first occurrence of `sep` in `a + sep + b` is right after `a` when `a` lacks `sep`. */
  lemma FirstOccurrenceAt(a: string, sep: string, b: string)
    requires HeadIsUnique(sep) && !Contains(a, sep)
    ensures FindFirst(a + sep + b, sep) == Some(|a|)
  {
    var s := a + sep + b;
    assert OccursAt(s, sep, |a|) by { assert s[|a|..|a| + |sep|] == sep; }
    ContainsIff(a, sep);
    forall j | 0 <= j < |a| ensures !OccursAt(s, sep, j) {
      if j + |sep| <= |a| {
        assert a[j..j + |sep|] == s[j..j + |sep|];
        assert !OccursAt(a, sep, j);
      } else if j + |sep| <= |s| {
        assert s[j..j + |sep|][|a| - j] == s[|a|] == sep[0];
        assert sep[|a| - j] != sep[0];
      }
    }
    FindFromIsFirst(s, sep, 0, |a|);
  }

  /** `split(sep, 1)` cuts `a + sep + b` right after `a` when `a` lacks `sep`. */
  lemma SplitFirstOf(a: string, sep: string, b: string)
    requires HeadIsUnique(sep) && !Contains(a, sep)
    ensures SplitFirst(a + sep + b, sep) == Some((a, b))
  {
    var s := a + sep + b;
    FirstOccurrenceAt(a, sep, b);
    assert s[..|a|] == a;
    assert s[|a| + |sep|..] == b;
  }

  /** Splitting undoes joining on a marker that no part contains and that cannot overlap itself. */
  lemma {:induction false} SplitJoinMarker(parts: seq<string>, sep: string)
    requires HeadIsUnique(sep) && |parts| >= 1
    requires forall k :: 0 <= k < |parts| ==> !Contains(parts[k], sep)
    ensures Split(Join(parts, sep), sep) == parts
    decreases |parts|
  {
    if |parts| == 1 {
      assert FindFirst(Join(parts, sep), sep).None?;
    } else {
      SplitCons(parts[0], sep, Join(parts[1..], sep));
      SplitJoinMarker(parts[1..], sep);
      assert parts == [parts[0]] + parts[1..];
    }
  }

  /** Splitting `a + sep + rest` yields `a` followed by the pieces of `rest`. */
  lemma SplitCons(a: string, sep: string, rest: string)
    requires HeadIsUnique(sep) && !Contains(a, sep)
    ensures Split(a + sep + rest, sep) == [a] + Split(rest, sep)
  {
    var s := a + sep + rest;
    FirstOccurrenceAt(a, sep, rest);
    assert s[|a| + |sep|..] == rest;
    assert s[..|a|] == a;
  }

  // ---------------------------------------------------------------
  // Decimal numbers and int()
  // ---------------------------------------------------------------

  predicate AllDigits(s: string) {
    forall i :: 0 <= i < |s| ==> IsDigit(s[i])
  }

  /** Decimal digits of `k` (`str(k)`). */
  function NumberText(k: nat): (r: string)
    ensures r != [] && AllDigits(r)
  {
    if k < 10 then [('0' as int + k) as char] else NumberText(k / 10) + [('0' as int + k % 10) as char]
  }

  /** The value of a string of decimal digits. */
  function DecimalValue(s: string): nat
    requires AllDigits(s)
    decreases |s|
  {
    if s == [] then 0 else 10 * DecimalValue(s[..|s| - 1]) + (s[|s| - 1] as int - '0' as int)
  }

  /** `int(t)` for an already stripped `t`: an optional sign, then at least one ASCII digit. */
  function DecimalOf(t: string): (r: Option<int>)
    ensures r.Some? <==>
      || (t != [] && AllDigits(t))
      || (|t| >= 2 && (t[0] == '-' || t[0] == '+') && AllDigits(t[1..]))
    ensures r.Some? && AllDigits(t) ==> r.value == DecimalValue(t)
    ensures |t| >= 2 && t[0] == '-' && AllDigits(t[1..]) ==> r == Some(-(DecimalValue(t[1..]) as int))
    ensures |t| >= 2 && t[0] == '+' && AllDigits(t[1..]) ==> r == Some(DecimalValue(t[1..]))
  {
    if t == [] then None
    else if t[0] == '-' || t[0] == '+' then
      var digits := t[1..];
      if digits == [] || !AllDigits(digits) then None
      else Some(if t[0] == '-' then -(DecimalValue(digits) as int) else DecimalValue(digits))
    else if AllDigits(t) then Some(DecimalValue(t))
    else None
  }

  /**
   * `int(s)` for a decimal string: surrounding whitespace, an optional sign,
   * then at least one ASCII digit; anything else raises `ValueError` (`None`).
   */
  function PyInt(s: string): (r: Option<int>)
    ensures r.Some? <==> var t := Strip(s);
      || (t != [] && AllDigits(t))
      || (|t| >= 2 && (t[0] == '-' || t[0] == '+') && AllDigits(t[1..]))
    ensures r.Some? && AllDigits(Strip(s)) ==> r.value == DecimalValue(Strip(s))
    ensures |Strip(s)| >= 2 && Strip(s)[0] == '-' && AllDigits(Strip(s)[1..]) ==> r == Some(-(DecimalValue(Strip(s)[1..]) as int))
    ensures |Strip(s)| >= 2 && Strip(s)[0] == '+' && AllDigits(Strip(s)[1..]) ==> r == Some(DecimalValue(Strip(s)[1..]))
  {
    DecimalOf(Strip(s))
  }

  lemma {:induction false} DecimalOfNumberText(k: nat)
    ensures DecimalValue(NumberText(k)) == k
  {
    if k >= 10 {
      var d := NumberText(k / 10);
      var s := d + [('0' as int + k % 10) as char];
      assert s[..|s| - 1] == d;
      DecimalOfNumberText(k / 10);
    }
  }

  /** `int(str(k)) == k`. */
  lemma PyIntOfNumberText(k: nat)
    ensures PyInt(NumberText(k)) == Some(k)
  {
    var n := NumberText(k);
    StrippedIsFixed(n);
    DecimalOfNumberText(k);
  }

  /** A string of digits never contains a marker that starts with a non-digit. */
  lemma DigitsLackMarker(s: string, marker: string)
    requires AllDigits(s) && marker != [] && !IsDigit(marker[0])
    ensures !Contains(s, marker)
  {
    ContainsIff(s, marker);
    forall j ensures !OccursAt(s, marker, j) {
      if 0 <= j && j + |marker| <= |s| {
        assert s[j..j + |marker|][0] == s[j];
      }
    }
  }
}
