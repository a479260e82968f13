/**
 * The parser inside `generate_post_ideas`: it reads the completion returned by
 * the language model line by line and builds at most three
 * `{idea, styles}` records. Both bot variants carry the same parser text.
 *
 * `ParseIdeas` is the specification (a left fold `ScanFrom` over the lines,
 * then the flush, the fallback and the truncation); `ParseCompletion` is the
 * loop the source runs. `Reference` is an independent, declarative
 * description of the records (each numbered line with the bullets that
 * follow it), and `Render` is the answer format the prompt asks the model for.
 */
module IdeaParser {
  import opened Wrappers
  import opened Text

  datatype IdeaRecord = IdeaRecord(idea: string, styles: seq<string>)

  /** At most this many records leave the parser (`ideas[:3]`). */
  const MaxIdeas: nat := 3

  const FallbackStyles: seq<string> := ["Инфо", "Юмор", "Серьёзный"]

  /** The records returned when no numbered line is found. */
  const Fallback: seq<IdeaRecord> := [
    IdeaRecord("Новая идея 1", FallbackStyles),
    IdeaRecord("Новая идея 2", FallbackStyles),
    IdeaRecord("Новая идея 3", FallbackStyles)
  ]

  /** Length of the run of digits at the front of `s` (`\d+`). */
  function DigitRun(s: string): nat {
    |s| - |TrimLeft(s, Digit)|
  }

  /** The line matches `^\d+[\.\)]`. */
  predicate IsNumbered(line: string) {
    var k := DigitRun(line);
    0 < k < |line| && (line[k] == '.' || line[k] == ')')
  }

  /** The line matches `^[-•–]`. */
  predicate IsBullet(line: string) {
    line != [] && (line[0] == '-' || line[0] == '•' || line[0] == '–')
  }

  /** What one line of the completion contributes. */
  datatype LineKind = Numbered(idea: string) | Bullet(style: string) | Ignored

  /**
   * Classifies one raw line: it is stripped first; a blank line is ignored; a
   * numbered line yields the text after the number and separator, stripped
   * (the regex also removes `\s*` after the separator, which `strip()` removes
   * anyway); a bullet line yields the text after the marker, stripped.
   */
  function Classify(raw: string): LineKind {
    ClassifyStripped(Strip(raw))
  }

  /** Classifies a line that is already stripped. */
  function ClassifyStripped(line: string): LineKind {
    if line == [] then Ignored
    else if IsNumbered(line) then Numbered(Strip(line[DigitRun(line) + 1..]))
    else if IsBullet(line) then Bullet(Strip(line[1..]))
    else Ignored
  }

  /** The classification of every line, in order. */
  function Kinds(lines: seq<string>): (ks: seq<LineKind>)
    ensures |ks| == |lines|
    decreases |lines|
  {
    if lines == [] then [] else [Classify(lines[0])] + Kinds(lines[1..])
  }

  lemma {:induction false} KindsIndex(lines: seq<string>, i: nat)
    requires i < |lines|
    ensures Kinds(lines)[i] == Classify(lines[i])
    decreases i
  {
    var rest := lines[1..];
    assert Kinds(lines) == [Classify(lines[0])] + Kinds(rest);
    if i > 0 {
      KindsIndex(rest, i - 1);
      assert rest[i - 1] == lines[i];
    }
  }

  lemma KindsSingle(line: string)
    ensures Kinds([line]) == [Classify(line)]
  {
    assert [line][1..] == [];
  }

  lemma {:induction false} KindsAppend(a: seq<string>, b: seq<string>)
    ensures Kinds(a + b) == Kinds(a) + Kinds(b)
    decreases |a|
  {
    if a == [] {
      assert a + b == b;
    } else {
      assert (a + b)[0] == a[0] && (a + b)[1..] == a[1..] + b;
      KindsAppend(a[1..], b);
    }
  }

  /** The parser's variables: the finished records and the open one (`current`). */
  datatype Scan = Scan(ideas: seq<IdeaRecord>, current: Option<IdeaRecord>)

  const Start: Scan := Scan([], None)

  /** Moves the open record, if any, to the finished ones (`if current: ideas.append(current)`). */
  function Flush(st: Scan): seq<IdeaRecord> {
    match st.current
    case None => st.ideas
    case Some(c) => st.ideas + [c]
  }

  /** One iteration of the loop body. A bullet with no open record is dropped. */
  function Step(st: Scan, kind: LineKind): Scan {
    match kind
    case Numbered(t) => Scan(Flush(st), Some(IdeaRecord(t, [])))
    case Bullet(b) =>
      (match st.current
       case None => st
       case Some(c) => Scan(st.ideas, Some(c.(styles := c.styles + [b]))))
    case Ignored => st
  }

  /** The loop over the classified lines `ks`, run from state `st`. */
  function ScanFrom(st: Scan, ks: seq<LineKind>): Scan
    decreases |ks|
  {
    if ks == [] then st else ScanFrom(Step(st, ks[0]), ks[1..])
  }

  /** The records the loop has built once the last open record is flushed. */
  function Parsed(ks: seq<LineKind>): seq<IdeaRecord> {
    Flush(ScanFrom(Start, ks))
  }

  /** The parser's result: the fallback when nothing parsed, otherwise at most three records. */
  function ParseKinds(ks: seq<LineKind>): (r: seq<IdeaRecord>)
    ensures 1 <= |r| <= MaxIdeas
  {
    var ideas := Parsed(ks);
    if ideas == [] then Fallback
    else if |ideas| > MaxIdeas then ideas[..MaxIdeas]
    else ideas
  }

  /** The parser's result for a list of lines. */
  function ParseLines(lines: seq<string>): seq<IdeaRecord> {
    ParseKinds(Kinds(lines))
  }

  /** The parser's result for a completion string. */
  function ParseIdeas(completion: string): (r: seq<IdeaRecord>)
    ensures 1 <= |r| <= MaxIdeas
  {
    ParseLines(Lines(completion))
  }

  /** The loop of `generate_post_ideas`, as the source runs it. */
  method ParseCompletion(completion: string) returns (ideas: seq<IdeaRecord>)
    ensures ideas == ParseIdeas(completion)
  {
    var lines := Lines(completion);
    ideas := [];
    var current: Option<IdeaRecord> := None;
    var i := 0;
    while i < |lines|
      invariant 0 <= i <= |lines|
      invariant ScanFrom(Scan(ideas, current), Kinds(lines[i..])) == ScanFrom(Start, Kinds(lines))
    {
      assert lines[i..][0] == lines[i] && lines[i..][1..] == lines[i + 1..];
      match Classify(lines[i]) {
        case Numbered(t) =>
          if current.Some? {
            ideas := ideas + [current.value];
          }
          current := Some(IdeaRecord(t, []));
        case Bullet(b) =>
          if current.Some? {
            current := Some(current.value.(styles := current.value.styles + [b]));
          }
        case Ignored =>
      }
      i := i + 1;
    }
    if current.Some? {
      ideas := ideas + [current.value];
    }
    if ideas == [] {
      ideas := Fallback;
    }
    if |ideas| > MaxIdeas {
      ideas := ideas[..MaxIdeas];
    }
  }

  // ---------------------------------------------------------------
  // An independent description of the records
  // ---------------------------------------------------------------

  /** The styles of the bullet lines before the next numbered line. */
  function StylesUntilNext(ks: seq<LineKind>): seq<string>
    decreases |ks|
  {
    if ks == [] then []
    else match ks[0]
      case Numbered(_) => []
      case Bullet(b) => [b] + StylesUntilNext(ks[1..])
      case Ignored => StylesUntilNext(ks[1..])
  }

  /** The lines from the next numbered line on (empty if there is none). */
  function FromNext(ks: seq<LineKind>): (r: seq<LineKind>)
    ensures |r| <= |ks|
    ensures r == [] || r[0].Numbered?
    decreases |ks|
  {
    if ks == [] then []
    else if ks[0].Numbered? then ks
    else FromNext(ks[1..])
  }

  /** Each numbered line, with the styles of the bullet lines up to the next numbered line, in order. */
  function Reference(ks: seq<LineKind>): seq<IdeaRecord>
    decreases |ks|
  {
    if ks == [] then []
    else match ks[0]
      case Numbered(t) => [IdeaRecord(t, StylesUntilNext(ks[1..]))] + Reference(FromNext(ks[1..]))
      case _ => Reference(ks[1..])
  }

  /** The idea texts of the numbered lines, in order. */
  function NumberedIdeas(ks: seq<LineKind>): seq<string>
    decreases |ks|
  {
    if ks == [] then []
    else match ks[0]
      case Numbered(t) => [t] + NumberedIdeas(ks[1..])
      case _ => NumberedIdeas(ks[1..])
  }

  function IdeasOf(records: seq<IdeaRecord>): seq<string>
    decreases |records|
  {
    if records == [] then [] else [records[0].idea] + IdeasOf(records[1..])
  }

  lemma {:induction false} ScanWithoutOpen(ideas: seq<IdeaRecord>, ks: seq<LineKind>)
    ensures Flush(ScanFrom(Scan(ideas, None), ks)) == ideas + Reference(ks)
    decreases |ks|, 0
  {
    if ks == [] {
      assert ideas + [] == ideas;
    } else {
      match ks[0]
      case Numbered(t) =>
        ScanWithOpen(ideas, IdeaRecord(t, []), ks[1..]);
        assert [] + StylesUntilNext(ks[1..]) == StylesUntilNext(ks[1..]);
        assert ideas + [IdeaRecord(t, StylesUntilNext(ks[1..]))] + Reference(FromNext(ks[1..]))
            == ideas + ([IdeaRecord(t, StylesUntilNext(ks[1..]))] + Reference(FromNext(ks[1..])));
      case Bullet(_) =>
        ScanWithoutOpen(ideas, ks[1..]);
      case Ignored =>
        ScanWithoutOpen(ideas, ks[1..]);
    }
  }

  lemma {:induction false} ScanWithOpen(ideas: seq<IdeaRecord>, c: IdeaRecord, ks: seq<LineKind>)
    ensures Flush(ScanFrom(Scan(ideas, Some(c)), ks))
         == ideas + [IdeaRecord(c.idea, c.styles + StylesUntilNext(ks))] + Reference(FromNext(ks))
    decreases |ks|, 1
  {
    if ks == [] {
      assert c.styles + [] == c.styles;
    } else {
      match ks[0]
      case Numbered(t) =>
        ScanWithOpen(ideas + [c], IdeaRecord(t, []), ks[1..]);
        assert c.styles + [] == c.styles;
        assert [] + StylesUntilNext(ks[1..]) == StylesUntilNext(ks[1..]);
      case Bullet(b) =>
        var c' := c.(styles := c.styles + [b]);
        ScanWithOpen(ideas, c', ks[1..]);
        assert c'.styles + StylesUntilNext(ks[1..]) == c.styles + ([b] + StylesUntilNext(ks[1..]));
      case Ignored =>
        ScanWithOpen(ideas, c, ks[1..]);
    }
  }

  /** The loop builds exactly the records of the declarative description. */
  lemma ParsedIsReference(ks: seq<LineKind>)
    ensures Parsed(ks) == Reference(ks)
  {
    ScanWithoutOpen([], ks);
    assert [] + Reference(ks) == Reference(ks);
  }

  lemma {:induction false} FromNextSkipsNoIdea(ks: seq<LineKind>)
    ensures NumberedIdeas(FromNext(ks)) == NumberedIdeas(ks)
    decreases |ks|
  {
    if ks != [] && !ks[0].Numbered? {
      FromNextSkipsNoIdea(ks[1..]);
    }
  }

  /** The records' ideas are the numbered lines' texts, in order: one record per numbered line. */
  lemma {:induction false} ReferenceIdeas(ks: seq<LineKind>)
    ensures IdeasOf(Reference(ks)) == NumberedIdeas(ks)
    ensures |Reference(ks)| == |NumberedIdeas(ks)|
    decreases |ks|
  {
    if ks != [] {
      match ks[0]
      case Numbered(t) =>
        var rest := FromNext(ks[1..]);
        ReferenceIdeas(rest);
        FromNextSkipsNoIdea(ks[1..]);
        var recs := Reference(ks);
        assert recs[1..] == Reference(rest);
      case _ =>
        ReferenceIdeas(ks[1..]);
    }
  }

  lemma {:induction false} IdeasOfIndex(records: seq<IdeaRecord>, k: nat)
    requires k < |records|
    ensures |IdeasOf(records)| == |records| && IdeasOf(records)[k] == records[k].idea
    decreases k
  {
    if k > 0 {
      IdeasOfIndex(records[1..], k - 1);
    } else {
      IdeasOfLength(records);
    }
  }

  lemma {:induction false} IdeasOfLength(records: seq<IdeaRecord>)
    ensures |IdeasOf(records)| == |records|
    decreases |records|
  {
    if records != [] {
      IdeasOfLength(records[1..]);
    }
  }

  // ---------------------------------------------------------------
  // Properties of the parser's result
  // ---------------------------------------------------------------

  /** With no numbered line the result is exactly the three fallback records. */
  lemma ParseWithoutNumberedLine(ks: seq<LineKind>)
    requires NumberedIdeas(ks) == []
    ensures ParseKinds(ks) == Fallback
  {
    ParsedIsReference(ks);
    ReferenceIdeas(ks);
  }

  /**
   * With N >= 1 numbered lines the result holds min(N, 3) records: the first
   * ones of the declarative description, so record k carries the k-th numbered
   * line's idea and the styles of the bullets under it.
   */
  lemma ParseWithNumberedLines(ks: seq<LineKind>)
    requires NumberedIdeas(ks) != []
    ensures var n := |NumberedIdeas(ks)|;
      var r := ParseKinds(ks);
      && |r| == (if n <= MaxIdeas then n else MaxIdeas)
      && |r| <= |Reference(ks)| && r == Reference(ks)[..|r|]
      && forall k :: 0 <= k < |r| ==> r[k].idea == NumberedIdeas(ks)[k]
  {
    ParsedIsReference(ks);
    ReferenceIdeas(ks);
    var r := ParseKinds(ks);
    forall k | 0 <= k < |r| ensures r[k].idea == NumberedIdeas(ks)[k] {
      IdeasOfIndex(Reference(ks), k);
    }
  }

  /** Running the loop over two pieces one after the other is running it over their concatenation. */
  lemma {:induction false} ScanFromAppend(st: Scan, a: seq<LineKind>, b: seq<LineKind>)
    ensures ScanFrom(st, a + b) == ScanFrom(ScanFrom(st, a), b)
    decreases |a|
  {
    if a == [] {
      assert a + b == b;
    } else {
      assert (a + b)[0] == a[0] && (a + b)[1..] == a[1..] + b;
      ScanFromAppend(Step(st, a[0]), a[1..], b);
    }
  }

  lemma IgnoredKindIrrelevant(ka: seq<LineKind>, kb: seq<LineKind>)
    ensures ParseKinds(ka + [Ignored] + kb) == ParseKinds(ka + kb)
  {
    ScanFromAppend(Start, ka, [Ignored] + kb);
    ScanFromAppend(Start, ka, kb);
    assert ka + [Ignored] + kb == ka + ([Ignored] + kb);
    assert ([Ignored] + kb)[1..] == kb;
  }

  /** A blank or unrecognised line, wherever it stands, does not change the result. */
  lemma IgnoredLineIrrelevant(a: seq<string>, x: string, b: seq<string>)
    requires Classify(x) == Ignored
    ensures ParseLines(a + [x] + b) == ParseLines(a + b)
  {
    KindsAppend(a + [x], b);
    KindsAppend(a, [x]);
    KindsAppend(a, b);
    assert Kinds([x]) == [Ignored];
    IgnoredKindIrrelevant(Kinds(a), Kinds(b));
  }

  lemma {:induction false} ScanIdleWithoutIdea(ks: seq<LineKind>)
    requires forall k :: 0 <= k < |ks| ==> !ks[k].Numbered?
    ensures ScanFrom(Start, ks) == Start
    decreases |ks|
  {
    if ks != [] {
      ScanIdleWithoutIdea(ks[1..]);
    }
  }

  lemma KindsBeforeFirstIdeaDropped(ka: seq<LineKind>, kb: seq<LineKind>)
    requires forall k :: 0 <= k < |ka| ==> !ka[k].Numbered?
    ensures ParseKinds(ka + kb) == ParseKinds(kb)
  {
    ScanFromAppend(Start, ka, kb);
    ScanIdleWithoutIdea(ka);
  }

  /** Lines before the first numbered line (bullets included) are dropped. */
  lemma LinesBeforeFirstIdeaDropped(a: seq<string>, b: seq<string>)
    requires forall k :: 0 <= k < |a| ==> !Classify(a[k]).Numbered?
    ensures ParseLines(a + b) == ParseLines(b)
  {
    KindsAppend(a, b);
    forall k | 0 <= k < |a| ensures !Kinds(a)[k].Numbered? {
      KindsIndex(a, k);
    }
    KindsBeforeFirstIdeaDropped(Kinds(a), Kinds(b));
  }

  // ---------------------------------------------------------------
  // The answer format the prompt asks for is read back exactly
  // ---------------------------------------------------------------

  /** "k. <idea>" */
  function NumberLine(k: nat, idea: string): string {
    NumberText(k) + ". " + idea
  }

  /** "   - <style>" */
  function BulletLine(style: string): string {
    "   - " + style
  }

  function BulletLines(styles: seq<string>): seq<string>
    decreases |styles|
  {
    if styles == [] then [] else [BulletLine(styles[0])] + BulletLines(styles[1..])
  }

  /** The lines of records numbered from `k` on. */
  function RenderLines(records: seq<IdeaRecord>, k: nat): seq<string>
    decreases |records|
  {
    if records == [] then []
    else [NumberLine(k, records[0].idea)] + BulletLines(records[0].styles) + RenderLines(records[1..], k + 1)
  }

  /** The completion in the format the prompt prescribes: "1. idea\n   - style\n...". */
  function Render(records: seq<IdeaRecord>): string {
    Join(RenderLines(records, 1), "\n")
  }

  /** A label that survives a line of the format unchanged: non-empty, stripped, on one line. */
  predicate IsLabel(s: string) {
    s != [] && IsStripped(s) && forall i :: 0 <= i < |s| ==> !IsLineBreak(s[i])
  }

  predicate WellFormed(rec: IdeaRecord) {
    IsLabel(rec.idea) && forall j :: 0 <= j < |rec.styles| ==> IsLabel(rec.styles[j])
  }

  lemma {:induction false} TrimLeftSkips(x: string, y: string, cls: CharClass)
    requires forall i :: 0 <= i < |x| ==> InClass(x[i], cls)
    ensures TrimLeft(x + y, cls) == TrimLeft(y, cls)
    decreases |x|
  {
    if x == [] {
      assert x + y == y;
    } else {
      assert (x + y)[1..] == x[1..] + y;
      TrimLeftSkips(x[1..], y, cls);
    }
  }

  lemma StripNumberLine(k: nat, idea: string)
    requires IsLabel(idea)
    ensures Strip(NumberLine(k, idea)) == NumberLine(k, idea)
  {
    var n := NumberText(k);
    assert NumberLine(k, idea) == n + (". " + idea);
    StripKeepsStrippedTail(n, ". " + idea);
  }

  lemma DigitRunOfDigits(n: string, rest: string)
    requires forall i :: 0 <= i < |n| ==> IsDigit(n[i])
    requires rest != [] && !IsDigit(rest[0])
    ensures DigitRun(n + rest) == |n|
  {
    TrimLeftSkips(n, rest, Digit);
    assert TrimLeft(rest, Digit) == rest;
  }

  lemma ClassifyNumberedText(n: string, idea: string)
    requires n != [] && forall i :: 0 <= i < |n| ==> IsDigit(n[i])
    requires IsLabel(idea)
    ensures ClassifyStripped(n + (". " + idea)) == Numbered(idea)
  {
    var line := n + (". " + idea);
    DigitRunOfDigits(n, ". " + idea);
    assert line[|n|] == '.';
    assert line[|n| + 1..] == " " + idea;
    StripLabelAfterSpace(idea);
  }

  lemma ClassifyNumberLine(k: nat, idea: string)
    requires IsLabel(idea)
    ensures Classify(NumberLine(k, idea)) == Numbered(idea)
  {
    StripNumberLine(k, idea);
    assert NumberLine(k, idea) == NumberText(k) + (". " + idea);
    ClassifyNumberedText(NumberText(k), idea);
  }

  lemma StripBulletLine(style: string)
    requires IsLabel(style)
    ensures Strip(BulletLine(style)) == "- " + style
  {
    assert BulletLine(style) == "   " + ("- " + style);
    StripSkipsLeadingSpaces("   ", "- " + style);
    StripKeepsStrippedTail("- ", style);
  }

  lemma NoDigitRun(line: string)
    requires line != [] && !IsDigit(line[0])
    ensures DigitRun(line) == 0
  {
  }

  lemma StripLabelAfterSpace(t: string)
    requires IsLabel(t)
    ensures Strip(" " + t) == t
  {
    StripSkipsLeadingSpaces(" ", t);
    StrippedIsFixed(t);
  }

  lemma ClassifyBulletText(style: string)
    requires IsLabel(style)
    ensures ClassifyStripped("- " + style) == Bullet(style)
  {
    var line := "- " + style;
    NoDigitRun(line);
    assert line[1..] == " " + style;
    StripLabelAfterSpace(style);
  }

  lemma ClassifyBulletLine(style: string)
    requires IsLabel(style)
    ensures Classify(BulletLine(style)) == Bullet(style)
  {
    StripBulletLine(style);
    ClassifyBulletText(style);
  }

  /** The classification the bullet lines of `styles` are meant to receive. */
  function BulletKinds(styles: seq<string>): seq<LineKind>
    decreases |styles|
  {
    if styles == [] then [] else [Bullet(styles[0])] + BulletKinds(styles[1..])
  }

  /** The classification the rendered lines of `records` are meant to receive. */
  function RenderKinds(records: seq<IdeaRecord>): seq<LineKind>
    decreases |records|
  {
    if records == [] then []
    else [Numbered(records[0].idea)] + BulletKinds(records[0].styles) + RenderKinds(records[1..])
  }

  lemma {:induction false} BulletKindsThenNext(styles: seq<string>, rest: seq<LineKind>)
    requires rest == [] || rest[0].Numbered?
    ensures StylesUntilNext(BulletKinds(styles) + rest) == styles
    ensures FromNext(BulletKinds(styles) + rest) == rest
    decreases |styles|
  {
    if styles == [] {
      assert BulletKinds(styles) + rest == rest;
    } else {
      var tail := BulletKinds(styles[1..]) + rest;
      BulletKindsCons(styles, rest);
      BulletKindsThenNext(styles[1..], rest);
      BulletStep(styles[0], tail);
      assert styles == [styles[0]] + styles[1..];
    }
  }

  lemma BulletKindsCons(styles: seq<string>, rest: seq<LineKind>)
    requires styles != []
    ensures BulletKinds(styles) + rest == [Bullet(styles[0])] + (BulletKinds(styles[1..]) + rest)
  {
  }

  /** A bullet adds its style to the open record and does not start the next one. */
  lemma BulletStep(b: string, tail: seq<LineKind>)
    ensures StylesUntilNext([Bullet(b)] + tail) == [b] + StylesUntilNext(tail)
    ensures FromNext([Bullet(b)] + tail) == FromNext(tail)
  {
    var ks := [Bullet(b)] + tail;
    assert ks[0] == Bullet(b) && ks[1..] == tail;
  }

  lemma ReferenceOfNumbered(t: string, tail: seq<LineKind>)
    ensures Reference([Numbered(t)] + tail) == [IdeaRecord(t, StylesUntilNext(tail))] + Reference(FromNext(tail))
  {
    var ks := [Numbered(t)] + tail;
    assert ks[0] == Numbered(t) && ks[1..] == tail;
  }

  /** Grouping the rendered classification gives back the records. */
  lemma {:induction false} ReferenceOfRenderKinds(records: seq<IdeaRecord>)
    ensures Reference(RenderKinds(records)) == records
    ensures RenderKinds(records) == [] || RenderKinds(records)[0].Numbered?
    decreases |records|
  {
    if records != [] {
      ReferenceOfRenderKinds(records[1..]);
      ReferenceOfRenderKindsStep(records[0], RenderKinds(records[1..]));
      assert records == [records[0]] + records[1..];
    }
  }

  /** One rendered record in front of further records is grouped back into that record. */
  lemma ReferenceOfRenderKindsStep(rec: IdeaRecord, rest: seq<LineKind>)
    requires rest == [] || rest[0].Numbered?
    ensures Reference([Numbered(rec.idea)] + BulletKinds(rec.styles) + rest) == [rec] + Reference(rest)
  {
    BulletKindsThenNext(rec.styles, rest);
    var tail := BulletKinds(rec.styles) + rest;
    assert [Numbered(rec.idea)] + BulletKinds(rec.styles) + rest == [Numbered(rec.idea)] + tail;
    ReferenceOfNumbered(rec.idea, tail);
  }

  lemma {:induction false} KindsOfBulletLines(styles: seq<string>)
    requires forall j :: 0 <= j < |styles| ==> IsLabel(styles[j])
    ensures Kinds(BulletLines(styles)) == BulletKinds(styles)
    decreases |styles|
  {
    if styles != [] {
      KindsOfBulletLinesStep(styles);
      KindsOfBulletLines(styles[1..]);
    }
  }

  lemma KindsOfBulletLinesStep(styles: seq<string>)
    requires styles != [] && IsLabel(styles[0])
    ensures Kinds(BulletLines(styles)) == [Bullet(styles[0])] + Kinds(BulletLines(styles[1..]))
  {
    var line := BulletLine(styles[0]);
    var others := BulletLines(styles[1..]);
    assert BulletLines(styles) == [line] + others;
    KindsAppend([line], others);
    KindsSingle(line);
    ClassifyBulletLine(styles[0]);
  }

  lemma KindsOfNumberLine(k: nat, idea: string)
    requires IsLabel(idea)
    ensures Kinds([NumberLine(k, idea)]) == [Numbered(idea)]
  {
    KindsSingle(NumberLine(k, idea));
    ClassifyNumberLine(k, idea);
  }

  lemma {:induction false} KindsOfRenderLines(records: seq<IdeaRecord>, k: nat)
    requires forall i :: 0 <= i < |records| ==> WellFormed(records[i])
    ensures Kinds(RenderLines(records, k)) == RenderKinds(records)
    decreases |records|
  {
    if records != [] {
      var rec := records[0];
      var head := [NumberLine(k, rec.idea)];
      var bullets := BulletLines(rec.styles);
      var rest := RenderLines(records[1..], k + 1);
      assert RenderLines(records, k) == head + bullets + rest;
      KindsAppend(head + bullets, rest);
      KindsAppend(head, bullets);
      KindsOfNumberLine(k, rec.idea);
      KindsOfBulletLines(rec.styles);
      KindsOfRenderLines(records[1..], k + 1);
      assert Kinds(RenderLines(records, k))
          == [Numbered(rec.idea)] + BulletKinds(rec.styles) + RenderKinds(records[1..]);
    }
  }

  lemma {:induction false} BulletLinesOneLine(styles: seq<string>)
    requires forall j :: 0 <= j < |styles| ==> IsLabel(styles[j])
    ensures forall m, i :: (0 <= m < |BulletLines(styles)| && 0 <= i < |BulletLines(styles)[m]|
      ==> !IsLineBreak(BulletLines(styles)[m][i]))
    ensures |BulletLines(styles)| == |styles|
    decreases |styles|
  {
    if styles != [] {
      BulletLinesOneLine(styles[1..]);
      var ls := BulletLines(styles);
      assert ls[1..] == BulletLines(styles[1..]);
      forall m, i | 0 <= m < |ls| && 0 <= i < |ls[m]| ensures !IsLineBreak(ls[m][i]) {
        if m > 0 {
          assert ls[m] == BulletLines(styles[1..])[m - 1];
        }
      }
    }
  }

  lemma {:induction false} RenderLinesOneLine(records: seq<IdeaRecord>, k: nat)
    requires forall i :: 0 <= i < |records| ==> WellFormed(records[i])
    ensures forall m, i :: (0 <= m < |RenderLines(records, k)| && 0 <= i < |RenderLines(records, k)[m]|
      ==> !IsLineBreak(RenderLines(records, k)[m][i]))
    ensures records != [] ==> RenderLines(records, k) != []
    decreases |records|
  {
    if records != [] {
      RenderLinesOneLine(records[1..], k + 1);
      BulletLinesOneLine(records[0].styles);
      var ls := RenderLines(records, k);
      var head := NumberLine(k, records[0].idea);
      var bullets := BulletLines(records[0].styles);
      var rest := RenderLines(records[1..], k + 1);
      assert ls == [head] + bullets + rest;
      forall m, i | 0 <= m < |ls| && 0 <= i < |ls[m]| ensures !IsLineBreak(ls[m][i]) {
        if m == 0 {
          assert head == NumberText(k) + ". " + records[0].idea;
          if i >= |NumberText(k)| + 2 {
            assert head[i] == records[0].idea[i - |NumberText(k)| - 2];
          }
        } else if m <= |bullets| {
          assert ls[m] == bullets[m - 1];
        } else {
          assert ls[m] == rest[m - 1 - |bullets|];
        }
      }
    }
  }

  /**
   * An answer in the prescribed format is read back exactly: rendering
   * well-formed records and parsing the text gives back the first three.
   */
  lemma RenderRoundTrip(records: seq<IdeaRecord>)
    requires records != []
    requires forall i :: 0 <= i < |records| ==> WellFormed(records[i])
    ensures ParseIdeas(Render(records)) == if |records| <= MaxIdeas then records else records[..MaxIdeas]
  {
    var ls := RenderLines(records, 1);
    RenderLinesOneLine(records, 1);
    LinesJoin(ls);
    KindsOfRenderLines(records, 1);
    ReferenceOfRenderKinds(records);
    ParsedIsReference(Kinds(ls));
  }
}
