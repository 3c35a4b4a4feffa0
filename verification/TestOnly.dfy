/** The proof that a pull request touches nothing but existing `cfg(test)` items
    of a Rust file: `cfg_test_ranges`, and the part of `strict_test_only_proof`
    that judges one file. */
module TestOnly {
  import opened Characters
  import opened Options
  import opened UnifiedDiff
  import M = MarkdownLines
  import Lines = TextLines
  import T = RustText

  // ------------------------------------------------------------- lines

  lemma {:induction false} SameBreak(s: string, t: string, i: nat)
    requires i <= |s| == |t| && forall k | 0 <= k < |s| :: s[k] == '\n' <==> t[k] == '\n'
    ensures FindChar(s, '\n', i) == FindChar(t, '\n', i)
    decreases |s| - i
  {
    if i < |s| {
      SameBreak(s, t, i + 1);
    }
  }

  /** Texts with their line breaks in the same places have as many lines. */
  lemma {:induction false} SameBreaksSameLines(s: string, t: string)
    requires |s| == |t| && forall k | 0 <= k < |s| :: s[k] == '\n' <==> t[k] == '\n'
    ensures |Lines.Contents(s)| == |Lines.Contents(t)|
    decreases |s|
  {
    if s != [] {
      hide FindChar;
      var i := FindChar(s, '\n', 0);
      SameBreak(s, t, 0);
      if i < |s| {
        SameBreaksSameLines(s[i+1..], t[i+1..]);
      }
    }
  }

  /** The lines of a source, and of its structural text. */
  datatype Source = Source(lines: seq<string>, structure: seq<string>)

  function Read(word: char -> bool, text: string): (r: Option<Source>)
    ensures r.Some? ==> |r.value.lines| == |r.value.structure|
  {
    match T.Structural(word, text)
    case None => None
    case Some(t) =>
      StructureHasTheSameLines(word, text);
      Some(Source(Lines.Contents(text), Lines.Contents(t)))
  }

  lemma StructureHasTheSameLines(word: char -> bool, text: string)
    requires T.Structural(word, text).Some?
    ensures |Lines.Contents(text)| == |Lines.Contents(T.Structural(word, text).value)|
  {
    T.StructuralLength(word, text);
    forall k | 0 <= k < |text| ensures text[k] == '\n' <==> T.Structural(word, text).value[k] == '\n' {
      T.StructuralKeepsPositions(word, text, k);
    }
    SameBreaksSameLines(text, T.Structural(word, text).value);
  }

  function SkipSpace(l: string, i: nat): (r: nat)
    requires i <= |l|
    ensures i <= r <= |l|
    decreases |l| - i
  {
    if i < |l| && M.Space(l[i]) then SkipSpace(l, i + 1) else i
  }

  /** The line consists of these words, with any space between and around them. */
  predicate Words(l: string, i: nat, ws: seq<string>)
    requires i <= |l|
    decreases |ws|
  {
    var j := SkipSpace(l, i);
    if ws == [] then j == |l| else ws[0] <= l[j..] && Words(l, j + |ws[0]|, ws[1..])
  }

  /** `CFG_TEST_RE`. */
  predicate CfgTest(l: string) {
    Words(l, 0, ["#", "[", "cfg", "(", "test", ")", "]"])
  }

  // ------------------------------------------------------------- cfg(test) items

  /** Line numbers, from one. */
  datatype Range = Range(first: nat, last: nat)

  datatype ItemError = ItemIncomplete | AmbiguousAttribute | NoEnd | Unbalanced

  datatype Ranges = Found(ranges: seq<Range>) | Failed(error: ItemError)

  /** The first line from `i` on that is not empty. */
  function NextLine(lines: seq<string>, i: nat): (r: nat)
    requires i <= |lines|
    ensures i <= r <= |lines|
    decreases |lines| - i
  {
    if i < |lines| && SkipSpace(lines[i], 0) == |lines[i]| then NextLine(lines, i + 1) else i
  }

  /** The first line from `i` on that contains `c`. */
  function LineWith(lines: seq<string>, c: char, i: nat): (r: nat)
    requires i <= |lines|
    ensures i <= r <= |lines|
    ensures r < |lines| ==> c in lines[r]
    ensures forall k | i <= k < r :: c !in lines[k]
    decreases |lines| - i
  {
    if i < |lines| && c !in lines[i] then LineWith(lines, c, i + 1) else i
  }

  datatype Braces = Braces(depth: int, open: bool)

  function Count(b: Braces, l: string): Braces
    decreases |l|
  {
    if l == [] then b
    else if l[0] == '{' then Count(Braces(b.depth + 1, true), l[1..])
    else if l[0] == '}' && b.open then Count(b.(depth := b.depth - 1), l[1..])
    else Count(b, l[1..])
  }

  /** The first line from `i` on after which the braces are balanced. */
  function BlockEnd(lines: seq<string>, i: nat, b: Braces): (r: nat)
    requires i <= |lines|
    ensures i <= r <= |lines|
    decreases |lines| - i
  {
    if i == |lines| then i else
      var after := Count(b, lines[i]);
      if after.open && after.depth == 0 then i else BlockEnd(lines, i + 1, after)
  }

  /** The item that the attribute on line `i` (from zero) applies to. */
  function ItemAt(s: Source, i: nat): Ranges
    requires i < |s.lines| == |s.structure|
  {
    var next := NextLine(s.lines, i + 1);
    if next == |s.lines| then Failed(ItemIncomplete)
    else
      var l := s.structure[next];
      if "#" <= l[SkipSpace(l, 0)..] then Failed(AmbiguousAttribute)
      else if '{' !in l then
        var end := LineWith(s.structure, ';', next);
        if end == |s.lines| then Failed(NoEnd) else Found([Range(i + 1, end + 1)])
      else
        var end := BlockEnd(s.structure, next, Braces(0, false));
        if end == |s.lines| then Failed(Unbalanced) else Found([Range(i + 1, end + 1)])
  }

  function CfgTestRanges(s: Source, i: nat): Ranges
    requires i <= |s.lines| == |s.structure|
    decreases |s.lines| - i
  {
    if i == |s.lines| then Found([])
    else if !CfgTest(s.structure[i]) then CfgTestRanges(s, i + 1)
    else match ItemAt(s, i)
      case Failed(e) => Failed(e)
      case Found(item) =>
        match CfgTestRanges(s, i + 1)
        case Failed(e) => Failed(e)
        case Found(rest) => Found(item + rest)
  }

  // ------------------------------------------------------------- what an item is

  /** How many braces are opened more than closed. */
  ghost function Level(t: string): int {
    multiset(t)['{'] as int - multiset(t)['}'] as int
  }

  /** From the first opening brace of line `next` to the end of line `m`. */
  ghost function Body(lines: seq<string>, next: nat, m: nat): string
    requires next <= m < |lines|
  {
    if m == next then lines[next][FindChar(lines[next], '{', 0)..] else Body(lines, next, m - 1) + lines[m]
  }

  /** Line `last` is the first at whose end the braces opened from line `next` on
      are closed again. */
  ghost predicate BlockEndsAt(lines: seq<string>, next: nat, last: nat) {
    next <= last < |lines| && Level(Body(lines, next, last)) == 0 && forall m | next <= m < last :: Level(Body(lines, next, m)) != 0
  }

  ghost predicate StatementEndsAt(lines: seq<string>, next: nat, last: nat) {
    next <= last < |lines| && ';' in lines[last] && forall m | next <= m < last :: ';' !in lines[m]
  }

  /** The item of the attribute on the first line of `r` starts on line `next`
      (from zero), the first that is not blank, and ends on the last line of `r`:
      where its braces are closed if its first line opens one, at the first
      semicolon otherwise. */
  ghost predicate IsItem(s: Source, r: Range, next: nat)
    requires |s.lines| == |s.structure|
  {
    && 0 < r.first <= next < |s.lines| && r.last > 0
    && !M.Empty(s.lines[next]) && (forall k | r.first <= k < next :: M.Empty(s.lines[k]))
    && if '{' in s.structure[next] then BlockEndsAt(s.structure, next, r.last - 1) else StatementEndsAt(s.structure, next, r.last - 1)
  }

  lemma {:induction false} CountIsLevel(b: Braces, l: string)
    requires b.open
    ensures Count(b, l) == Braces(b.depth + Level(l), true)
    decreases |l|
  {
    if l != [] {
      assert l == [l[0]] + l[1..];
      CountIsLevel(if l[0] == '{' then Braces(b.depth + 1, true) else if l[0] == '}' then b.(depth := b.depth - 1) else b, l[1..]);
    }
  }

  lemma {:induction false} FirstLineCount(l: string)
    requires '{' in l
    ensures Count(Braces(0, false), l) == Braces(Level(l[FindChar(l, '{', 0)..]), true)
    decreases |l|
  {
    if l[0] == '{' {
      assert l == [l[0]] + l[1..];
      CountIsLevel(Braces(1, true), l[1..]);
    } else {
      assert l == [l[0]] + l[1..];
      FindLater(l, '{', 0);
      FirstLineCount(l[1..]);
    }
  }

  lemma {:induction false} FindLater(l: string, c: char, i: nat)
    requires i < |l|
    ensures FindChar(l, c, i + 1) == 1 + FindChar(l[1..], c, i)
    ensures l[FindChar(l, c, i + 1)..] == l[1..][FindChar(l[1..], c, i)..]
    decreases |l| - i
  {
    if i + 1 < |l| && l[i+1] != c {
      FindLater(l, c, i + 1);
    }
  }

  lemma LevelOfBoth(a: string, b: string)
    ensures Level(a + b) == Level(a) + Level(b)
  {
  }

  lemma {:induction false} BlockEndFrom(lines: seq<string>, next: nat, i: nat)
    requires next < i <= |lines|
    ensures
      var end := BlockEnd(lines, i, Braces(Level(Body(lines, next, i - 1)), true));
      && (end < |lines| ==> Level(Body(lines, next, end)) == 0)
      && forall m | i <= m < end :: Level(Body(lines, next, m)) != 0
    decreases |lines| - i
  {
    hide Level, Body, Count;
    if i < |lines| {
      LevelAfter(lines, next, i);
      BlockEndFrom(lines, next, i + 1);
    }
  }

  lemma LevelAfter(lines: seq<string>, next: nat, i: nat)
    requires next < i < |lines|
    ensures Count(Braces(Level(Body(lines, next, i - 1)), true), lines[i]) == Braces(Level(Body(lines, next, i)), true)
  {
    hide Level, Count;
    LevelOfBoth(Body(lines, next, i - 1), lines[i]);
    CountIsLevel(Braces(Level(Body(lines, next, i - 1)), true), lines[i]);
  }

  lemma BlockEndMeans(lines: seq<string>, next: nat)
    requires next < |lines| && '{' in lines[next]
    ensures
      var end := BlockEnd(lines, next, Braces(0, false));
      && (end < |lines| ==> BlockEndsAt(lines, next, end))
      && (end == |lines| ==> forall m | next <= m < end :: Level(Body(lines, next, m)) != 0)
  {
    hide Level, Count;
    FirstLineCount(lines[next]);
    BlockEndFrom(lines, next, next + 1);
  }

  lemma {:induction false} SkipSpaceMeans(l: string, i: nat)
    requires i <= |l|
    ensures SkipSpace(l, i) == |l| <==> forall k | i <= k < |l| :: M.Space(l[k])
    decreases |l| - i
  {
    if i < |l| && M.Space(l[i]) {
      SkipSpaceMeans(l, i + 1);
    }
  }

  lemma {:induction false} NextLineMeans(lines: seq<string>, i: nat)
    requires i <= |lines|
    ensures
      var next := NextLine(lines, i);
      (forall k | i <= k < next :: M.Empty(lines[k])) && (next < |lines| ==> !M.Empty(lines[next]))
    decreases |lines| - i
  {
    hide SkipSpace, M.Space;
    if i < |lines| {
      SkipSpaceMeans(lines[i], 0);
      if M.Empty(lines[i]) {
        NextLineMeans(lines, i + 1);
      }
    }
  }

  lemma ItemMeans(s: Source, i: nat)
    requires i < |s.lines| == |s.structure| && ItemAt(s, i).Found?
    ensures
      var item := ItemAt(s, i).ranges;
      |item| == 1 && item[0].first == i + 1 && IsItem(s, item[0], NextLine(s.lines, i + 1))
  {
    hide SkipSpace, BlockEnd, LineWith, NextLine, BlockEndsAt, M.Empty;
    NextLineMeans(s.lines, i + 1);
    var next := NextLine(s.lines, i + 1);
    if '{' in s.structure[next] {
      BlockEndMeans(s.structure, next);
    }
  }

  /** Every range is the item of a `cfg(test)` attribute, from the attribute on. */
  lemma {:induction false} RangesAreItems(s: Source, i: nat, r: Range)
    requires i <= |s.lines| == |s.structure| && CfgTestRanges(s, i).Found? && r in CfgTestRanges(s, i).ranges
    ensures i < r.first < r.last <= |s.lines| && CfgTest(s.structure[r.first-1])
    ensures exists next :: IsItem(s, r, next)
    decreases |s.lines| - i
  {
    hide CfgTest, ItemAt, IsItem;
    if CfgTest(s.structure[i]) && r in ItemAt(s, i).ranges {
      ItemMeans(s, i);
      ItemIsInside(s, r, NextLine(s.lines, i + 1));
    } else {
      RangesAreItems(s, i + 1, r);
    }
  }

  lemma ItemIsInside(s: Source, r: Range, next: nat)
    requires |s.lines| == |s.structure| && IsItem(s, r, next)
    ensures r.first < r.last <= |s.lines|
  {
    hide Level, Body, M.Empty;
  }

  /** Every `cfg(test)` attribute has its range. */
  lemma {:induction false} AttributesHaveRanges(s: Source, i: nat, k: nat)
    requires i <= k < |s.lines| == |s.structure| && CfgTestRanges(s, i).Found? && CfgTest(s.structure[k])
    ensures exists r :: r in CfgTestRanges(s, i).ranges && r.first == k + 1
    decreases k - i
  {
    hide CfgTest, ItemAt;
    if k == i {
      ItemMeans(s, i);
      assert ItemAt(s, i).ranges[0] in CfgTestRanges(s, i).ranges;
    } else {
      AttributesHaveRanges(s, i + 1, k);
    }
  }

  /** The attribute on line `i` (from zero) has an item: a line behind it that is not
      blank, is no attribute itself, and ends. */
  ghost predicate HasItem(s: Source, i: nat)
    requires |s.lines| == |s.structure|
  {
    exists next :: ItemStarts(s, i, next) && ItemEnds(s.structure, next)
  }

  ghost predicate ItemStarts(s: Source, i: nat, next: nat)
    requires |s.lines| == |s.structure|
  {
    && i < next < |s.lines| && !M.Empty(s.lines[next]) && (forall k | i < k < next :: M.Empty(s.lines[k]))
    && !Attribute(s.structure[next])
  }

  /** Its first character that is no space is a `#`. */
  ghost predicate Attribute(l: string) {
    exists k :: 0 <= k < |l| && l[k] == '#' && forall j | 0 <= j < k :: M.Space(l[j])
  }

  ghost predicate ItemEnds(lines: seq<string>, next: nat)
    requires next < |lines|
  {
    if '{' in lines[next] then exists last :: BlockEndsAt(lines, next, last) else exists last :: StatementEndsAt(lines, next, last)
  }

  lemma {:induction false} SkipsSpaces(l: string, i: nat)
    requires i <= |l|
    ensures forall k | i <= k < SkipSpace(l, i) :: M.Space(l[k])
    ensures SkipSpace(l, i) < |l| ==> !M.Space(l[SkipSpace(l, i)])
    decreases |l| - i
  {
    if i < |l| && M.Space(l[i]) {
      SkipsSpaces(l, i + 1);
    }
  }

  lemma AttributeMeans(l: string)
    ensures "#" <= l[SkipSpace(l, 0)..] <==> Attribute(l)
  {
    hide SkipSpace;
    SkipsSpaces(l, 0);
    var j := SkipSpace(l, 0);
    assert !M.Space('#');
    hide M.Space;
    if j < |l| {
      assert "#" <= l[j..] <==> l[j] == '#';
    }
  }

  lemma BlockEndFound(lines: seq<string>, next: nat)
    requires next < |lines| && '{' in lines[next]
    ensures BlockEnd(lines, next, Braces(0, false)) < |lines| <==> exists last :: BlockEndsAt(lines, next, last)
  {
    hide Level, Body, BlockEnd;
    BlockEndMeans(lines, next);
  }

  lemma ItemFound(s: Source, i: nat)
    requires i < |s.lines| == |s.structure|
    ensures ItemAt(s, i).Found? <==> HasItem(s, i)
  {
    hide SkipSpace, BlockEnd, NextLine, BlockEndsAt, Attribute, M.Empty;
    NextLineMeans(s.lines, i + 1);
    var next := NextLine(s.lines, i + 1);
    if next < |s.lines| {
      AttributeMeans(s.structure[next]);
      if '{' in s.structure[next] {
        BlockEndFound(s.structure, next);
      } else if exists last :: StatementEndsAt(s.structure, next, last) {
        var last :| StatementEndsAt(s.structure, next, last);
      } else if LineWith(s.structure, ';', next) < |s.structure| {
        assert StatementEndsAt(s.structure, next, LineWith(s.structure, ';', next));
      }
      if HasItem(s, i) {
        var n :| ItemStarts(s, i, n) && ItemEnds(s.structure, n);
        assert n == next;
      }
      if ItemStarts(s, i, next) && ItemEnds(s.structure, next) {
        assert HasItem(s, i);
      }
    }
  }

  /** The ranges are found exactly when every `cfg(test)` attribute has an item. */
  lemma {:induction false} RangesFoundExactlyWhen(s: Source, i: nat)
    requires i <= |s.lines| == |s.structure|
    ensures CfgTestRanges(s, i).Found? <==> forall k | i <= k < |s.lines| && CfgTest(s.structure[k]) :: HasItem(s, k)
    decreases |s.lines| - i
  {
    hide CfgTest, ItemAt, HasItem;
    if i < |s.lines| {
      RangesFoundExactlyWhen(s, i + 1);
      ItemFound(s, i);
    }
  }

  /** The loop over the structural lines. */
  method FindCfgTestRanges(s: Source) returns (r: Ranges)
    requires |s.lines| == |s.structure|
    ensures r == CfgTestRanges(s, 0)
  {
    hide CfgTest, ItemAt;
    var ranges: seq<Range> := [];
    for i := 0 to |s.lines|
      invariant CfgTestRanges(s, 0) == Joined(ranges, CfgTestRanges(s, i))
    {
      if CfgTest(s.structure[i]) {
        var item := ItemAt(s, i);
        if item.Failed? {
          return item;
        }
        JoinTwice(ranges, item.ranges, CfgTestRanges(s, i + 1));
        ranges := ranges + item.ranges;
      }
    }
    return Found(ranges);
  }

  function Joined(front: seq<Range>, rest: Ranges): Ranges {
    if rest.Failed? then rest else Found(front + rest.ranges)
  }

  lemma JoinTwice(a: seq<Range>, b: seq<Range>, rest: Ranges)
    ensures Joined(a, Joined(b, rest)) == Joined(a + b, rest)
  {
    if rest.Found? {
      assert a + (b + rest.ranges) == (a + b) + rest.ranges;
    }
  }

  predicate InRanges(n: nat, ranges: seq<Range>) {
    exists i :: 0 <= i < |ranges| && ranges[i].first <= n <= ranges[i].last
  }

  // ------------------------------------------------------------- one file

  datatype Reason =
    | PatchUnavailable | PatchRejected | NothingChanged | Truncated | BoundaryChanged
    | SourceUnavailable | BraceChanged | DeletesOutside | AddsOutside

  datatype Verdict = Confined | Exposed(reason: Reason)

  /** What is known of one changed file; `boundary` stands for `CFG_BOUNDARY_RE`. */
  datatype File = File(patch: Option<Patch>, additions: nat, deletions: nat, changes: nat,
                       base: Option<string>, head: Option<string>)

  predicate AddedLine(l: string) {
    "+" <= l && !("+++" <= l)
  }

  predicate DeletedLine(l: string) {
    "-" <= l && !("---" <= l)
  }

  function CountIf(lines: seq<string>, p: string -> bool): nat {
    if lines == [] then 0 else (if p(lines[0]) then 1 else 0) + CountIf(lines[1..], p)
  }

  /** The changed lines stand in the source under their numbers. */
  predicate Stand(changes: Changes, lines: seq<string>) {
    forall i | 0 <= i < |changes| :: 1 <= changes[i].0 <= |lines| && lines[changes[i].0-1] == changes[i].1
  }

  predicate TouchesBrace(changes: Changes, structure: seq<string>) {
    exists i :: 0 <= i < |changes| && 1 <= changes[i].0 <= |structure|
      && ('{' in structure[changes[i].0-1] || '}' in structure[changes[i].0-1])
  }

  predicate AllInRanges(changes: Changes, ranges: seq<Range>) {
    forall i | 0 <= i < |changes| :: InRanges(changes[i].0, ranges)
  }

  function Judge(word: char -> bool, boundary: string -> bool, f: File): Verdict {
    if f.patch.None? then Exposed(PatchUnavailable)
    else match ChangedLines(f.patch.value)
      case Err(_) => Exposed(PatchRejected)
      case Ok((removed, added)) =>
        var lines := f.patch.value.lines;
        var additions, deletions := CountIf(lines, AddedLine), CountIf(lines, DeletedLine);
        if removed == [] && added == [] then Exposed(NothingChanged)
        else if additions != f.additions || deletions != f.deletions || f.changes != additions + deletions then Exposed(Truncated)
        else if exists i :: 0 <= i < |lines| && (AddedLine(lines[i]) || DeletedLine(lines[i])) && boundary(lines[i][1..]) then Exposed(BoundaryChanged)
        else JudgeSources(word, f, removed, added)
  }

  function JudgeSources(word: char -> bool, f: File, removed: Changes, added: Changes): Verdict {
    if f.base.None? || f.head.None? || Read(word, f.base.value).None? || Read(word, f.head.value).None? then Exposed(SourceUnavailable)
    else
      var base, head := Read(word, f.base.value).value, Read(word, f.head.value).value;
      if !Stand(removed, base.lines) || !Stand(added, head.lines) then Exposed(SourceUnavailable)
      else if TouchesBrace(removed, base.structure) || TouchesBrace(added, head.structure) then Exposed(BraceChanged)
      else match (CfgTestRanges(base, 0), CfgTestRanges(head, 0))
        case (Found(before), Found(after)) =>
          if !AllInRanges(removed, before) then Exposed(DeletesOutside)
          else if !AllInRanges(added, after) then Exposed(AddsOutside)
          else Confined
        case _ => Exposed(SourceUnavailable)
  }

  // ------------------------------------------------------------- the real diff

  function OldText(edits: seq<Edit>): seq<string> {
    if edits == [] then [] else (if edits[0].Context? || edits[0].Delete? then [edits[0].text] else []) + OldText(edits[1..])
  }

  function NewText(edits: seq<Edit>): seq<string> {
    if edits == [] then [] else (if edits[0].Context? || edits[0].Add? then [edits[0].text] else []) + NewText(edits[1..])
  }

  function KeptText(edits: seq<Edit>): seq<string> {
    if edits == [] then [] else (if edits[0].Context? then [edits[0].text] else []) + KeptText(edits[1..])
  }

  function Contexts(lines: seq<string>): (r: seq<Edit>)
    ensures |r| == |lines| && forall i | 0 <= i < |r| :: r[i] == Context(lines[i])
  {
    seq(|lines|, i requires 0 <= i < |lines| => Context(lines[i]))
  }

  /** The whole edit script: the hunks with the unchanged lines between them. */
  function Script(gaps: seq<seq<string>>, hunks: seq<Hunk>): seq<Edit>
    requires |gaps| == |hunks| + 1
    decreases |hunks|
  {
    Contexts(gaps[0]) + if hunks == [] then [] else hunks[0].edits + Script(gaps[1..], hunks[1..])
  }

  /** Each hunk is numbered by where it stands, `o` and `n` being the numbers of
      the first lines of the gap before it; the start of an empty side means
      nothing. */
  ghost predicate Placed(gaps: seq<seq<string>>, hunks: seq<Hunk>, o: nat, n: nat)
    requires |gaps| == |hunks| + 1
    decreases |hunks|
  {
    hunks != [] ==>
      && (OldCount(hunks[0].edits) > 0 ==> hunks[0].oldStart == o + |gaps[0]|)
      && (NewCount(hunks[0].edits) > 0 ==> hunks[0].newStart == n + |gaps[0]|)
      && Placed(gaps[1..], hunks[1..], o + |gaps[0]| + OldCount(hunks[0].edits), n + |gaps[0]| + NewCount(hunks[0].edits))
  }

  /** `patch` is the diff from `base` to `head`. */
  ghost predicate RealDiff(base: seq<string>, head: seq<string>, patch: Patch, gaps: seq<seq<string>>, hunks: seq<Hunk>) {
    && |gaps| == |hunks| + 1
    && base == OldText(Script(gaps, hunks)) && head == NewText(Script(gaps, hunks))
    && Placed(gaps, hunks, 1, 1) && patch.lines == Print(hunks)
  }

  lemma {:induction false} CountsSplice(a: seq<Edit>, b: seq<Edit>)
    ensures OldCount(a + b) == OldCount(a) + OldCount(b) && NewCount(a + b) == NewCount(a) + NewCount(b)
  {
    if a == [] {
      assert a + b == b;
    } else {
      assert (a + b)[1..] == a[1..] + b;
      CountsSplice(a[1..], b);
    }
  }

  lemma {:induction false} OldSplice(a: seq<Edit>, b: seq<Edit>, o: nat)
    ensures OldChanges(a + b, o) == OldChanges(a, o) + OldChanges(b, o + OldCount(a))
  {
    if a == [] {
      assert a + b == b;
    } else {
      assert (a + b)[1..] == a[1..] + b;
      OldSplice(a[1..], b, if a[0].Context? || a[0].Delete? then o + 1 else o);
    }
  }

  lemma {:induction false} NewSplice(a: seq<Edit>, b: seq<Edit>, n: nat)
    ensures NewChanges(a + b, n) == NewChanges(a, n) + NewChanges(b, n + NewCount(a))
  {
    if a == [] {
      assert a + b == b;
    } else {
      assert (a + b)[1..] == a[1..] + b;
      NewSplice(a[1..], b, if a[0].Context? || a[0].Add? then n + 1 else n);
    }
  }

  lemma Splice(a: seq<Edit>, b: seq<Edit>, o: nat, n: nat)
    ensures OldCount(a + b) == OldCount(a) + OldCount(b) && NewCount(a + b) == NewCount(a) + NewCount(b)
    ensures OldChanges(a + b, o) == OldChanges(a, o) + OldChanges(b, o + OldCount(a))
    ensures NewChanges(a + b, n) == NewChanges(a, n) + NewChanges(b, n + NewCount(a))
  {
    hide OldCount, NewCount, OldChanges, NewChanges;
    CountsSplice(a, b);
    OldSplice(a, b, o);
    NewSplice(a, b, n);
  }

  lemma {:induction false} ContextsChangeNothing(lines: seq<string>, o: nat, n: nat)
    ensures OldCount(Contexts(lines)) == |lines| == NewCount(Contexts(lines))
    ensures OldChanges(Contexts(lines), o) == [] == NewChanges(Contexts(lines), n)
  {
    if lines != [] {
      assert Contexts(lines)[1..] == Contexts(lines[1..]);
      ContextsChangeNothing(lines[1..], o + 1, n + 1);
    }
  }

  lemma {:induction false} NothingCounted(edits: seq<Edit>, o: nat, n: nat)
    ensures OldCount(edits) == 0 ==> OldChanges(edits, o) == []
    ensures NewCount(edits) == 0 ==> NewChanges(edits, n) == []
  {
    if edits != [] {
      NothingCounted(edits[1..], if edits[0].Context? || edits[0].Delete? then o + 1 else o, if edits[0].Context? || edits[0].Add? then n + 1 else n);
    }
  }

  /** The changes of well-placed hunks are those of the whole script. */
  lemma {:induction false} HunksTellAll(gaps: seq<seq<string>>, hunks: seq<Hunk>, o: nat, n: nat)
    requires |gaps| == |hunks| + 1 && Placed(gaps, hunks, o, n)
    ensures OldChanges(Script(gaps, hunks), o) == AllOld(hunks) && NewChanges(Script(gaps, hunks), n) == AllNew(hunks)
    decreases |hunks|
  {
    hide OldChanges, NewChanges, OldCount, NewCount;
    var gap := Contexts(gaps[0]);
    ContextsChangeNothing(gaps[0], o, n);
    if hunks == [] {
      assert gap + [] == gap;
    } else {
      var h := hunks[0];
      var rest := Script(gaps[1..], hunks[1..]);
      var o', n' := o + |gaps[0]|, n + |gaps[0]|;
      Splice(gap, h.edits + rest, o, n);
      Splice(h.edits, rest, o', n');
      NothingCounted(h.edits, o', n');
      NothingCounted(h.edits, h.oldStart, h.newStart);
      HunksTellAll(gaps[1..], hunks[1..], o' + OldCount(h.edits), n' + NewCount(h.edits));
      assert [] + (OldChanges(h.edits, o') + AllOld(hunks[1..])) == AllOld(hunks);
      assert [] + (NewChanges(h.edits, n') + AllNew(hunks[1..])) == AllNew(hunks);
    }
  }

  // ------------------------------------------------------------- what survives

  function Numbers(changes: Changes): set<nat> {
    set i | 0 <= i < |changes| :: changes[i].0
  }

  /** `lines`, numbered from `first`, without the lines whose number is in `gone`. */
  ghost function Without(lines: seq<string>, first: nat, gone: iset<nat>): seq<string> {
    if lines == [] then [] else (if first in gone then [] else [lines[0]]) + Without(lines[1..], first + 1, gone)
  }

  ghost function Gone(changes: Changes): iset<nat> {
    iset n | n in Numbers(changes)
  }

  lemma {:induction false} LaterNumbers(edits: seq<Edit>, o: nat, n: nat)
    ensures forall c <- OldChanges(edits, o) :: o <= c.0
    ensures forall c <- NewChanges(edits, n) :: n <= c.0
  {
    if edits != [] {
      LaterNumbers(edits[1..], if edits[0].Context? || edits[0].Delete? then o + 1 else o, if edits[0].Context? || edits[0].Add? then n + 1 else n);
    }
  }

  lemma {:induction false} WithoutDepends(lines: seq<string>, first: nat, a: iset<nat>, b: iset<nat>)
    requires forall k | first <= k :: k in a <==> k in b
    ensures Without(lines, first, a) == Without(lines, first, b)
  {
    if lines != [] {
      WithoutDepends(lines[1..], first + 1, a, b);
    }
  }

  /** One changed line more. */
  lemma GoneWith(c: (nat, string), rest: Changes)
    ensures c.0 in Gone([c] + rest) && forall k | k != c.0 :: k in Gone([c] + rest) <==> k in Gone(rest)
  {
    hide Numbers;
    forall k ensures k in Gone([c] + rest) <==> k == c.0 || k in Gone(rest) {
      FrontNumber(c, rest, k);
    }
  }

  lemma NotYetGone(changes: Changes, o: nat)
    requires forall c <- changes :: o < c.0
    ensures o !in Gone(changes)
  {
  }

  /** The first line goes, and the rest as it would without it. */
  lemma FirstGoes(lines: seq<string>, o: nat, c: (nat, string), rest: Changes)
    requires lines != [] && c.0 == o
    ensures Without(lines, o, Gone([c] + rest)) == Without(lines[1..], o + 1, Gone(rest))
  {
    hide Gone;
    GoneWith(c, rest);
    WithoutDepends(lines[1..], o + 1, Gone([c] + rest), Gone(rest));
  }

  lemma FirstStays(lines: seq<string>, o: nat, rest: Changes)
    requires lines != [] && forall c <- rest :: o < c.0
    ensures Without(lines, o, Gone(rest)) == [lines[0]] + Without(lines[1..], o + 1, Gone(rest))
  {
    hide Gone;
    NotYetGone(rest, o);
  }

  lemma {:induction false} OldKept(edits: seq<Edit>, o: nat)
    ensures Without(OldText(edits), o, Gone(OldChanges(edits, o))) == KeptText(edits)
    decreases |edits|
  {
    hide Gone, Without;
    if edits == [] {
      assert Without(OldText(edits), o, Gone(OldChanges(edits, o))) == [] by { NothingLeft(o, Gone([])); }
    } else {
      var rest := edits[1..];
      match edits[0]
      case Context(t) =>
        LaterNumbers(rest, o + 1, o + 1);
        OldKept(rest, o + 1);
        assert OldText(edits) == [t] + OldText(rest);
        FirstStays(OldText(edits), o, OldChanges(rest, o + 1));
      case Delete(t) =>
        OldKept(rest, o + 1);
        assert OldText(edits) == [t] + OldText(rest);
        FirstGoes(OldText(edits), o, (o, t), OldChanges(rest, o + 1));
      case _ =>
        OldKept(rest, o);
        assert [] + OldText(rest) == OldText(rest) && [] + KeptText(rest) == KeptText(rest);
    }
  }

  lemma {:induction false} NewKept(edits: seq<Edit>, n: nat)
    ensures Without(NewText(edits), n, Gone(NewChanges(edits, n))) == KeptText(edits)
  {
    hide Gone, Without;
    if edits == [] {
      assert Without(NewText(edits), n, Gone(NewChanges(edits, n))) == [] by { NothingLeft(n, Gone([])); }
    } else {
      var rest := edits[1..];
      match edits[0]
      case Context(t) =>
        LaterNumbers(rest, n + 1, n + 1);
        NewKept(rest, n + 1);
        assert NewText(edits) == [t] + NewText(rest);
        FirstStays(NewText(edits), n, NewChanges(rest, n + 1));
      case Add(t) =>
        NewKept(rest, n + 1);
        assert NewText(edits) == [t] + NewText(rest);
        FirstGoes(NewText(edits), n, (n, t), NewChanges(rest, n + 1));
      case _ =>
        NewKept(rest, n);
        assert [] + NewText(rest) == NewText(rest) && [] + KeptText(rest) == KeptText(rest);
    }
  }

  lemma NothingLeft(o: nat, gone: iset<nat>)
    ensures Without([], o, gone) == []
  {
  }

  lemma FrontNumber(c: (nat, string), rest: Changes, k: nat)
    ensures k in Numbers([c] + rest) <==> k == c.0 || k in Numbers(rest)
  {
    var all := [c] + rest;
    if k in Numbers(rest) {
      var i :| 0 <= i < |rest| && rest[i].0 == k;
      assert all[i+1].0 == k;
    }
    assert all[0].0 == c.0;
    if k in Numbers(all) && k != c.0 {
      var i :| 0 <= i < |all| && all[i].0 == k;
      assert rest[i-1].0 == k;
    }
  }

  // ------------------------------------------------------------- subsequences

  /** The lines of `a` occur in `b`, in order. */
  ghost predicate Subsequence(a: seq<string>, b: seq<string>)
    decreases |b|
  {
    a == [] || (b != [] && (Subsequence(a, b[1..]) || (a[0] == b[0] && Subsequence(a[1..], b[1..]))))
  }

  lemma {:induction false} FewerLines(lines: seq<string>, first: nat, a: iset<nat>, b: iset<nat>)
    requires b <= a
    ensures Subsequence(Without(lines, first, a), Without(lines, first, b))
  {
    if lines != [] {
      FewerLines(lines[1..], first + 1, a, b);
      var x, y := Without(lines[1..], first + 1, a), Without(lines[1..], first + 1, b);
      assert ([lines[0]] + x)[1..] == x && ([lines[0]] + y)[1..] == y;
      assert [] + x == x && [] + y == y;
    }
  }

  lemma {:induction false} WithoutNone(lines: seq<string>, first: nat)
    ensures Without(lines, first, iset{}) == lines
  {
    if lines != [] {
      WithoutNone(lines[1..], first + 1);
    }
  }

  lemma {:induction false} SubsequenceChains(a: seq<string>, b: seq<string>, c: seq<string>)
    requires Subsequence(a, b) && Subsequence(b, c)
    ensures Subsequence(a, c)
    decreases |b| + |c|
  {
    if a != [] {
      if Subsequence(b, c[1..]) {
        SubsequenceChains(a, b, c[1..]);
      } else if Subsequence(a, b[1..]) {
        SubsequenceChains(a, b[1..], c[1..]);
      } else {
        SubsequenceChains(a[1..], b[1..], c[1..]);
      }
    }
  }

  /** The lines outside the ranges. */
  ghost function Outside(lines: seq<string>, ranges: seq<Range>): seq<string> {
    Without(lines, 1, iset n: nat | InRanges(n, ranges))
  }

  /** The lines of base outside its `cfg(test)` items are in head, in order, and
      the lines of head outside its items are in base. */
  ghost predicate RestStays(word: char -> bool, base: string, head: string) {
    var past, now := Read(word, base), Read(word, head);
    && past.Some? && now.Some?
    && var before, after := CfgTestRanges(past.value, 0), CfgTestRanges(now.value, 0);
    && before.Found? && after.Found?
    && Subsequence(Outside(Lines.Contents(base), before.ranges), Lines.Contents(head))
    && Subsequence(Outside(Lines.Contents(head), after.ranges), Lines.Contents(base))
  }

  /** When a file is judged confined, and its patch is the diff from base to head,
      then every base line outside the base's `cfg(test)` items is still there in
      head, in order, and every head line outside the head's items was there in
      base, in order: what is deleted and what is added lies inside. */
  lemma ConfinedLeavesTheRest(word: char -> bool, boundary: string -> bool, f: File, gaps: seq<seq<string>>, hunks: seq<Hunk>)
    requires Judge(word, boundary, f).Confined? && f.patch.Some? && f.base.Some? && f.head.Some?
    requires RealDiff(Lines.Contents(f.base.value), Lines.Contents(f.head.value), f.patch.value, gaps, hunks)
    ensures RestStays(word, f.base.value, f.head.value)
  {
    hide CfgTestRanges, Judge, Read, Lines.Contents, AllInRanges, Without, Script, Placed;
    ConfinedMeans(word, boundary, f);
    var base, head := Read(word, f.base.value).value, Read(word, f.head.value).value;
    var before, after := CfgTestRanges(base, 0).ranges, CfgTestRanges(head, 0).ranges;
    var script := Script(gaps, hunks);
    PatchTells(f.patch.value, hunks);
    HunksTellAll(gaps, hunks, 1, 1);
    OldKept(script, 1);
    NewKept(script, 1);
    LeavesTheRest(base.lines, head.lines, OldChanges(script, 1), NewChanges(script, 1), before);
    LeavesTheRest(head.lines, base.lines, NewChanges(script, 1), OldChanges(script, 1), after);
  }

  /** What the verdict rests on, for any patch: every change that it tells is a
      line of its source and lies in a range of its side. */
  lemma ConfinedMeans(word: char -> bool, boundary: string -> bool, f: File)
    requires Judge(word, boundary, f).Confined?
    ensures f.patch.Some? && f.base.Some? && f.head.Some? && ChangedLines(f.patch.value).Ok?
    ensures Read(word, f.base.value).Some? && Read(word, f.head.value).Some?
    ensures
      var base, head := Read(word, f.base.value).value, Read(word, f.head.value).value;
      var (removed, added) := ChangedLines(f.patch.value).value;
      && base.lines == Lines.Contents(f.base.value) && head.lines == Lines.Contents(f.head.value)
      && Stand(removed, base.lines) && Stand(added, head.lines)
      && CfgTestRanges(base, 0).Found? && CfgTestRanges(head, 0).Found?
      && AllInRanges(removed, CfgTestRanges(base, 0).ranges) && AllInRanges(added, CfgTestRanges(head, 0).ranges)
  {
    hide CfgTestRanges, TouchesBrace, Stand, ChangedLines, CountIf, Lines.Contents, AllInRanges, T.Structural;
  }

  lemma PatchTells(patch: Patch, hunks: seq<Hunk>)
    requires patch.lines == Print(hunks) && ChangedLines(patch).Ok?
    ensures ChangedLines(patch) == Ok((AllOld(hunks), AllNew(hunks)))
  {
    assert patch == Patch(Print(hunks), patch.ended);
    assert hunks != [];
    RoundTrip(hunks, patch.ended);
  }

  lemma LeavesTheRest(a: seq<string>, b: seq<string>, removed: Changes, added: Changes, ranges: seq<Range>)
    requires Without(a, 1, Gone(removed)) == Without(b, 1, Gone(added)) && AllInRanges(removed, ranges)
    ensures Subsequence(Outside(a, ranges), b)
  {
    hide InRanges;
    var inside := iset n: nat | InRanges(n, ranges);
    FewerLines(a, 1, inside, Gone(removed));
    FewerLines(b, 1, Gone(added), iset{});
    WithoutNone(b, 1);
    SubsequenceChains(Outside(a, ranges), Without(a, 1, Gone(removed)), b);
  }

  // ------------------------------------------------------------- the pull request

  /** One changed file of the pull request: its path, the path it had before when
      it was renamed or copied, and its status. */
  datatype Item = Item(path: string, others: seq<string>, status: string, file: File)

  /** `high` and `low` stand for the path globs. */
  datatype Policy = Policy(word: char -> bool, boundary: string -> bool, high: string -> bool, low: string -> bool)

  const MAX_SOURCE_FILES := 25

  predicate HighRust(policy: Policy, path: string) {
    |path| >= 3 && path[|path|-3..] == ".rs" && policy.high(path)
  }

  predicate AllLow(policy: Policy, item: Item) {
    policy.low(item.path) && forall i | 0 <= i < |item.others| :: policy.low(item.others[i])
  }

  /** `strict_test_only_proof`: the exception applies when there is a high-risk
      Rust file, not more than 25 of them, each only modified and confined to its
      `cfg(test)` items, and everything else is low-risk. */
  method StrictTestOnlyProof(policy: Policy, files: seq<Item>) returns (proved: bool)
    ensures proved <==>
              && 0 < CountHigh(policy, files) <= MAX_SOURCE_FILES
              && (forall f <- files | HighRust(policy, f.path) :: f.status == "modified" && Judge(policy.word, policy.boundary, f.file).Confined?)
              && (forall f <- files | !HighRust(policy, f.path) :: AllLow(policy, f))
  {
    hide Judge, HighRust, AllLow;
    var high: seq<Item> := [];
    for i := 0 to |files|
      invariant |high| == CountHigh(policy, files[..i])
      invariant forall f :: f in high <==> f in files[..i] && HighRust(policy, f.path)
    {
      assert files[..i+1] == files[..i] + [files[i]];
      CountOneMore(policy, files[..i], files[i]);
      if HighRust(policy, files[i].path) {
        high := high + [files[i]];
      }
    }
    assert files[..|files|] == files;
    if high == [] || |high| > MAX_SOURCE_FILES {
      return false;
    }
    if exists i :: 0 <= i < |high| && high[i].status != "modified" {
      return false;
    }
    for i := 0 to |files|
      invariant forall f <- files[..i] | !HighRust(policy, f.path) :: AllLow(policy, f)
    {
      assert files[..i+1] == files[..i] + [files[i]];
      if !HighRust(policy, files[i].path) && !AllLow(policy, files[i]) {
        return false;
      }
    }
    for i := 0 to |high|
      invariant forall j | 0 <= j < i :: Judge(policy.word, policy.boundary, high[j].file).Confined?
    {
      var verdict := Judge(policy.word, policy.boundary, high[i].file);
      if !verdict.Confined? {
        assert high[i] in high;
        return false;
      }
    }
    assert forall f <- high :: f.status == "modified" && Judge(policy.word, policy.boundary, f.file).Confined?;
    return true;
  }

  function CountHigh(policy: Policy, files: seq<Item>): nat {
    if files == [] then 0 else CountHigh(policy, files[..|files|-1]) + (if HighRust(policy, files[|files|-1].path) then 1 else 0)
  }

  lemma CountOneMore(policy: Policy, files: seq<Item>, f: Item)
    ensures CountHigh(policy, files + [f]) == CountHigh(policy, files) + (if HighRust(policy, f.path) then 1 else 0)
  {
    assert (files + [f])[..|files|] == files;
  }
}
