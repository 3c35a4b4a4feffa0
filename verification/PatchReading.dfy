/** Which patches are accepted, and what they say: every patch is one that can be
    read as hunks, or is rejected. */
module PatchReading {
  import opened Options
  import opened Characters
  import opened UnifiedDiff

  // ------------------------------------------------------------- hunk headers

  predicate AllDigits(s: string) {
    s != "" && forall i | 0 <= i < |s| :: Digit(s[i])
  }

  /** A start and, behind a comma, a count, which is one when it is not given. */
  ghost predicate IsRange(s: string, start: nat, count: nat) {
    exists a, b :: AllDigits(a) && Value(a) == start &&
      ((s == a && count == 1) || (AllDigits(b) && Value(b) == count && s == a + "," + b))
  }

  ghost predicate IsHeader(l: string, h: Header) {
    exists a, b, section :: IsRange(a, h.oldStart, h.oldCount) && IsRange(b, h.newStart, h.newCount)
      && l == "@@ -" + a + " +" + b + " @@" + section
  }

  lemma RangeIsFound(s: string, start: nat, count: nat, rest: string)
    requires IsRange(s, start, count) && rest != "" && rest[0] == ' '
    ensures Range(s + rest) == Some((start, count, rest))
  {
    hide Value;
    var a, b :| AllDigits(a) && Value(a) == start && ((s == a && count == 1) || (AllDigits(b) && Value(b) == count && s == a + "," + b));
    if s == a && count == 1 {
      DigitsOf(a, rest);
    } else {
      var tail := b + rest;
      assert s + rest == a + ("," + tail);
      DigitsOf(a, "," + tail);
      DigitsOf(b, rest);
      assert ("," + tail)[1..] == tail;
    }
  }

  lemma RangeIsShaped(s: string) returns (text: string)
    requires Range(s).Some?
    ensures IsRange(text, Range(s).value.0, Range(s).value.1) && s == text + Range(s).value.2
  {
    hide Value;
    var (a, rest) := Digits(s);
    if rest == [] || rest[0] != ',' {
      text := a;
    } else {
      var (b, tail) := Digits(rest[1..]);
      text := if b == [] then a else a + "," + b;
      assert rest == "," + rest[1..];
      if b != [] {
        assert AllDigits(b) && s == a + "," + b + tail;
      }
    }
    assert AllDigits(a);
  }

  /** The header of a hunk is two ranges between their marks, and any text behind. */
  lemma HeaderMeans(l: string, h: Header)
    ensures HeaderOf(l) == Some(h) <==> IsHeader(l, h)
  {
    hide Range, IsRange;
    if IsHeader(l, h) {
      var a, b, section :| IsRange(a, h.oldStart, h.oldCount) && IsRange(b, h.newStart, h.newCount)
        && l == "@@ -" + a + " +" + b + " @@" + section;
      HeaderIsFound(a, b, section, h);
    }
    if HeaderOf(l) == Some(h) {
      HeaderIsShaped(l);
    }
  }

  lemma HeaderIsFound(a: string, b: string, section: string, h: Header)
    requires IsRange(a, h.oldStart, h.oldCount) && IsRange(b, h.newStart, h.newCount)
    ensures HeaderOf("@@ -" + a + " +" + b + " @@" + section) == Some(h)
  {
    hide Range, After, IsRange;
    var d := " @@" + section;
    var c := b + d;
    var e := " +" + c;
    assert "@@ -" + a + " +" + b + " @@" + section == "@@ -" + (a + e);
    AfterPrefix("@@ -", a + e);
    RangeIsFound(a, h.oldStart, h.oldCount, e);
    AfterPrefix(" +", c);
    RangeIsFound(b, h.newStart, h.newCount, d);
    AfterPrefix(" @@", section);
  }

  lemma HeaderIsShaped(l: string)
    requires HeaderOf(l).Some?
    ensures IsHeader(l, HeaderOf(l).value)
  {
    hide Range, IsRange;
    var s := After(l, "@@ -").value;
    var a := RangeIsShaped(s);
    var e := Range(s).value.2;
    var c := After(e, " +").value;
    var b := RangeIsShaped(c);
    var d := Range(c).value.2;
    var section := After(d, " @@").value;
    assert l == "@@ -" + a + " +" + b + " @@" + section;
  }

  // ------------------------------------------------------------- patches

  /** The line below a header, read as an edit. A line that looks like the header
      of a file, or starts with a backslash, edits nothing. */
  ghost predicate Reads(l: string, e: Edit) {
    && HeaderOf(l).None?
    && match e
       case Context(t) => l == " " + t
       case Delete(t) => l == "-" + t && !("-- " <= t)
       case Add(t) => l == "+" + t && !("++ " <= t)
       case NoNewline => Skipped(l)
  }

  ghost predicate ReadsAll(lines: seq<string>, edits: seq<Edit>) {
    |lines| == |edits| && forall i | 0 <= i < |edits| :: Reads(lines[i], edits[i])
  }

  ghost predicate HunkReads(lines: seq<string>, h: Hunk) {
    && lines != [] && HeaderOf(lines[0]) == Some(Header(h.oldStart, OldCount(h.edits), h.newStart, NewCount(h.edits)))
    && ReadsAll(lines[1..], h.edits)
  }

  /** The lines are those of the hunks, each of which shows the old and new lines
      that its header declares. */
  ghost predicate HunksRead(lines: seq<string>, hunks: seq<Hunk>)
    decreases |hunks|
  {
    if hunks == [] then lines == [] else
      var n := 1 + |hunks[0].edits|;
      n <= |lines| && HunkReads(lines[..n], hunks[0]) && HunksRead(lines[n..], hunks[1..])
  }

  /** A patch: lines that are no header, and then at least one hunk. */
  ghost predicate PatchReads(lines: seq<string>, j: nat, hunks: seq<Hunk>) {
    j <= |lines| && hunks != [] && (forall i | 0 <= i < j :: HeaderOf(lines[i]).None?) && HunksRead(lines[j..], hunks)
  }

  // ------------------------------------------------------------- what is read is accepted

  lemma MarkThen(l: string)
    requires l != ""
    ensures l[0] == '+' ==> ("+++ " <= l <==> "++ " <= l[1..]) && l == "+" + l[1..]
    ensures l[0] == '-' ==> ("--- " <= l <==> "-- " <= l[1..]) && l == "-" + l[1..]
  {
    assert "+++ " == "+" + "++ " && "--- " == "-" + "-- ";
    if l[0] == '+' {
      assert l == "+" + l[1..];
      PrefixUnder("+", "++ ", l[1..]);
    }
    if l[0] == '-' {
      assert l == "-" + l[1..];
      PrefixUnder("-", "-- ", l[1..]);
    }
  }

  lemma FeedRead(p: Reader, l: string, e: Edit)
    requires p.inHunk && Reads(l, e) && (e.Context? || e.Delete? ==> p.oldLeft > 0) && (e.Context? || e.Add? ==> p.newLeft > 0)
    ensures Feed(p, l) == Ok(AdvanceOne(p, e)) && !Hidden(e)
  {
    hide HeaderOf;
    assert !e.NoNewline? ==> l[1..] == e.text;
    MarkThen(l);
    match e
    case Context(t) => assert l[0] == ' ';
    case Delete(t) => assert l[0] == '-';
    case Add(t) => assert l[0] == '+';
    case _ =>
  }

  lemma {:induction false} FeedReadAll(p: Reader, lines: seq<string>, edits: seq<Edit>, rest: seq<string>)
    requires p.inHunk && HasRoom(p, edits) && ReadsAll(lines, edits)
    ensures FeedAll(p, lines + rest) == FeedAll(Advance(p, edits), rest)
    ensures forall j | 0 <= j < |edits| :: !Hidden(edits[j])
    decreases |edits|
  {
    hide Feed, Hidden, Reads;
    if edits == [] {
      assert lines + rest == rest;
    } else {
      assert (lines + rest)[1..] == lines[1..] + rest;
      FeedRead(p, lines[0], edits[0]);
      FeedReadAll(AdvanceOne(p, edits[0]), lines[1..], edits[1..], rest);
      assert forall j | 0 < j < |edits| :: edits[j] == edits[1..][j-1];
    }
  }

  lemma {:induction false} FeedHunksRead(p: Reader, lines: seq<string>, hunks: seq<Hunk>)
    requires p.oldLeft == 0 && p.newLeft == 0 && (hunks == [] ==> p.inHunk) && HunksRead(lines, hunks)
    ensures
      var r := FeedAll(p, lines);
      r.Ok? && Finish(r.value) == Ok((p.removed + AllOld(hunks), p.added + AllNew(hunks)))
    decreases |hunks|
  {
    hide HeaderOf, Hidden, OldCount, NewCount, OldChanges, NewChanges, Advance, ReadsAll;
    if hunks == [] {
      assert p.removed + [] == p.removed && p.added + [] == p.added;
    } else {
      var h := hunks[0];
      var n := 1 + |h.edits|;
      var body, rest := lines[..n][1..], lines[n..];
      var entered := Feed(p, lines[0]).value;
      assert lines[1..] == body + rest;
      FeedReadAll(entered, body, h.edits, rest);
      AdvanceLeft(entered, h.edits);
      FeedHunksRead(Advance(entered, h.edits), rest, hunks[1..]);
      assert (p.removed + OldChanges(h.edits, h.oldStart)) + AllOld(hunks[1..]) == p.removed + AllOld(hunks);
      assert (p.added + NewChanges(h.edits, h.newStart)) + AllNew(hunks[1..]) == p.added + AllNew(hunks);
    }
  }

  lemma {:induction false} NothingBefore(lines: seq<string>, j: nat)
    requires j <= |lines| && forall i | 0 <= i < j :: HeaderOf(lines[i]).None?
    ensures FeedAll(START, lines) == FeedAll(START, lines[j..])
  {
    hide HeaderOf;
    if j == 0 {
      assert lines[0..] == lines;
    } else {
      assert forall i | 0 <= i < j - 1 :: lines[1..][i] == lines[i+1];
      NothingBefore(lines[1..], j - 1);
      assert lines[1..][j-1..] == lines[j..];
    }
  }

  lemma ReadIsAccepted(p: Patch, j: nat, hunks: seq<Hunk>)
    requires !Elided(p) && PatchReads(p.lines, j, hunks)
    ensures ChangedLines(p) == Ok((AllOld(hunks), AllNew(hunks)))
  {
    hide HeaderOf, HunksRead, Elided, FeedAll, Finish, AllOld, AllNew;
    NothingBefore(p.lines, j);
    FeedHunksRead(START, p.lines[j..], hunks);
    assert [] + AllOld(hunks) == AllOld(hunks) && [] + AllNew(hunks) == AllNew(hunks);
  }

  // ------------------------------------------------------------- what is accepted can be read

  /** The edit a line stands for. */
  function EditOf(l: string): Edit {
    if Skipped(l) then NoNewline
    else if "+" <= l then Add(l[1..])
    else if "-" <= l then Delete(l[1..])
    else if " " <= l then Context(l[1..])
    else NoNewline
  }

  lemma EditIsRead(p: Reader, l: string)
    requires p.inHunk && HeaderOf(l).None? && Feed(p, l).Ok?
    ensures
      var e := EditOf(l);
      Reads(l, e) && (e.Context? || e.Delete? ==> p.oldLeft > 0) && (e.Context? || e.Add? ==> p.newLeft > 0)
  {
    hide HeaderOf;
    if l != "" {
      MarkThen(l);
    }
    assert " " <= l ==> l == " " + l[1..];
  }

  /** Reading goes on in a hunk: first its edits, then further hunks. */
  lemma {:induction false} ReadOn(p: Reader, lines: seq<string>) returns (edits: seq<Edit>, hunks: seq<Hunk>)
    requires p.inHunk && FeedAll(p, lines).Ok? && Finish(FeedAll(p, lines).value).Ok?
    ensures |edits| <= |lines| && ReadsAll(lines[..|edits|], edits) && HunksRead(lines[|edits|..], hunks)
    ensures p.oldLeft == OldCount(edits) && p.newLeft == NewCount(edits)
    decreases |lines|
  {
    hide HeaderOf, Reads, EditOf, HunkReads;
    if lines == [] {
      edits, hunks := [], [];
    } else if HeaderOf(lines[0]).Some? {
      var first, more := ReadOn(Feed(p, lines[0]).value, lines[1..]);
      edits := [];
      hunks := HunkThen(lines, first, more);
    } else {
      var l := lines[0];
      var e := EditOf(l);
      EditIsRead(p, l);
      FeedRead(p, l, e);
      var first, more := ReadOn(AdvanceOne(p, e), lines[1..]);
      edits, hunks := [e] + first, more;
      OneEditMore(lines, e, first);
      OneEditCounts(e, first);
    }
  }

  lemma OneEditCounts(e: Edit, first: seq<Edit>)
    ensures OldCount([e] + first) == (if e.Context? || e.Delete? then 1 else 0) + OldCount(first)
    ensures NewCount([e] + first) == (if e.Context? || e.Add? then 1 else 0) + NewCount(first)
  {
    assert ([e] + first)[1..] == first;
  }

  lemma OneEditMore(lines: seq<string>, e: Edit, first: seq<Edit>)
    requires lines != [] && Reads(lines[0], e) && |first| <= |lines| - 1 && ReadsAll(lines[1..][..|first|], first)
    ensures ReadsAll(lines[..1+|first|], [e] + first) && lines[1..][|first|..] == lines[1+|first|..]
  {
    hide Reads;
    assert forall i | 0 <= i < |first| :: lines[..1+|first|][i+1] == lines[1..][..|first|][i];
  }

  lemma HunkThen(lines: seq<string>, first: seq<Edit>, more: seq<Hunk>) returns (hunks: seq<Hunk>)
    requires lines != [] && HeaderOf(lines[0]).Some? && |first| <= |lines| - 1
    requires ReadsAll(lines[1..][..|first|], first) && HunksRead(lines[1..][|first|..], more)
    requires HeaderOf(lines[0]).value.oldCount == OldCount(first) && HeaderOf(lines[0]).value.newCount == NewCount(first)
    ensures hunks != [] && HunksRead(lines, hunks)
  {
    hide HeaderOf, ReadsAll, OldCount, NewCount;
    var header := HeaderOf(lines[0]).value;
    var h := Hunk(header.oldStart, header.newStart, first, Style(false, false, ""));
    hunks := [h] + more;
    var n := 1 + |first|;
    assert lines[..n][1..] == lines[1..][..|first|] && lines[n..] == lines[1..][|first|..];
    assert hunks[1..] == more && HunkReads(lines[..n], h);
  }

  /** The first header of an accepted patch. */
  lemma {:induction false} FirstHeader(lines: seq<string>) returns (j: nat)
    requires FeedAll(START, lines).Ok? && Finish(FeedAll(START, lines).value).Ok?
    ensures j < |lines| && HeaderOf(lines[j]).Some? && forall i | 0 <= i < j :: HeaderOf(lines[i]).None?
  {
    hide HeaderOf;
    if HeaderOf(lines[0]).Some? {
      j := 0;
    } else {
      var k := FirstHeader(lines[1..]);
      j := k + 1;
      assert forall i | 0 < i < j :: lines[i] == lines[1..][i-1];
    }
  }

  lemma AcceptedIsRead(p: Patch) returns (j: nat, hunks: seq<Hunk>)
    requires ChangedLines(p).Ok?
    ensures PatchReads(p.lines, j, hunks)
  {
    hide HeaderOf, Elided, HunksRead;
    j := FirstHeader(p.lines);
    NothingBefore(p.lines, j);
    var rest := p.lines[j..];
    assert rest[1..] == p.lines[j+1..];
    var first, more := ReadOn(Feed(START, rest[0]).value, rest[1..]);
    hunks := HunkThen(rest, first, more);
  }

  /** A patch is accepted exactly when it is all there and can be read as lines that
      are no header and then hunks with the line counts they declare; and then its
      changes are those of the hunks, with their numbers. */
  lemma AcceptedExactlyWhenRead(p: Patch, changes: (Changes, Changes))
    ensures ChangedLines(p) == Ok(changes) <==>
              !Elided(p) && exists j, hunks :: PatchReads(p.lines, j, hunks) && changes == (AllOld(hunks), AllNew(hunks))
  {
    hide Elided, PatchReads, AllOld, AllNew, FeedAll, Finish;
    if ChangedLines(p) == Ok(changes) {
      var j, hunks := AcceptedIsRead(p);
      ReadIsAccepted(p, j, hunks);
    }
    if !Elided(p) {
      forall j, hunks | PatchReads(p.lines, j, hunks) ensures ChangedLines(p) == Ok((AllOld(hunks), AllNew(hunks))) {
        ReadIsAccepted(p, j, hunks);
      }
    }
  }
}
