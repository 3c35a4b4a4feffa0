/** When a changed file is judged confined to its tests, told from the edit script
    that leads from base to head. */
module ConfinedScript {
  import opened Options
  import opened UnifiedDiff
  import opened TestOnly
  import Lines = TextLines
  import T = RustText

  // ------------------------------------------------------------- the lines of a script

  /** The number of the old line at which edit `i` stands. */
  function OldNumber(script: seq<Edit>, i: nat): nat
    requires i <= |script|
  {
    OldCount(script[..i]) + 1
  }

  function NewNumber(script: seq<Edit>, i: nat): nat
    requires i <= |script|
  {
    NewCount(script[..i]) + 1
  }

  lemma {:induction false} OldChangesAre(script: seq<Edit>, o: nat, n: nat, t: string)
    ensures (n, t) in OldChanges(script, o) <==>
              exists i :: 0 <= i < |script| && script[i] == Delete(t) && n == o + OldCount(script[..i])
  {
    if script != [] {
      var rest := script[1..];
      var o' := if script[0].Context? || script[0].Delete? then o + 1 else o;
      OldChangesAre(rest, o', n, t);
      forall i | 0 <= i < |rest| ensures OldCount(script[..i+1]) == (o' - o) + OldCount(rest[..i]) && script[i+1] == rest[i] {
        assert script[..i+1][1..] == rest[..i];
      }
      assert script[..0] == [];
      if (n, t) in OldChanges(script, o) && (n, t) in OldChanges(rest, o') {
        var i :| 0 <= i < |rest| && rest[i] == Delete(t) && n == o' + OldCount(rest[..i]);
        assert script[i+1] == Delete(t) && n == o + OldCount(script[..i+1]);
      }
      if i :| 0 <= i < |script| && script[i] == Delete(t) && n == o + OldCount(script[..i]) {
        if i > 0 {
          assert rest[i-1] == Delete(t) && n == o' + OldCount(rest[..i-1]);
        }
      }
    }
  }

  lemma {:induction false} NewChangesAre(script: seq<Edit>, o: nat, n: nat, t: string)
    ensures (n, t) in NewChanges(script, o) <==>
              exists i :: 0 <= i < |script| && script[i] == Add(t) && n == o + NewCount(script[..i])
  {
    if script != [] {
      var rest := script[1..];
      var o' := if script[0].Context? || script[0].Add? then o + 1 else o;
      NewChangesAre(rest, o', n, t);
      forall i | 0 <= i < |rest| ensures NewCount(script[..i+1]) == (o' - o) + NewCount(rest[..i]) && script[i+1] == rest[i] {
        assert script[..i+1][1..] == rest[..i];
      }
      assert script[..0] == [];
      if (n, t) in NewChanges(script, o) && (n, t) in NewChanges(rest, o') {
        var i :| 0 <= i < |rest| && rest[i] == Add(t) && n == o' + NewCount(rest[..i]);
        assert script[i+1] == Add(t) && n == o + NewCount(script[..i+1]);
      }
      if i :| 0 <= i < |script| && script[i] == Add(t) && n == o + NewCount(script[..i]) {
        if i > 0 {
          assert rest[i-1] == Add(t) && n == o' + NewCount(rest[..i-1]);
        }
      }
    }
  }

  /** A changed line stands in its text under its number. */
  lemma {:induction false} OldStands(script: seq<Edit>, i: nat)
    requires i < |script| && script[i].Delete?
    ensures OldCount(script[..i]) < |OldText(script)| && OldText(script)[OldCount(script[..i])] == script[i].text
  {
    if i > 0 {
      OldStands(script[1..], i - 1);
      assert script[..i][1..] == script[1..][..i-1];
    } else {
      assert script[..0] == [];
    }
  }

  lemma {:induction false} NewStands(script: seq<Edit>, i: nat)
    requires i < |script| && script[i].Add?
    ensures NewCount(script[..i]) < |NewText(script)| && NewText(script)[NewCount(script[..i])] == script[i].text
  {
    if i > 0 {
      NewStands(script[1..], i - 1);
      assert script[..i][1..] == script[1..][..i-1];
    } else {
      assert script[..0] == [];
    }
  }

  // ------------------------------------------------------------- the lines of a patch

  /** An added line that the counts and the boundary pattern see: one that, with
      its sign, does not start like the header of a file. */
  predicate SeenAdd(e: Edit) {
    e.Add? && !("++" <= e.text)
  }

  predicate SeenDelete(e: Edit) {
    e.Delete? && !("--" <= e.text)
  }

  function CountEdits(script: seq<Edit>, p: Edit -> bool): nat {
    if script == [] then 0 else (if p(script[0]) then 1 else 0) + CountEdits(script[1..], p)
  }

  lemma {:induction false} CountEditsOfBoth(a: seq<Edit>, b: seq<Edit>, p: Edit -> bool)
    ensures CountEdits(a + b, p) == CountEdits(a, p) + CountEdits(b, p)
  {
    if a == [] {
      assert a + b == b;
    } else {
      assert (a + b)[1..] == a[1..] + b;
      CountEditsOfBoth(a[1..], b, p);
    }
  }

  lemma {:induction false} CountIfOfBoth(a: seq<string>, b: seq<string>, p: string -> bool)
    ensures CountIf(a + b, p) == CountIf(a, p) + CountIf(b, p)
  {
    if a == [] {
      assert a + b == b;
    } else {
      assert (a + b)[1..] == a[1..] + b;
      CountIfOfBoth(a[1..], b, p);
    }
  }

  lemma EditIsSeen(e: Edit)
    ensures AddedLine(PrintEdit(e)) <==> SeenAdd(e)
    ensures DeletedLine(PrintEdit(e)) <==> SeenDelete(e)
    ensures SeenAdd(e) || SeenDelete(e) ==> PrintEdit(e)[1..] == e.text
  {
    var l := PrintEdit(e);
    match e
    case Add(t) =>
      assert l[0] == '+' && l[1..] == t;
      assert "++" <= t <==> |t| >= 2 && t[0] == '+' && t[1] == '+';
      assert "+++" <= l <==> |l| >= 3 && l[1] == '+' && l[2] == '+';
    case Delete(t) =>
      assert l[0] == '-' && l[1..] == t;
      assert "--" <= t <==> |t| >= 2 && t[0] == '-' && t[1] == '-';
      assert "---" <= l <==> |l| >= 3 && l[1] == '-' && l[2] == '-';
    case Context(_) => assert l[0] == ' ';
    case NoNewline => assert l[0] == '\\';
  }

  lemma HeaderIsNotSeen(h: Hunk)
    ensures !AddedLine(PrintHeader(h)) && !DeletedLine(PrintHeader(h))
  {
    hide PrintRange;
    assert PrintHeader(h)[0] == '@';
  }

  /** What `p` says of a printed line is what `q` says of the edit; it says nothing
      of headers and of unchanged lines. */
  ghost predicate Speaks(p: string -> bool, q: Edit -> bool) {
    && (forall h: Hunk :: !p(PrintHeader(h))) && (forall e: Edit :: p(PrintEdit(e)) <==> q(e))
    && forall t: string :: !q(Context(t))
  }

  lemma {:induction false} EditsAreCounted(edits: seq<Edit>, p: string -> bool, q: Edit -> bool)
    requires Speaks(p, q)
    ensures CountIf(PrintEdits(edits), p) == CountEdits(edits, q)
  {
    hide PrintEdit, PrintHeader;
    if edits != [] {
      EditsAreCounted(edits[1..], p, q);
      assert PrintEdits(edits)[1..] == PrintEdits(edits[1..]);
    }
  }

  lemma {:induction false} ContextsAreNotCounted(lines: seq<string>, p: string -> bool, q: Edit -> bool)
    requires Speaks(p, q)
    ensures CountEdits(Contexts(lines), q) == 0
  {
    hide PrintEdit, PrintHeader;
    if lines != [] {
      assert Contexts(lines)[1..] == Contexts(lines[1..]);
      ContextsAreNotCounted(lines[1..], p, q);
    }
  }

  lemma {:induction false} PatchIsCounted(gaps: seq<seq<string>>, hunks: seq<Hunk>, p: string -> bool, q: Edit -> bool)
    requires |gaps| == |hunks| + 1 && Speaks(p, q)
    ensures CountIf(Print(hunks), p) == CountEdits(Script(gaps, hunks), q)
    decreases |hunks|
  {
    hide PrintHeader, PrintEdit, Speaks, CountEdits, CountIf, PrintEdits;
    ContextsAreNotCounted(gaps[0], p, q);
    if hunks == [] {
      assert Contexts(gaps[0]) + [] == Contexts(gaps[0]);
      NothingToCount(p);
    } else {
      PatchIsCounted(gaps[1..], hunks[1..], p, q);
      HunkIsCounted(gaps[0], hunks[0], Print(hunks[1..]), Script(gaps[1..], hunks[1..]), p, q);
    }
  }

  lemma NothingToCount(p: string -> bool)
    ensures CountIf([], p) == 0
  {
  }

  lemma HunkIsCounted(gap: seq<string>, h: Hunk, lines: seq<string>, rest: seq<Edit>, p: string -> bool, q: Edit -> bool)
    requires Speaks(p, q) && CountIf(lines, p) == CountEdits(rest, q) && CountEdits(Contexts(gap), q) == 0
    ensures CountIf([PrintHeader(h)] + PrintEdits(h.edits) + lines, p) == CountEdits(Contexts(gap) + (h.edits + rest), q)
  {
    hide PrintHeader, PrintEdit, PrintEdits, CountEdits;
    EditsAreCounted(h.edits, p, q);
    CountEditsOfBoth(Contexts(gap), h.edits + rest, q);
    CountEditsOfBoth(h.edits, rest, q);
    CountIfOfBoth([PrintHeader(h)] + PrintEdits(h.edits), lines, p);
    CountIfOfBoth([PrintHeader(h)], PrintEdits(h.edits), p);
  }

  lemma {:induction false} CountMeans(lines: seq<string>, p: string -> bool)
    ensures CountIf(lines, p) > 0 <==> exists i :: 0 <= i < |lines| && p(lines[i])
  {
    if lines != [] {
      CountMeans(lines[1..], p);
      if i :| 0 <= i < |lines| && p(lines[i]) {
        assert i > 0 ==> p(lines[1..][i-1]);
      }
      if i :| 0 <= i < |lines[1..]| && p(lines[1..][i]) {
        assert p(lines[i+1]);
      }
    }
  }

  lemma {:induction false} CountEditsMeans(script: seq<Edit>, q: Edit -> bool)
    ensures CountEdits(script, q) > 0 <==> exists i :: 0 <= i < |script| && q(script[i])
  {
    if script != [] {
      CountEditsMeans(script[1..], q);
      if i :| 0 <= i < |script| && q(script[i]) {
        assert i > 0 ==> q(script[1..][i-1]);
      }
      if i :| 0 <= i < |script[1..]| && q(script[1..][i]) {
        assert q(script[i+1]);
      }
    }
  }

  // ------------------------------------------------------------- the verdict, from the script

  predicate HasBrace(l: string) {
    '{' in l || '}' in l
  }

  predicate IsChange(e: Edit) {
    e.Add? || e.Delete?
  }

  /** The numbers the platform reports are those of the added and deleted lines
      that do not start like the header of a file. */
  predicate Reported(f: File, script: seq<Edit>) {
    && f.additions == CountEdits(script, SeenAdd) && f.deletions == CountEdits(script, SeenDelete)
    && f.changes == f.additions + f.deletions
  }

  ghost predicate SomethingChanges(script: seq<Edit>) {
    exists i :: 0 <= i < |script| && IsChange(script[i])
  }

  predicate AtBoundary(boundary: string -> bool, e: Edit) {
    (SeenAdd(e) || SeenDelete(e)) && boundary(e.text)
  }

  /** Line `n` has no structural brace and lies in a range. */
  predicate Harmless(structure: seq<string>, ranges: seq<Range>, n: nat) {
    0 < n <= |structure| && !HasBrace(structure[n-1]) && InRanges(n, ranges)
  }

  ghost predicate ChangesAreHarmless(script: seq<Edit>, past: seq<string>, before: seq<Range>, now: seq<string>, after: seq<Range>) {
    && (forall i | 0 <= i < |script| && script[i].Delete? :: Harmless(past, before, OldNumber(script, i)))
    && (forall i | 0 <= i < |script| && script[i].Add? :: Harmless(now, after, NewNumber(script, i)))
  }

  /** What it takes for a file: both sources can be read, something changes, the
      reported numbers are right, no changed line matches the boundary pattern or
      carries a structural brace, and each lies in a `cfg(test)` item of its side. */
  ghost predicate Passes(word: char -> bool, boundary: string -> bool, f: File, script: seq<Edit>)
    requires f.base.Some? && f.head.Some?
  {
    var past, now := Read(word, f.base.value), Read(word, f.head.value);
    && past.Some? && now.Some? && SomethingChanges(script) && Reported(f, script)
    && (forall i | 0 <= i < |script| :: !AtBoundary(boundary, script[i]))
    && var before, after := CfgTestRanges(past.value, 0), CfgTestRanges(now.value, 0);
    && before.Found? && after.Found?
    && ChangesAreHarmless(script, past.value.structure, before.ranges, now.value.structure, after.ranges)
  }

  lemma OldStand(script: seq<Edit>)
    ensures Stand(OldChanges(script, 1), OldText(script))
  {
    hide OldChanges, OldText, OldCount;
    var changes := OldChanges(script, 1);
    forall k | 0 <= k < |changes| ensures 1 <= changes[k].0 <= |OldText(script)| && OldText(script)[changes[k].0-1] == changes[k].1 {
      var i := DeletedAt(script, k);
      OldStands(script, i);
    }
  }

  lemma DeletedAt(script: seq<Edit>, k: nat) returns (i: nat)
    requires k < |OldChanges(script, 1)|
    ensures i < |script| && script[i] == Delete(OldChanges(script, 1)[k].1) && OldNumber(script, i) == OldChanges(script, 1)[k].0
  {
    hide OldChanges, OldCount;
    var (n, t) := OldChanges(script, 1)[k];
    OldChangesAre(script, 1, n, t);
    i :| 0 <= i < |script| && script[i] == Delete(t) && n == 1 + OldCount(script[..i]);
  }

  lemma DeletionTold(script: seq<Edit>, i: nat) returns (k: nat)
    requires i < |script| && script[i].Delete?
    ensures k < |OldChanges(script, 1)| && OldChanges(script, 1)[k].0 == OldNumber(script, i)
  {
    hide OldChanges, OldCount;
    OldChangesAre(script, 1, OldNumber(script, i), script[i].text);
    assert (OldNumber(script, i), script[i].text) in OldChanges(script, 1);
    k :| 0 <= k < |OldChanges(script, 1)| && OldChanges(script, 1)[k] == (OldNumber(script, i), script[i].text);
  }

  lemma OldHarmless(script: seq<Edit>, structure: seq<string>, ranges: seq<Range>)
    requires |structure| == |OldText(script)|
    ensures !TouchesBrace(OldChanges(script, 1), structure) && AllInRanges(OldChanges(script, 1), ranges) <==>
              forall i | 0 <= i < |script| && script[i].Delete? :: Harmless(structure, ranges, OldNumber(script, i))
  {
    hide OldChanges, OldText, OldCount, OldNumber, InRanges;
    var changes := OldChanges(script, 1);
    OldStand(script);
    if !TouchesBrace(changes, structure) && AllInRanges(changes, ranges) {
      forall i | 0 <= i < |script| && script[i].Delete? ensures Harmless(structure, ranges, OldNumber(script, i)) {
        var k := DeletionTold(script, i);
        assert changes[k].0 == OldNumber(script, i);
      }
    }
    if forall i | 0 <= i < |script| && script[i].Delete? :: Harmless(structure, ranges, OldNumber(script, i)) {
      forall k | 0 <= k < |changes| ensures Harmless(structure, ranges, changes[k].0) {
        var i := DeletedAt(script, k);
      }
    }
  }

  lemma NewStand(script: seq<Edit>)
    ensures Stand(NewChanges(script, 1), NewText(script))
  {
    hide NewChanges, NewText, NewCount;
    var changes := NewChanges(script, 1);
    forall k | 0 <= k < |changes| ensures 1 <= changes[k].0 <= |NewText(script)| && NewText(script)[changes[k].0-1] == changes[k].1 {
      var i := AddedAt(script, k);
      NewStands(script, i);
    }
  }

  lemma AddedAt(script: seq<Edit>, k: nat) returns (i: nat)
    requires k < |NewChanges(script, 1)|
    ensures i < |script| && script[i] == Add(NewChanges(script, 1)[k].1) && NewNumber(script, i) == NewChanges(script, 1)[k].0
  {
    hide NewChanges, NewCount;
    var (n, t) := NewChanges(script, 1)[k];
    NewChangesAre(script, 1, n, t);
    i :| 0 <= i < |script| && script[i] == Add(t) && n == 1 + NewCount(script[..i]);
  }

  lemma AdditionTold(script: seq<Edit>, i: nat) returns (k: nat)
    requires i < |script| && script[i].Add?
    ensures k < |NewChanges(script, 1)| && NewChanges(script, 1)[k].0 == NewNumber(script, i)
  {
    hide NewChanges, NewCount;
    NewChangesAre(script, 1, NewNumber(script, i), script[i].text);
    assert (NewNumber(script, i), script[i].text) in NewChanges(script, 1);
    k :| 0 <= k < |NewChanges(script, 1)| && NewChanges(script, 1)[k] == (NewNumber(script, i), script[i].text);
  }

  lemma NewHarmless(script: seq<Edit>, structure: seq<string>, ranges: seq<Range>)
    requires |structure| == |NewText(script)|
    ensures !TouchesBrace(NewChanges(script, 1), structure) && AllInRanges(NewChanges(script, 1), ranges) <==>
              forall i | 0 <= i < |script| && script[i].Add? :: Harmless(structure, ranges, NewNumber(script, i))
  {
    hide NewChanges, NewText, NewCount, NewNumber, InRanges;
    var changes := NewChanges(script, 1);
    NewStand(script);
    if !TouchesBrace(changes, structure) && AllInRanges(changes, ranges) {
      forall i | 0 <= i < |script| && script[i].Add? ensures Harmless(structure, ranges, NewNumber(script, i)) {
        var k := AdditionTold(script, i);
        assert changes[k].0 == NewNumber(script, i);
      }
    }
    if forall i | 0 <= i < |script| && script[i].Add? :: Harmless(structure, ranges, NewNumber(script, i)) {
      forall k | 0 <= k < |changes| ensures Harmless(structure, ranges, changes[k].0) {
        var i := AddedAt(script, k);
      }
    }
  }

  lemma NothingTold(script: seq<Edit>)
    ensures OldChanges(script, 1) == [] && NewChanges(script, 1) == [] <==> !SomethingChanges(script)
  {
    hide OldChanges, NewChanges;
    if i :| 0 <= i < |script| && IsChange(script[i]) {
      if script[i].Delete? {
        var k := DeletionTold(script, i);
      } else {
        var k := AdditionTold(script, i);
      }
    }
    if OldChanges(script, 1) != [] {
      var i := DeletedAt(script, 0);
      assert IsChange(script[i]);
    }
    if NewChanges(script, 1) != [] {
      var i := AddedAt(script, 0);
      assert IsChange(script[i]);
    }
  }

  /** The numbers and the boundary pattern, from the script. */
  lemma PatchTold(boundary: string -> bool, gaps: seq<seq<string>>, hunks: seq<Hunk>)
    requires |gaps| == |hunks| + 1
    ensures
      var lines, script := Print(hunks), Script(gaps, hunks);
      && CountIf(lines, AddedLine) == CountEdits(script, SeenAdd) && CountIf(lines, DeletedLine) == CountEdits(script, SeenDelete)
      && ((exists i :: 0 <= i < |lines| && (AddedLine(lines[i]) || DeletedLine(lines[i])) && boundary(lines[i][1..])) <==>
            exists i :: 0 <= i < |script| && AtBoundary(boundary, script[i]))
  {
    hide AddedLine, DeletedLine, SeenAdd, SeenDelete, PrintEdit, PrintHeader, Print, Script, CountIf, CountEdits;
    SignsSpeak();
    PatchIsCounted(gaps, hunks, AddedLine, SeenAdd);
    PatchIsCounted(gaps, hunks, DeletedLine, SeenDelete);
    var p: string -> bool, q: Edit -> bool := l => OnBoundary(boundary, l), e => AtBoundary(boundary, e);
    BoundarySpeaks(boundary, p, q);
    PatchIsCounted(gaps, hunks, p, q);
    CountMeans(Print(hunks), p);
    CountEditsMeans(Script(gaps, hunks), q);
  }

  predicate OnBoundary(boundary: string -> bool, l: string) {
    (AddedLine(l) || DeletedLine(l)) && boundary(l[1..])
  }

  lemma SignsSpeak()
    ensures Speaks(AddedLine, SeenAdd) && Speaks(DeletedLine, SeenDelete)
  {
    hide AddedLine, DeletedLine, PrintEdit, PrintHeader;
    forall h: Hunk ensures !AddedLine(PrintHeader(h)) && !DeletedLine(PrintHeader(h)) {
      HeaderIsNotSeen(h);
    }
    forall e: Edit ensures (AddedLine(PrintEdit(e)) <==> SeenAdd(e)) && (DeletedLine(PrintEdit(e)) <==> SeenDelete(e)) {
      EditIsSeen(e);
    }
  }

  lemma BoundarySpeaks(boundary: string -> bool, p: string -> bool, q: Edit -> bool)
    requires (forall l :: p(l) <==> OnBoundary(boundary, l)) && forall e :: q(e) <==> AtBoundary(boundary, e)
    ensures Speaks(p, q)
  {
    hide AddedLine, DeletedLine, PrintEdit, PrintHeader, SeenAdd, SeenDelete;
    forall h: Hunk ensures !p(PrintHeader(h)) {
      HeaderIsNotSeen(h);
    }
    forall e: Edit ensures p(PrintEdit(e)) <==> q(e) {
      EditIsSeen(e);
    }
    forall t: string ensures !q(Context(t)) {
      ContextIsNotSeen(t);
    }
  }

  lemma ContextIsNotSeen(t: string)
    ensures !SeenAdd(Context(t)) && !SeenDelete(Context(t))
  {
  }

  lemma PatchIsRead(gaps: seq<seq<string>>, hunks: seq<Hunk>, patch: Patch)
    requires |gaps| == |hunks| + 1 && Placed(gaps, hunks, 1, 1) && patch.lines == Print(hunks)
    ensures ChangedLines(patch).Ok? <==> !Elided(patch) && !AnyHidden(hunks)
    ensures ChangedLines(patch).Ok? ==>
              ChangedLines(patch).value == (OldChanges(Script(gaps, hunks), 1), NewChanges(Script(gaps, hunks), 1))
  {
    hide AnyHidden, Placed, FeedAll, EndsInDots;
    assert patch == Patch(Print(hunks), patch.ended);
    if hunks == [] {
      assert Elided(patch);
    } else {
      RoundTrip(hunks, patch.ended);
      HunksTellAll(gaps, hunks, 1, 1);
    }
  }

  /** The checks on the sources, from the script. */
  lemma SourcesTold(word: char -> bool, f: File, script: seq<Edit>)
    requires f.base.Some? && f.head.Some?
    requires Lines.Contents(f.base.value) == OldText(script) && Lines.Contents(f.head.value) == NewText(script)
    ensures
      var past, now := Read(word, f.base.value), Read(word, f.head.value);
      JudgeSources(word, f, OldChanges(script, 1), NewChanges(script, 1)).Confined? <==>
        && past.Some? && now.Some?
        && var before, after := CfgTestRanges(past.value, 0), CfgTestRanges(now.value, 0);
           && before.Found? && after.Found?
           && ChangesAreHarmless(script, past.value.structure, before.ranges, now.value.structure, after.ranges)
  {
    hide CfgTestRanges, OldChanges, NewChanges, OldText, NewText, TouchesBrace, AllInRanges, Stand, T.Structural, Lines.Contents, Harmless;
    var past, now := Read(word, f.base.value), Read(word, f.head.value);
    if past.Some? && now.Some? {
      OldStand(script);
      NewStand(script);
      if CfgTestRanges(past.value, 0).Found? && CfgTestRanges(now.value, 0).Found? {
        OldHarmless(script, past.value.structure, CfgTestRanges(past.value, 0).ranges);
        NewHarmless(script, now.value.structure, CfgTestRanges(now.value, 0).ranges);
      }
    }
  }

  /** A file whose patch is the diff from base to head is judged confined exactly
      when the patch is whole, no changed line looks like the header of a file, and
      the script passes. */
  lemma ConfinedExactlyWhen(word: char -> bool, boundary: string -> bool, f: File, gaps: seq<seq<string>>, hunks: seq<Hunk>)
    requires f.patch.Some? && f.base.Some? && f.head.Some?
    requires RealDiff(Lines.Contents(f.base.value), Lines.Contents(f.head.value), f.patch.value, gaps, hunks)
    ensures Judge(word, boundary, f).Confined? <==>
              !Elided(f.patch.value) && !AnyHidden(hunks) && Passes(word, boundary, f, Script(gaps, hunks))
  {
    hide CfgTestRanges, JudgeSources, Read, AnyHidden, Placed, OldText, NewText, OldChanges, NewChanges, ChangesAreHarmless, SomethingChanges,
      CountEdits, CountIf, AddedLine, DeletedLine, AtBoundary, Script, Print, ChangedLines, Elided, Lines.Contents;
    var script := Script(gaps, hunks);
    PatchIsRead(gaps, hunks, f.patch.value);
    PatchTold(boundary, gaps, hunks);
    NothingTold(script);
    SourcesTold(word, f, script);
  }

  // ------------------------------------------------------------- structural braces

  function BraceLines(structure: seq<string>): seq<string> {
    if structure == [] then [] else (if HasBrace(structure[0]) then [structure[0]] else []) + BraceLines(structure[1..])
  }

  lemma {:induction false} BracesStay(structure: seq<string>, first: nat, gone: iset<nat>)
    requires forall i | 0 <= i < |structure| && first + i in gone :: !HasBrace(structure[i])
    ensures BraceLines(Without(structure, first, gone)) == BraceLines(structure)
  {
    hide HasBrace;
    if structure != [] {
      var rest := structure[1..];
      forall i | 0 <= i < |rest| && first + 1 + i in gone ensures !HasBrace(rest[i]) {
        assert rest[i] == structure[i+1];
      }
      BracesStay(rest, first + 1, gone);
      if first in gone {
        assert first + 0 in gone;
        assert [] + Without(rest, first + 1, gone) == Without(rest, first + 1, gone);
      } else {
        assert ([structure[0]] + Without(rest, first + 1, gone))[1..] == Without(rest, first + 1, gone);
      }
    }
  }

  /** The structural lines that a change leaves alone, on either side. */
  ghost function KeptPast(word: char -> bool, f: File, script: seq<Edit>): seq<string>
    requires f.base.Some? && Read(word, f.base.value).Some?
  {
    Without(Read(word, f.base.value).value.structure, 1, Gone(OldChanges(script, 1)))
  }

  ghost function KeptNow(word: char -> bool, f: File, script: seq<Edit>): seq<string>
    requires f.head.Some? && Read(word, f.head.value).Some?
  {
    Without(Read(word, f.head.value).value.structure, 1, Gone(NewChanges(script, 1)))
  }

  lemma OldBracesStay(script: seq<Edit>, structure: seq<string>, ranges: seq<Range>)
    requires |structure| == |OldText(script)|
    requires forall i | 0 <= i < |script| && script[i].Delete? :: Harmless(structure, ranges, OldNumber(script, i))
    ensures BraceLines(Without(structure, 1, Gone(OldChanges(script, 1)))) == BraceLines(structure)
  {
    hide OldChanges, OldText, OldNumber, InRanges, HasBrace, BraceLines;
    forall i | 0 <= i < |structure| && 1 + i in Gone(OldChanges(script, 1)) ensures !HasBrace(structure[i]) {
      var k :| 0 <= k < |OldChanges(script, 1)| && OldChanges(script, 1)[k].0 == 1 + i;
      var j := DeletedAt(script, k);
      assert Harmless(structure, ranges, 1 + i);
    }
    BracesStay(structure, 1, Gone(OldChanges(script, 1)));
  }

  lemma NewBracesStay(script: seq<Edit>, structure: seq<string>, ranges: seq<Range>)
    requires |structure| == |NewText(script)|
    requires forall i | 0 <= i < |script| && script[i].Add? :: Harmless(structure, ranges, NewNumber(script, i))
    ensures BraceLines(Without(structure, 1, Gone(NewChanges(script, 1)))) == BraceLines(structure)
  {
    hide NewChanges, NewText, NewNumber, InRanges, HasBrace, BraceLines;
    forall i | 0 <= i < |structure| && 1 + i in Gone(NewChanges(script, 1)) ensures !HasBrace(structure[i]) {
      var k :| 0 <= k < |NewChanges(script, 1)| && NewChanges(script, 1)[k].0 == 1 + i;
      var j := AddedAt(script, k);
      assert Harmless(structure, ranges, 1 + i);
    }
    BracesStay(structure, 1, Gone(NewChanges(script, 1)));
  }

  /** In a confined file every structural brace of base, and of head, stands on a
      line that the change leaves alone. So base and head have the same lines with
      structural braces, in order, exactly when these unchanged lines do; they may
      not when the change turns some of them into a comment or a literal. */
  lemma BracesAreKept(word: char -> bool, boundary: string -> bool, f: File, gaps: seq<seq<string>>, hunks: seq<Hunk>)
    requires Judge(word, boundary, f).Confined? && f.patch.Some? && f.base.Some? && f.head.Some?
    requires RealDiff(Lines.Contents(f.base.value), Lines.Contents(f.head.value), f.patch.value, gaps, hunks)
    ensures
      var script := Script(gaps, hunks);
      var past, now := Read(word, f.base.value), Read(word, f.head.value);
      && past.Some? && now.Some?
      && BraceLines(past.value.structure) == BraceLines(KeptPast(word, f, script))
      && BraceLines(now.value.structure) == BraceLines(KeptNow(word, f, script))
      && (BraceLines(past.value.structure) == BraceLines(now.value.structure) <==>
            BraceLines(KeptPast(word, f, script)) == BraceLines(KeptNow(word, f, script)))
  {
    hide CfgTestRanges, Judge, OldText, NewText, OldChanges, NewChanges, Script, Print, Placed, Lines.Contents, BraceLines, Without, T.Structural, Harmless,
      AnyHidden, Elided;
    ConfinedExactlyWhen(word, boundary, f, gaps, hunks);
    var script := Script(gaps, hunks);
    var past, now := Read(word, f.base.value).value, Read(word, f.head.value).value;
    OldBracesStay(script, past.structure, CfgTestRanges(past, 0).ranges);
    NewBracesStay(script, now.structure, CfgTestRanges(now, 0).ranges);
  }
}
