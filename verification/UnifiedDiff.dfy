/** Reading a unified diff: the numbers and contents of the lines it deletes and
    adds. */
module UnifiedDiff {
  import opened Characters
  import opened Options

  /** The lines of a patch, and whether its text ends in a line break. */
  datatype Patch = Patch(lines: seq<string>, ended: bool)

  datatype Error =
    | Unavailable | IncompleteHunk | MalformedLine
    | AddsBeyond | DeletesBeyond | ContextExceeds

  datatype Result<T> = Ok(value: T) | Err(error: Error)

  type Changes = seq<(nat, string)>

  // ------------------------------------------------------------- hunk headers

  function Numeral(n: nat): (s: string)
    ensures s != [] && forall i | 0 <= i < |s| :: Digit(s[i])
  {
    if n < 10 then ['0' + n as char] else Numeral(n / 10) + ['0' + (n % 10) as char]
  }

  function Value(s: string): nat
    requires forall i | 0 <= i < |s| :: Digit(s[i])
  {
    if s == [] then 0 else assert Digit(s[|s|-1]); 10 * Value(s[..|s|-1]) + (s[|s|-1] as int - '0' as int)
  }

  lemma {:induction false} NumeralValue(n: nat)
    ensures Value(Numeral(n)) == n
  {
    if n >= 10 {
      NumeralValue(n / 10);
      assert Numeral(n)[..|Numeral(n)|-1] == Numeral(n / 10);
    }
  }

  /** The digits `s` starts with, and the rest. */
  function Digits(s: string): (r: (string, string))
    ensures r.0 + r.1 == s
    ensures forall i | 0 <= i < |r.0| :: Digit(r.0[i])
    ensures r.1 != [] ==> !Digit(r.1[0])
  {
    if s == [] || !Digit(s[0]) then ([], s) else
      var (more, rest) := Digits(s[1..]);
      ([s[0]] + more, rest)
  }

  /** `s` without the prefix `p`. */
  function After(s: string, p: string): (r: Option<string>)
    ensures r.Some? <==> p <= s
    ensures r.Some? ==> s == p + r.value
  {
    if p <= s then Some(s[|p|..]) else None
  }

  /** `(\d+)(?:,(\d+))?`: the start, the count (1 when it is not given), the rest. */
  function Range(s: string): Option<(nat, nat, string)> {
    var (start, rest) := Digits(s);
    if start == [] then None
    else if rest == [] || rest[0] != ',' then Some((Value(start), 1, rest))
    else
      var (count, tail) := Digits(rest[1..]);
      if count == [] then Some((Value(start), 1, rest)) else Some((Value(start), Value(count), tail))
  }

  datatype Header = Header(oldStart: nat, oldCount: nat, newStart: nat, newCount: nat)

  /** `HUNK_RE`. */
  function HeaderOf(l: string): Option<Header> {
    match After(l, "@@ -")
    case None => None
    case Some(a) =>
      match Range(a)
      case None => None
      case Some((oldStart, oldCount, b)) =>
        match After(b, " +")
        case None => None
        case Some(c) =>
          match Range(c)
          case None => None
          case Some((newStart, newCount, d)) =>
            if After(d, " @@").Some? then Some(Header(oldStart, oldCount, newStart, newCount)) else None
  }

  // ------------------------------------------------------------- the parser

  /** What the loop carries from line to line. */
  datatype Reader = Reader(oldLine: nat, newLine: nat, oldLeft: nat, newLeft: nat, inHunk: bool, removed: Changes, added: Changes)

  const START := Reader(0, 0, 0, 0, false, [], [])

  function Feed(p: Reader, l: string): Result<Reader> {
    var h := HeaderOf(l);
    if h.Some? then
      if p.oldLeft == 0 && p.newLeft == 0 then
        Ok(p.(oldLine := h.value.oldStart, newLine := h.value.newStart, oldLeft := h.value.oldCount, newLeft := h.value.newCount, inHunk := true))
      else Err(IncompleteHunk)
    else if !p.inHunk || "\\" <= l || "+++ " <= l || "--- " <= l then Ok(p)
    else if "+" <= l then
      if p.newLeft == 0 then Err(AddsBeyond)
      else Ok(p.(added := p.added + [(p.newLine, l[1..])], newLine := p.newLine + 1, newLeft := p.newLeft - 1))
    else if "-" <= l then
      if p.oldLeft == 0 then Err(DeletesBeyond)
      else Ok(p.(removed := p.removed + [(p.oldLine, l[1..])], oldLine := p.oldLine + 1, oldLeft := p.oldLeft - 1))
    else if " " <= l then
      if p.oldLeft == 0 || p.newLeft == 0 then Err(ContextExceeds)
      else Ok(p.(oldLine := p.oldLine + 1, newLine := p.newLine + 1, oldLeft := p.oldLeft - 1, newLeft := p.newLeft - 1))
    else Err(MalformedLine)
  }

  function FeedAll(p: Reader, lines: seq<string>): Result<Reader>
    decreases |lines|
  {
    if lines == [] then Ok(p) else
      match Feed(p, lines[0])
      case Err(e) => Err(e)
      case Ok(q) => FeedAll(q, lines[1..])
  }

  function Finish(p: Reader): Result<(Changes, Changes)> {
    if p.inHunk && p.oldLeft == 0 && p.newLeft == 0 then Ok((p.removed, p.added)) else Err(IncompleteHunk)
  }

  /** A patch that is not there, or that was cut off. */
  predicate Elided(p: Patch) {
    p.lines == [] || (!p.ended && EndsInDots(p.lines[|p.lines|-1]))
  }

  predicate EndsInDots(l: string) {
    |l| >= 3 && l[|l|-3..] == "..."
  }

  /** `changed_line_content`. */
  function ChangedLines(p: Patch): Result<(Changes, Changes)> {
    if Elided(p) then Err(Unavailable) else
      match FeedAll(START, p.lines)
      case Err(e) => Err(e)
      case Ok(q) => Finish(q)
  }

  method ChangedLineContent(p: Patch) returns (r: Result<(Changes, Changes)>)
    ensures r == ChangedLines(p)
  {
    if Elided(p) {
      return Err(Unavailable);
    }
    var q := START;
    for i := 0 to |p.lines|
      invariant FeedAll(START, p.lines) == FeedAll(q, p.lines[i..])
    {
      assert p.lines[i..][1..] == p.lines[i+1..];
      var l := p.lines[i];
      var h := HeaderOf(l);
      if h.Some? {
        if q.oldLeft != 0 || q.newLeft != 0 {
          return Err(IncompleteHunk);
        }
        q := q.(oldLine := h.value.oldStart, newLine := h.value.newStart, oldLeft := h.value.oldCount, newLeft := h.value.newCount, inHunk := true);
        continue;
      }
      if !q.inHunk || "\\" <= l || "+++ " <= l || "--- " <= l {
        continue;
      }
      if "+" <= l {
        if q.newLeft == 0 {
          return Err(AddsBeyond);
        }
        q := q.(added := q.added + [(q.newLine, l[1..])], newLine := q.newLine + 1, newLeft := q.newLeft - 1);
      } else if "-" <= l {
        if q.oldLeft == 0 {
          return Err(DeletesBeyond);
        }
        q := q.(removed := q.removed + [(q.oldLine, l[1..])], oldLine := q.oldLine + 1, oldLeft := q.oldLeft - 1);
      } else if " " <= l {
        if q.oldLeft == 0 || q.newLeft == 0 {
          return Err(ContextExceeds);
        }
        q := q.(oldLine := q.oldLine + 1, newLine := q.newLine + 1, oldLeft := q.oldLeft - 1, newLeft := q.newLeft - 1);
      } else {
        return Err(MalformedLine);
      }
    }
    return Finish(q);
  }

  // ------------------------------------------------------------- declared counts

  /** Lines of the old, and of the new, file that the patch shows from `k` on up
      to the next hunk. */
  function OldShown(lines: seq<string>, k: nat): nat
    requires k <= |lines|
    decreases |lines| - k
  {
    if k == |lines| || HeaderOf(lines[k]).Some? then 0
    else (if !Skipped(lines[k]) && ("-" <= lines[k] || " " <= lines[k]) then 1 else 0) + OldShown(lines, k + 1)
  }

  function NewShown(lines: seq<string>, k: nat): nat
    requires k <= |lines|
    decreases |lines| - k
  {
    if k == |lines| || HeaderOf(lines[k]).Some? then 0
    else (if !Skipped(lines[k]) && ("+" <= lines[k] || " " <= lines[k]) then 1 else 0) + NewShown(lines, k + 1)
  }

  predicate Skipped(l: string) {
    "\\" <= l || "+++ " <= l || "--- " <= l
  }

  lemma {:induction false} LeftIsShown(p: Reader, lines: seq<string>, k: nat)
    requires k <= |lines| && p.inHunk && FeedAll(p, lines[k..]).Ok? && Finish(FeedAll(p, lines[k..]).value).Ok?
    ensures p.oldLeft == OldShown(lines, k) && p.newLeft == NewShown(lines, k)
    decreases |lines| - k
  {
    hide HeaderOf;
    if k < |lines| {
      assert lines[k..][1..] == lines[k+1..];
      if HeaderOf(lines[k]).None? {
        LeftIsShown(Feed(p, lines[k]).value, lines, k + 1);
      }
    }
  }

  lemma {:induction false} HunkIsReached(p: Reader, lines: seq<string>, k: nat, i: nat)
    requires k <= i < |lines| && HeaderOf(lines[i]).Some? && FeedAll(p, lines[k..]).Ok? && Finish(FeedAll(p, lines[k..]).value).Ok?
    ensures HeaderOf(lines[i]).value.oldCount == OldShown(lines, i + 1) && HeaderOf(lines[i]).value.newCount == NewShown(lines, i + 1)
    decreases i - k
  {
    hide HeaderOf;
    assert lines[k..][1..] == lines[k+1..];
    var q := Feed(p, lines[k]).value;
    if k == i {
      LeftIsShown(q, lines, k + 1);
    } else {
      HunkIsReached(q, lines, k + 1, i);
    }
  }

  /** In an accepted patch every hunk shows exactly as many old and new lines as
      its header declares. */
  lemma CountsAreExact(p: Patch, i: nat)
    requires ChangedLines(p).Ok? && i < |p.lines| && HeaderOf(p.lines[i]).Some?
    ensures HeaderOf(p.lines[i]).value.oldCount == OldShown(p.lines, i + 1)
    ensures HeaderOf(p.lines[i]).value.newCount == NewShown(p.lines, i + 1)
  {
    assert p.lines[0..] == p.lines;
    HunkIsReached(START, p.lines, 0, i);
  }

  // ------------------------------------------------------------- printing

  datatype Edit = Context(text: string) | Delete(text: string) | Add(text: string) | NoNewline

  /** How the header of a hunk is printed: whether a count of one is left out of
      either range, and what stands behind it, as a rule the enclosing item. */
  datatype Style = Style(terseOld: bool, terseNew: bool, section: string)

  datatype Hunk = Hunk(oldStart: nat, newStart: nat, edits: seq<Edit>, style: Style)

  function OldCount(edits: seq<Edit>): nat {
    if edits == [] then 0 else (if edits[0].Context? || edits[0].Delete? then 1 else 0) + OldCount(edits[1..])
  }

  function NewCount(edits: seq<Edit>): nat {
    if edits == [] then 0 else (if edits[0].Context? || edits[0].Add? then 1 else 0) + NewCount(edits[1..])
  }

  function PrintRange(start: nat, count: nat, terse: bool): string {
    if terse && count == 1 then Numeral(start) else Numeral(start) + "," + Numeral(count)
  }

  function PrintHeader(h: Hunk): string {
    "@@ -" + PrintRange(h.oldStart, OldCount(h.edits), h.style.terseOld) + " +" + PrintRange(h.newStart, NewCount(h.edits), h.style.terseNew) + " @@" + h.style.section
  }

  function PrintEdit(e: Edit): string {
    match e
    case Context(t) => " " + t
    case Delete(t) => "-" + t
    case Add(t) => "+" + t
    case NoNewline => "\\ No newline at end of file"
  }

  function PrintEdits(edits: seq<Edit>): (r: seq<string>)
    ensures |r| == |edits|
  {
    if edits == [] then [] else [PrintEdit(edits[0])] + PrintEdits(edits[1..])
  }

  function Print(hunks: seq<Hunk>): seq<string> {
    if hunks == [] then [] else [PrintHeader(hunks[0])] + PrintEdits(hunks[0].edits) + Print(hunks[1..])
  }

  /** What the edits delete, the first old line being number `n`. */
  function OldChanges(edits: seq<Edit>, n: nat): Changes {
    if edits == [] then [] else
      match edits[0]
      case Context(_) => OldChanges(edits[1..], n + 1)
      case Delete(t) => [(n, t)] + OldChanges(edits[1..], n + 1)
      case _ => OldChanges(edits[1..], n)
  }

  function NewChanges(edits: seq<Edit>, n: nat): Changes {
    if edits == [] then [] else
      match edits[0]
      case Context(_) => NewChanges(edits[1..], n + 1)
      case Add(t) => [(n, t)] + NewChanges(edits[1..], n + 1)
      case _ => NewChanges(edits[1..], n)
  }

  function AllOld(hunks: seq<Hunk>): Changes {
    if hunks == [] then [] else OldChanges(hunks[0].edits, hunks[0].oldStart) + AllOld(hunks[1..])
  }

  function AllNew(hunks: seq<Hunk>): Changes {
    if hunks == [] then [] else NewChanges(hunks[0].edits, hunks[0].newStart) + AllNew(hunks[1..])
  }

  /** Printed, the edit looks like the header of a file. */
  predicate Hidden(e: Edit) {
    (e.Add? && "++ " <= e.text) || (e.Delete? && "-- " <= e.text)
  }

  predicate AnyHidden(hunks: seq<Hunk>) {
    exists i, j :: 0 <= i < |hunks| && 0 <= j < |hunks[i].edits| && Hidden(hunks[i].edits[j])
  }

  // ------------------------------------------------------------- the round trip

  lemma {:induction false} DigitsOf(a: string, rest: string)
    requires forall i | 0 <= i < |a| :: Digit(a[i])
    requires rest == [] || !Digit(rest[0])
    ensures Digits(a + rest) == (a, rest)
  {
    if a == [] {
      assert a + rest == rest;
    } else {
      assert (a + rest)[1..] == a[1..] + rest && [a[0]] + a[1..] == a;
      DigitsOf(a[1..], rest);
    }
  }

  lemma RangeRoundTrip(start: nat, count: nat, terse: bool, rest: string)
    requires rest != [] && rest[0] == ' '
    ensures Range(PrintRange(start, count, terse) + rest) == Some((start, count, rest))
  {
    NumeralValue(start);
    NumeralValue(count);
    if terse && count == 1 {
      DigitsOf(Numeral(start), rest);
    } else {
      var tail := Numeral(count) + rest;
      assert PrintRange(start, count, terse) + rest == Numeral(start) + ("," + tail);
      DigitsOf(Numeral(start), "," + tail);
      DigitsOf(Numeral(count), rest);
      assert ("," + tail)[1..] == tail;
    }
  }

  lemma AfterPrefix(p: string, rest: string)
    ensures After(p + rest, p) == Some(rest)
  {
  }

  lemma HeaderRoundTrip(h: Hunk)
    ensures HeaderOf(PrintHeader(h)) == Some(Header(h.oldStart, OldCount(h.edits), h.newStart, NewCount(h.edits)))
  {
    hide Range, After, PrintRange;
    var d := " @@" + h.style.section;
    var c := PrintRange(h.newStart, NewCount(h.edits), h.style.terseNew) + d;
    var b := " +" + c;
    var a := PrintRange(h.oldStart, OldCount(h.edits), h.style.terseOld) + b;
    assert PrintHeader(h) == "@@ -" + a;
    AfterPrefix("@@ -", a);
    RangeRoundTrip(h.oldStart, OldCount(h.edits), h.style.terseOld, b);
    AfterPrefix(" +", c);
    RangeRoundTrip(h.newStart, NewCount(h.edits), h.style.terseNew, d);
    AfterPrefix(" @@", h.style.section);
  }

  predicate HasRoom(p: Reader, edits: seq<Edit>) {
    p.oldLeft >= OldCount(edits) && p.newLeft >= NewCount(edits)
  }

  /** The reader after one printed edit. */
  function AdvanceOne(p: Reader, e: Edit): Reader
    requires e.Context? || e.Delete? ==> p.oldLeft > 0
    requires e.Context? || e.Add? ==> p.newLeft > 0
  {
    match e
    case Context(_) => p.(oldLine := p.oldLine + 1, newLine := p.newLine + 1, oldLeft := p.oldLeft - 1, newLeft := p.newLeft - 1)
    case Delete(t) => if Hidden(e) then p else p.(removed := p.removed + [(p.oldLine, t)], oldLine := p.oldLine + 1, oldLeft := p.oldLeft - 1)
    case Add(t) => if Hidden(e) then p else p.(added := p.added + [(p.newLine, t)], newLine := p.newLine + 1, newLeft := p.newLeft - 1)
    case NoNewline => p
  }

  function Advance(p: Reader, edits: seq<Edit>): Reader
    requires HasRoom(p, edits)
    decreases |edits|
  {
    if edits == [] then p else Advance(AdvanceOne(p, edits[0]), edits[1..])
  }

  lemma FeedEdit(p: Reader, e: Edit)
    requires p.inHunk && (e.Context? || e.Delete? ==> p.oldLeft > 0) && (e.Context? || e.Add? ==> p.newLeft > 0)
    ensures Feed(p, PrintEdit(e)) == Ok(AdvanceOne(p, e))
  {
    var l := PrintEdit(e);
    assert l[0] != '@' && (!e.NoNewline? ==> l[1..] == e.text);
    assert HeaderOf(l).None? by {
      assert !("@@ -" <= l);
    }
    match e
    case Add(t) => assert "+++ " <= l <==> "++ " <= t by { assert "+++ " == "+" + "++ "; PrefixUnder("+", "++ ", t); }
    case Delete(t) => assert "--- " <= l <==> "-- " <= t by { assert "--- " == "-" + "-- "; PrefixUnder("-", "-- ", t); }
    case _ =>
  }

  lemma PrefixUnder(a: string, p: string, t: string)
    ensures a + p <= a + t <==> p <= t
  {
    if a + p <= a + t {
      assert (a + t)[..|a+p|][|a|..] == p;
      assert (a + t)[|a|..] == t;
    }
    if p <= t {
      assert t == p + t[|p|..];
      assert a + t == (a + p) + t[|p|..];
    }
  }

  lemma {:induction false} FeedEdits(p: Reader, edits: seq<Edit>, rest: seq<string>)
    requires p.inHunk && HasRoom(p, edits)
    ensures FeedAll(p, PrintEdits(edits) + rest) == FeedAll(Advance(p, edits), rest)
    decreases |edits|
  {
    hide Feed, Hidden;
    var lines := PrintEdits(edits) + rest;
    if edits == [] {
      assert lines == rest;
    } else {
      assert lines[0] == PrintEdit(edits[0]) && lines[1..] == PrintEdits(edits[1..]) + rest;
      FeedEdit(p, edits[0]);
      FeedEdits(AdvanceOne(p, edits[0]), edits[1..], rest);
    }
  }

  /** What is left to read after the edits is what they hide. */
  lemma {:induction false} AdvanceLeft(p: Reader, edits: seq<Edit>)
    requires HasRoom(p, edits)
    ensures
      var q := Advance(p, edits);
      var hidden := exists j :: 0 <= j < |edits| && Hidden(edits[j]);
      && q.inHunk == p.inHunk
      && q.oldLeft >= p.oldLeft - OldCount(edits) && q.newLeft >= p.newLeft - NewCount(edits)
      && (hidden ==> q.oldLeft > p.oldLeft - OldCount(edits) || q.newLeft > p.newLeft - NewCount(edits))
      && (!hidden ==>
            && q.oldLeft == p.oldLeft - OldCount(edits) && q.newLeft == p.newLeft - NewCount(edits)
            && q.removed == p.removed + OldChanges(edits, p.oldLine) && q.added == p.added + NewChanges(edits, p.newLine))
    decreases |edits|
  {
    if edits != [] {
      var first := AdvanceOne(p, edits[0]);
      AdvanceLeft(first, edits[1..]);
      forall j | 0 <= j < |edits| ensures Hidden(edits[j]) ==> j == 0 || Hidden(edits[1..][j-1]) {
        assert j > 0 ==> edits[j] == edits[1..][j-1];
      }
      assert forall j | 0 <= j < |edits| - 1 :: edits[1..][j] == edits[j+1];
    }
  }

  lemma {:induction false} FeedHunks(p: Reader, hunks: seq<Hunk>)
    requires p.oldLeft == 0 && p.newLeft == 0 && (hunks == [] ==> p.inHunk)
    ensures
      var r := FeedAll(p, Print(hunks));
      if AnyHidden(hunks) then r == Err(IncompleteHunk) || (r.Ok? && Finish(r.value) == Err(IncompleteHunk))
      else r.Ok? && Finish(r.value) == Ok((p.removed + AllOld(hunks), p.added + AllNew(hunks)))
    decreases |hunks|
  {
    hide HeaderOf, Hidden, PrintHeader, PrintEdits, OldCount, NewCount, OldChanges, NewChanges, Advance;
    if hunks == [] {
      assert p.removed + [] == p.removed && p.added + [] == p.added;
    } else {
      var h := hunks[0];
      var lines := Print(hunks);
      var rest := Print(hunks[1..]);
      HeaderRoundTrip(h);
      assert lines[0] == PrintHeader(h);
      var entered := Feed(p, lines[0]).value;
      assert lines[1..] == PrintEdits(h.edits) + rest;
      FeedEdits(entered, h.edits, rest);
      AdvanceLeft(entered, h.edits);
      var q := Advance(entered, h.edits);
      HiddenHereOrLater(hunks);
      if exists j :: 0 <= j < |h.edits| && Hidden(h.edits[j]) {
        if |hunks| > 1 {
          HeaderRoundTrip(hunks[1]);
        }
      } else {
        FeedHunks(q, hunks[1..]);
        assert (p.removed + OldChanges(h.edits, h.oldStart)) + AllOld(hunks[1..]) == p.removed + AllOld(hunks);
        assert (p.added + NewChanges(h.edits, h.newStart)) + AllNew(hunks[1..]) == p.added + AllNew(hunks);
      }
    }
  }

  lemma HiddenHereOrLater(hunks: seq<Hunk>)
    requires hunks != []
    ensures AnyHidden(hunks) <==> (exists j :: 0 <= j < |hunks[0].edits| && Hidden(hunks[0].edits[j])) || AnyHidden(hunks[1..])
  {
    if AnyHidden(hunks) {
      var i, j :| 0 <= i < |hunks| && 0 <= j < |hunks[i].edits| && Hidden(hunks[i].edits[j]);
      assert i > 0 ==> hunks[1..][i-1] == hunks[i];
    }
    if AnyHidden(hunks[1..]) {
      var i, j :| 0 <= i < |hunks| - 1 && 0 <= j < |hunks[1..][i].edits| && Hidden(hunks[1..][i].edits[j]);
      assert hunks[i+1] == hunks[1..][i];
    }
  }

  /** Printing hunks and parsing them gives back the number and the content of
      each deleted and added line, unless the text looks cut off, or a line looks
      like the header of a file, and then the patch is rejected. */
  lemma RoundTrip(hunks: seq<Hunk>, ended: bool)
    requires hunks != []
    ensures
      var patch := Patch(Print(hunks), ended);
      ChangedLines(patch) ==
        if Elided(patch) then Err(Unavailable)
        else if AnyHidden(hunks) then Err(IncompleteHunk)
        else Ok((AllOld(hunks), AllNew(hunks)))
  {
    hide Feed, AnyHidden, Print;
    FeedHunks(START, hunks);
    assert [] + AllOld(hunks) == AllOld(hunks) && [] + AllNew(hunks) == AllNew(hunks);
  }
}
