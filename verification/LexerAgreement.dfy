/** The two Rust scanners report the same comments: the one that goes line by line
    finds what the reading says, too. */
module LexerAgreement {
  import opened Options
  import opened Characters
  import opened RustLexemes
  import opened RustReading
  import T = RustText
  import C = RustComments

  // ------------------------------------------------------------- stretches of a line

  /** What `splitlines(keepends=True)` gives where `\n` is the only line break. */
  ghost predicate OneLine(l: string) {
    l != [] && forall i | 0 <= i < |l| - 1 :: l[i] != '\n'
  }

  /** Some comment of the list covers that character. */
  ghost predicate Covers(cs: seq<C.Comment>, n: nat, col: nat) {
    cs != [] && (CoveredBy(cs[0], n, col) || Covers(cs[1..], n, col))
  }

  ghost predicate CoveredBy(c: C.Comment, n: nat, col: nat) {
    c.line == n && c.start <= col < c.start + |c.text|
  }

  /** A pair without a line break does not straddle the end of `l`. */
  lemma PairAgrees(l: string, s: string, off: nat, i: nat, a: char, b: char)
    requires Within(l, s, off) && i < |l| && a != '\n'
    ensures s[off+i] == l[i] && (Pair(l, i, a, b) <==> Pair(s, off + i, a, b))
  {
    assert s[off+i] == l[i];
    if i + 1 < |l| {
      assert s[off+i+1] == l[i+1];
    }
  }

  lemma {:induction false} HashesAgree(l: string, s: string, off: nat, i: nat)
    requires Within(l, s, off) && i <= |l| && (i < |l| || off + |l| == |s|)
    ensures Hashes(s, off + i) == Hashes(l, i)
    decreases |l| - i
  {
    if i < |l| {
      assert s[off+i] == l[i];
      if l[i] == '#' {
        HashesAgree(l, s, off, i + 1);
      }
    }
  }

  lemma QuotesAgree(l: string, s: string, off: nat, i: nat)
    requires Within(l, s, off) && i <= |l| && (i < |l| || off + |l| == |s|)
    ensures RawQuote(s, off + i) == RawQuote(l, i)
  {
    HashesAgree(l, s, off, i);
    var h := Hashes(l, i);
    if i + h < |l| {
      assert s[off+i+h] == l[i+h];
    }
  }

  function Shifted(opener: Option<(nat, nat)>, off: nat): Option<(nat, nat)> {
    match opener case None => None case Some((h, end)) => Some((h, off + end))
  }

  /** The line scanner sees the same openers as if it stood in the source. */
  lemma OpenersAgree(l: string, s: string, off: nat, i: nat)
    requires Within(l, s, off) && i < |l|
    ensures C.Opener(s, off + i) == Shifted(C.Opener(l, i), off)
  {
    hide RawQuote;
    PairAgrees(l, s, off, i, 'b', 'r');
    PairAgrees(l, s, off, i, 'r', 'b');
    var p := C.RawPrefix(l, i);
    assert p == C.RawPrefix(s, off + i);
    if p > 0 {
      PrefixEnds(l, s, off, i);
      QuotesAgree(l, s, off, i + p);
    }
  }

  lemma PrefixEnds(l: string, s: string, off: nat, i: nat)
    requires Within(l, s, off) && i < |l| && C.RawPrefix(l, i) > 0
    ensures i + C.RawPrefix(l, i) <= |l| && (i + C.RawPrefix(l, i) < |l| || off + |l| == |s|)
  {
  }

  lemma Fits(l: string, s: string, off: nat)
    requires Within(l, s, off)
    ensures off + |l| <= |s| && (off + |l| < |s| ==> l != [] && s[off+|l|-1] == '\n')
  {
    if off + |l| < |s| {
      assert s[off+|l|-1] == l[|l|-1];
    }
  }

  lemma ClosesOnLine(l: string, s: string, off: nat, i: nat, h: nat)
    requires Within(l, s, off) && i < |l| && RawCloses(s, off + i, h)
    ensures i + h < |l|
  {
    hide Within;
    Fits(l, s, off);
  }

  lemma SameText(l: string, s: string, off: nat)
    requires Within(l, s, off)
    ensures off + |l| <= |s| && forall j | 0 <= j < |l| :: s[off+j] == l[j]
  {
  }

  /** Nor does the end of a raw string. */
  lemma ClosesAgree(l: string, s: string, off: nat, i: nat, h: nat)
    requires Within(l, s, off) && i < |l|
    ensures RawCloses(l, i, h) <==> RawCloses(s, off + i, h)
  {
    hide Within;
    SameText(l, s, off);
    if RawCloses(s, off + i, h) {
      ClosesOnLine(l, s, off, i, h);
      forall j | i < j <= i + h ensures l[j] == '#' {
        assert s[off+j] == l[j];
      }
    }
    if RawCloses(l, i, h) {
      forall j | off + i < j <= off + i + h ensures s[j] == '#' {
        assert l[j-off] == '#' && s[off+(j-off)] == l[j-off];
      }
    }
  }

  lemma {:induction false} StringStays(l: string, i: nat)
    requires i <= |l|
    ensures C.StringRun(l, i).0 <= |l| || l[|l|-1] == '\\'
    decreases |l| - i
  {
    if i < |l| && l[i] != '"' && (l[i] != '\\' || i + 2 <= |l|) {
      StringStays(l, if l[i] == '\\' then i + 2 else i + 1);
    }
  }

  lemma StringFits(l: string, s: string, off: nat, i: nat)
    requires Within(l, s, off) && i <= |l|
    ensures C.StringRun(l, i).0 <= |l| || off + |l| == |s|
  {
    StringStays(l, i);
  }

  /** A string that runs through a line. */
  lemma {:induction false} StringRead(word: char -> bool, l: string, s: string, off: nat, i: nat, k: nat)
    requires Within(l, s, off) && i <= |l| && off + i <= k < |s|
    ensures
      var (end, closed) := C.StringRun(l, i);
      && (end <= |l| || off + |l| == |s|)
      && MarkAt(word, s, off + i, C.InString, k) ==
           if k < off + end then T.Literal else MarkAt(word, s, off + end, if closed then C.Code else C.InString, k)
    decreases |l| - i
  {
    hide Within, LeapAt;
    Fits(l, s, off);
    StringFits(l, s, off, i);
    if i < |l| {
      PairsAgree(l, s, off, i);
      StringLeap(word, s, off + i);
      if l[i] == '\\' {
        if i + 2 <= |l| && k >= off + i + 2 {
          StringRead(word, l, s, off, i + 2, k);
        }
      } else if l[i] != '"' && k > off + i {
        StringRead(word, l, s, off, i + 1, k);
      }
    }
  }

  lemma {:induction false} StringPlain(word: char -> bool, l: string, s: string, off: nat, i: nat)
    requires Within(l, s, off) && i <= |l| && PlainFrom(word, s, off + i, C.InString)
    ensures var (end, closed) := C.StringRun(l, i); PlainFrom(word, s, off + end, if closed then C.Code else C.InString)
    decreases |l| - i
  {
    hide Within, LeapAt;
    Fits(l, s, off);
    StringFits(l, s, off, i);
    if i < |l| {
      PairsAgree(l, s, off, i);
      StringLeap(word, s, off + i);
      if l[i] == '\\' {
        if i + 2 <= |l| {
          StringPlain(word, l, s, off, i + 2);
        }
      } else if l[i] != '"' {
        StringPlain(word, l, s, off, i + 1);
      }
    }
  }

  /** A raw string that is not closed before `j`. */
  lemma {:induction false} RawStretch(word: char -> bool, s: string, i: nat, j: nat, h: nat, k: nat)
    requires i <= j <= |s| && i <= k < |s| && forall a | i <= a < j :: !RawCloses(s, a, h)
    ensures MarkAt(word, s, i, C.Raw(h), k) == if k < j then T.Literal else MarkAt(word, s, j, C.Raw(h), k)
    decreases j - i
  {
    hide LeapAt, RawCloses;
    if i < j {
      RawLeap(word, s, i, h);
      if k > i {
        RawStretch(word, s, i + 1, j, h, k);
      }
    }
  }

  lemma {:induction false} RawPlain(word: char -> bool, s: string, i: nat, j: nat, h: nat)
    requires i <= j <= |s| && (forall a | i <= a < j :: !RawCloses(s, a, h))
    ensures PlainFrom(word, s, i, C.Raw(h)) <==> PlainFrom(word, s, j, C.Raw(h))
    decreases j - i
  {
    hide LeapAt, RawCloses;
    if i < j {
      RawLeap(word, s, i, h);
      RawPlain(word, s, i + 1, j, h);
    }
  }

  /** Where a raw string stops on a line: behind its closing quote, or at the end. */
  lemma RawStops(n: nat, l: string, s: string, off: nat, i: nat, st: C.State)
    requires Within(l, s, off) && i < |l| && st.mode.Raw?
    ensures
      var r, h := C.Step(n, l, i, st), st.mode.hashes;
      && r.found.None? && i < r.next <= |l|
      && if r.state.mode.Code? then
           i + h < r.next && RawCloses(s, off + r.next - h - 1, h) && forall a | off + i <= a < off + r.next - h - 1 :: !RawCloses(s, a, h)
         else r.state.mode == st.mode && r.next == |l| && forall a | off + i <= a < off + |l| :: !RawCloses(s, a, h)
  {
    var h := st.mode.hashes;
    var t := "\"" + seq(h, _ => '#');
    var c := Find(l, t, i);
    hide RawCloses, Within;
    Fits(l, s, off);
    forall a | off + i <= a < off + c ensures !RawCloses(s, a, h) {
      TerminatorMeans(l, a - off, h);
      ClosesAgree(l, s, off, a - off, h);
    }
    if c < |l| {
      TerminatorMeans(l, c, h);
      ClosesAgree(l, s, off, c, h);
      ClosesFits(l, c, h);
    }
  }

  lemma ClosesFits(l: string, c: nat, h: nat)
    requires RawCloses(l, c, h)
    ensures c + h < |l|
  {
  }

  lemma RawRoundRead(word: char -> bool, n: nat, l: string, s: string, off: nat, i: nat, st: C.State, k: nat)
    requires Within(l, s, off) && i < |l| && st.mode.Raw? && off + i <= k < |s|
    ensures
      var r := C.Step(n, l, i, st);
      MarkAt(word, s, off + i, st.mode, k) == if k < off + r.next then T.Literal else MarkAt(word, s, off + r.next, r.state.mode, k)
  {
    hide C.Step, LeapAt, RawCloses;
    RawStops(n, l, s, off, i, st);
    var r, h := C.Step(n, l, i, st), st.mode.hashes;
    var c := if r.state.mode.Code? then off + r.next - h - 1 else off + |l|;
    assert off + |l| <= |s|;
    RawStretch(word, s, off + i, c, h, k);
    if r.state.mode.Code? && k >= c {
      RawLeap(word, s, c, h);
    }
  }

  lemma RawRoundPlain(word: char -> bool, n: nat, l: string, s: string, off: nat, i: nat, st: C.State)
    requires Within(l, s, off) && i < |l| && st.mode.Raw? && PlainFrom(word, s, off + i, st.mode)
    ensures var r := C.Step(n, l, i, st); PlainFrom(word, s, off + r.next, r.state.mode)
  {
    hide C.Step, LeapAt, RawCloses;
    RawStops(n, l, s, off, i, st);
    var r, h := C.Step(n, l, i, st), st.mode.hashes;
    var c := if r.state.mode.Code? then off + r.next - h - 1 else off + |l|;
    assert off + |l| <= |s|;
    RawPlain(word, s, off + i, c, h);
    if r.state.mode.Code? {
      RawLeap(word, s, c, h);
    }
  }

  // ------------------------------------------------------------- one round

  // ------------------------------------------------------------- character literals

  lemma {:induction false} RunOver(l: string, i: nat, a: nat, b: nat)
    requires i < a <= b < |l| && b - i <= 12 && forall j | a <= j < b :: l[j] != '\'' && l[j] != '\\'
    ensures C.CharRun(l, i, a, false) == C.CharRun(l, i, b, false)
    decreases b - a
  {
    if a < b {
      RunOver(l, i, a + 1, b);
    }
  }

  /** The line scanner finds the end of every character literal. */
  lemma CharRunEnds(l: string, i: nat, e: nat)
    requires CharAt(l, i, e)
    ensures C.CharRun(l, i, i + 1, false) == e
  {
    if l[i+1] != '\\' {
      assert e == i + 3;
    } else if e == i + 4 {
      assert C.CharRun(l, i, i + 2, true) == C.CharRun(l, i, i + 3, false);
    } else {
      assert C.CharRun(l, i, i + 1, false) == C.CharRun(l, i, i + 2, true) == C.CharRun(l, i, i + 3, false);
      forall j | i + 3 <= j < e - 1 ensures l[j] != '\'' && l[j] != '\\' {
      }
      RunOver(l, i, i + 3, e - 1);
    }
  }

  lemma CharHasNoBreak(s: string, i: nat, e: nat)
    requires CharAt(s, i, e)
    ensures e <= |s| && forall k | i <= k < e :: s[k] != '\n'
  {
  }

  lemma CharFits(l: string, s: string, off: nat, i: nat, e: nat)
    requires Within(l, s, off) && i < |l| && CharAt(s, off + i, e)
    ensures e <= off + |l|
  {
    hide Within, CharAt;
    Fits(l, s, off);
    CharHasNoBreak(s, off + i, e);
  }

  lemma CharOnLine(l: string, s: string, off: nat, i: nat, e: nat)
    requires Within(l, s, off) && i < |l| && CharAt(s, off + i, off + e) && e <= |l|
    ensures CharAt(l, i, e)
  {
    hide Within;
    SameText(l, s, off);
    assert forall j | i <= j < e :: l[j] == s[off+j];
    if e >= i + 6 && HexRun(s, off + i + 4, e - i - 6) {
      forall j | i + 4 <= j < e - 2 ensures Hex(l[j]) || l[j] == '_' {
        assert l[j] == s[off+j];
      }
    }
  }

  /** A quote that stands alone is passed over. */
  lemma {:induction false} LoneRun(l: string, s: string, off: nat, i: nat, end: nat, escaped: bool)
    requires OneLine(l) && Within(l, s, off) && i < end <= |l| && Lone(s, off + i) && end - i <= 13
    ensures C.CharRun(l, i, end, escaped) == i + 1
    decreases |l| - end
  {
    hide Within;
    if end < |l| && end - i <= 12 {
      SameText(l, s, off);
      forall k | off + i <= k < off + end ensures NoBreak(s[k]) {
        assert s[off+(k-off)] == l[k-off];
      }
      assert s[off+end] != '\'';
      LoneRun(l, s, off, i, end + 1, l[end] == '\\' && !escaped);
    }
  }

  /** Both scanners pass over the same characters at a quote. */
  lemma QuotesRead(word: char -> bool, l: string, s: string, off: nat, i: nat)
    requires OneLine(l) && Within(l, s, off) && i < |l| && PlainFrom(word, s, off + i, C.Code) && l[i] == '\''
    ensures off + C.CharRun(l, i, i + 1, false) == match CharLiteral(s, off + i) case Some(e) => e case None => off + i + 1
  {
    hide Within, LeapAt, CharLiteral, Lone, OneLine;
    SameText(l, s, off);
    if CharLiteral(s, off + i).Some? {
      var e := CharLiteral(s, off + i).value;
      CharLiteralMeans(s, off + i, e);
      CharFits(l, s, off, i, e);
      CharOnLine(l, s, off, i, e - off);
      CharRunEnds(l, i, e - off);
    } else {
      LoneRun(l, s, off, i, i + 1, false);
    }
  }

  /** What the line scanner finds in code is what the reading finds. */
  lemma CodeAgrees(word: char -> bool, l: string, s: string, off: nat, i: nat)
    requires Within(l, s, off) && i < |l| && PlainFrom(word, s, off + i, C.Code)
    ensures s[off+i] == l[i] && (l[i] != '\'' ==> CharLiteral(s, off + i).None?)
    ensures T.RawOpener(word, s, off + i) == Shifted(C.Opener(l, i), off)
  {
    hide LeapAt;
    PairsAgree(l, s, off, i);
    OpenersAgree(l, s, off, i);
  }

  /** One round leaves the reader where nothing is opened either. */
  lemma RoundPlain(word: char -> bool, n: nat, l: string, s: string, off: nat, i: nat, st: C.State)
    requires OneLine(l) && Within(l, s, off) && i < |l| && PlainFrom(word, s, off + i, st.mode)
    ensures var r := C.Step(n, l, i, st); PlainFrom(word, s, off + r.next, r.state.mode)
  {
    hide PlainFrom;
    match st.mode
    case Block(depth) => BlockPlain(word, l, s, off, i, depth);
    case InString => StringPlain(word, l, s, off, i);
    case Code => CodeRoundPlain(word, n, l, s, off, i, st);
    case Raw(_) => RawRoundPlain(word, n, l, s, off, i, st);
  }

  lemma CodeRoundPlain(word: char -> bool, n: nat, l: string, s: string, off: nat, i: nat, st: C.State)
    requires OneLine(l) && Within(l, s, off) && i < |l| && st.mode.Code? && PlainFrom(word, s, off + i, C.Code)
    ensures var r := C.Step(n, l, i, st); PlainFrom(word, s, off + r.next, r.state.mode)
  {
    hide BlockRun, C.StringRun, C.TrimmedEnd, C.CharRun, C.Opener, T.RawOpener, CharLiteral, FindChar, BlockNext, Within, OneLine;
    Fits(l, s, off);
    CodeAgrees(word, l, s, off, i);
    CodeIs(word, s, off + i);
    PairsAgree(l, s, off, i);
    if C.Opener(l, i).Some? {
      OpenerNoComment(l, i);
    } else if Pair(l, i, 'b', '"') {
      QuoteBehind(word, l, s, off, i);
    } else if l[i] == '\'' {
      QuotesRead(word, l, s, off, i);
    } else if Pair(l, i, '/', '/') {
      LineCommentPlain(word, l, s, off, i);
    } else if Pair(l, i, '/', '*') {
      BlockPlain(word, l, s, off, i + 2, 1);
    }
  }

  lemma OpenerNoComment(l: string, i: nat)
    requires i < |l| && C.Opener(l, i).Some?
    ensures l[i] != '/' && l[i] != '"'
  {
  }

  /** `b"`: the quote is read next. */
  lemma QuoteBehind(word: char -> bool, l: string, s: string, off: nat, i: nat)
    requires Within(l, s, off) && i < |l| && Pair(l, i, 'b', '"') && PlainFrom(word, s, off + i, C.Code) && C.Opener(l, i).None?
    ensures off + i + 1 < |s| && s[off+i+1] == '"'
    ensures LeapAt(word, s, off + i, C.Code) == Leap(1, T.Kept, C.Code)
    ensures LeapAt(word, s, off + i + 1, C.Code) == Leap(1, T.Literal, C.InString)
    ensures PlainFrom(word, s, off + i + 2, C.InString)
  {
    hide C.Opener, RawQuote;
    CodeAgrees(word, l, s, off, i);
    PairsAgree(l, s, off, i);
    PairsAgree(l, s, off, i + 1);
    assert LeapAt(word, s, off + i, C.Code) == Leap(1, T.Kept, C.Code);
    assert T.RawOpener(word, s, off + i + 1).None?;
    assert LeapAt(word, s, off + i + 1, C.Code) == Leap(1, T.Literal, C.InString);
    hide LeapAt;
  }

  /** The line break behind a line comment opens nothing. */
  lemma BreakIsCode(word: char -> bool, s: string, i: nat)
    requires i < |s| && s[i] == '\n'
    ensures LeapAt(word, s, i, C.Code) == Leap(1, T.Kept, C.Code)
  {
  }

  lemma CommentIs(word: char -> bool, s: string, i: nat)
    requires i < |s| && Pair(s, i, '/', '/')
    ensures LeapAt(word, s, i, C.Code) == Leap(FindChar(s, '\n', i + 2) - i, T.Comment, C.Code)
  {
  }

  lemma LineCommentPlain(word: char -> bool, l: string, s: string, off: nat, i: nat)
    requires OneLine(l) && Within(l, s, off) && i < |l| && Pair(l, i, '/', '/') && PlainFrom(word, s, off + i, C.Code)
    ensures PlainFrom(word, s, off + |l|, C.Code)
  {
    hide LeapAt, FindChar, C.TrimmedEnd;
    PairsAgree(l, s, off, i);
    CommentIs(word, s, off + i);
    LineCommentRead(l, s, off, i);
    var end := off + C.TrimmedEnd(l, i);
    assert PlainFrom(word, s, end, C.Code);
    if end < off + |l| {
      LineEnd(l, s, off);
      BreakIs(l, s, off, i);
      BreakIsCode(word, s, end);
    }
  }

  lemma BreakIs(l: string, s: string, off: nat, i: nat)
    requires Within(l, s, off) && i <= |l| && C.TrimmedEnd(l, i) < |l| && C.TrimmedEnd(l, i) + 1 == |l|
    ensures s[off+|l|-1] == '\n'
  {
    assert s[off+|l|-1] == l[|l|-1];
  }

  lemma LineEnd(l: string, s: string, off: nat)
    requires Within(l, s, off) && l != []
    ensures s[off+|l|-1] == l[|l|-1] && (off + |l| < |s| ==> l[|l|-1] == '\n')
  {
  }

  /** A line comment ends where the line's text ends. */
  lemma LineCommentRead(l: string, s: string, off: nat, i: nat)
    requires OneLine(l) && Within(l, s, off) && i < |l| && Pair(l, i, '/', '/')
    ensures FindChar(s, '\n', off + i + 2) == off + C.TrimmedEnd(l, i)
    ensures C.TrimmedEnd(l, i) < |l| ==> C.TrimmedEnd(l, i) + 1 == |l|
  {
    var found := FindChar(s, '\n', off + i + 2);
    var end := C.TrimmedEnd(l, i);
    var last := |l| - 1;
    PairsAgree(l, s, off, last);
    PairsAgree(l, s, off, if found < off + last then found - off else last);
    PairsAgree(l, s, off, if end < last then end else last);
  }

  /** Where one round stops, and what it reports. */
  lemma RoundBounds(n: nat, l: string, s: string, off: nat, i: nat, st: C.State)
    requires Within(l, s, off) && i < |l|
    ensures
      var r := C.Step(n, l, i, st);
      && (r.next <= |l| || off + |l| == |s|)
      && (r.found.Some? ==> r.found.value.line == n && i <= r.found.value.start && r.found.value.start + |r.found.value.text| <= r.next)
  {
    hide C.Opener, BlockRun, C.TrimmedEnd;
    if st.mode.InString? {
      StringStays(l, i);
    } else if st.mode.Raw? {
      RawStops(n, l, s, off, i, st);
    }
  }

  /** One round of the line scanner: it reports what is comment, and leaves open
      what is open. */
  ghost predicate Tells(word: char -> bool, n: nat, s: string, off: nat, i: nat, m: C.Mode, r: C.Round, k: nat)
    requires off + i <= k < |s|
  {
    if k < off + r.next then (MarkAt(word, s, off + i, m, k).Comment? <==> r.found.Some? && CoveredBy(r.found.value, n, k - off))
    else MarkAt(word, s, off + i, m, k) == MarkAt(word, s, off + r.next, r.state.mode, k)
  }

  lemma RoundRead(word: char -> bool, n: nat, l: string, s: string, off: nat, i: nat, st: C.State, k: nat)
    requires PlainFrom(word, s, off + i, st.mode) && OneLine(l) && Within(l, s, off) && i < |l| && off + i <= k < |s|
    ensures Tells(word, n, s, off, i, st.mode, C.Step(n, l, i, st), k)
  {
    hide LeapAt, MarkAt, PlainFrom, OneLine, BlockRun, C.StringRun, C.Opener;
    match st.mode
    case Block(depth) => BlockRead(word, l, s, off, i, depth, k);
    case InString => StringRead(word, l, s, off, i, k);
    case Code => CodeRoundRead(word, n, l, s, off, i, st, k);
    case Raw(_) =>
      RawStops(n, l, s, off, i, st);
      RawRoundRead(word, n, l, s, off, i, st, k);
  }

  lemma CodeRoundRead(word: char -> bool, n: nat, l: string, s: string, off: nat, i: nat, st: C.State, k: nat)
    requires PlainFrom(word, s, off + i, C.Code) && OneLine(l) && Within(l, s, off) && i < |l| && st.mode.Code? && off + i <= k < |s|
    ensures Tells(word, n, s, off, i, st.mode, C.Step(n, l, i, st), k)
  {
    hide PlainFrom, Within, OneLine, BlockRun, C.StringRun, C.TrimmedEnd, C.CharRun, C.Opener, T.RawOpener, CharLiteral, FindChar, BlockNext, LeapAt;
    Fits(l, s, off);
    CodeAgrees(word, l, s, off, i);
    CodeIs(word, s, off + i);
    PairsAgree(l, s, off, i);
    if C.Opener(l, i).Some? {
      OpenerNoComment(l, i);
    } else if Pair(l, i, 'b', '"') {
      QuoteRead(word, l, s, off, i, k);
    } else if l[i] == '\'' {
      QuotesRead(word, l, s, off, i);
    } else if Pair(l, i, '/', '/') {
      LineRoundRead(word, n, l, s, off, i, st, k);
    } else if Pair(l, i, '/', '*') {
      BlockOpenRead(word, l, s, off, i, k);
    }
  }

  lemma QuoteRead(word: char -> bool, l: string, s: string, off: nat, i: nat, k: nat)
    requires Within(l, s, off) && i < |l| && Pair(l, i, 'b', '"') && PlainFrom(word, s, off + i, C.Code) && C.Opener(l, i).None?
    requires off + i <= k < |s|
    ensures
      if k < off + i + 2 then !MarkAt(word, s, off + i, C.Code, k).Comment?
      else MarkAt(word, s, off + i, C.Code, k) == MarkAt(word, s, off + i + 2, C.InString, k)
  {
    hide LeapAt, PlainFrom, Within, C.Opener;
    QuoteBehind(word, l, s, off, i);
    Unfold(word, s, off + i, C.Code, k);
    if k > off + i {
      Unfold(word, s, off + i + 1, C.Code, k);
    }
  }

  lemma Unfold(word: char -> bool, s: string, i: nat, m: C.Mode, k: nat)
    requires i <= k < |s|
    ensures
      var leap := LeapAt(word, s, i, m);
      MarkAt(word, s, i, m, k) == if k < i + leap.length then leap.mark else MarkAt(word, s, i + leap.length, leap.mode, k)
  {
    hide LeapAt;
  }

  lemma CommentRead(word: char -> bool, l: string, s: string, off: nat, i: nat, k: nat)
    requires OneLine(l) && Within(l, s, off) && i < |l| && Pair(l, i, '/', '/') && off + i <= k < |s|
    ensures
      if k < off + C.TrimmedEnd(l, i) then MarkAt(word, s, off + i, C.Code, k) == T.Comment
      else if k < off + |l| then MarkAt(word, s, off + i, C.Code, k) == T.Kept
      else MarkAt(word, s, off + i, C.Code, k) == MarkAt(word, s, off + |l|, C.Code, k)
  {
    hide LeapAt, FindChar, C.TrimmedEnd, MarkAt;
    PairsAgree(l, s, off, i);
    CommentIs(word, s, off + i);
    LineCommentRead(l, s, off, i);
    Unfold(word, s, off + i, C.Code, k);
    var end := off + C.TrimmedEnd(l, i);
    if end <= k && end < off + |l| {
      LineEnd(l, s, off);
      BreakIs(l, s, off, i);
      BreakIsCode(word, s, end);
      Unfold(word, s, end, C.Code, k);
    }
  }

  lemma LineRoundRead(word: char -> bool, n: nat, l: string, s: string, off: nat, i: nat, st: C.State, k: nat)
    requires OneLine(l) && Within(l, s, off) && i < |l| && Pair(l, i, '/', '/') && C.Opener(l, i).None? && st.mode.Code?
    requires off + i <= k < |s|
    ensures Tells(word, n, s, off, i, C.Code, C.Step(n, l, i, st), k)
  {
    hide LeapAt, FindChar, C.TrimmedEnd, C.Opener, MarkAt, Within, OneLine;
    CommentRead(word, l, s, off, i, k);
  }

  lemma BlockOpenRead(word: char -> bool, l: string, s: string, off: nat, i: nat, k: nat)
    requires Within(l, s, off) && i < |l| && Pair(l, i, '/', '*') && off + i <= k < |s|
    ensures
      var (end, left) := BlockRun(l, i + 2, 1);
      MarkAt(word, s, off + i, C.Code, k) == if k < off + end then T.Comment else MarkAt(word, s, off + end, Opened(left), k)
  {
    hide Within, BlockRun, BlockNext, FindChar, LeapAt, T.RawOpener, CharLiteral;
    PairsAgree(l, s, off, i);
    CodeIs(word, s, off + i);
    if k >= off + i + 2 {
      BlockRead(word, l, s, off, i + 2, 1, k);
    }
  }

  lemma {:induction false} LineBounds(word: char -> bool, n: nat, l: string, s: string, off: nat, i: nat, st: C.State)
    requires PlainFrom(word, s, off + i, st.mode) && OneLine(l) && Within(l, s, off)
    requires i <= |l| + 1 && (i <= |l| || off + |l| == |s|)
    ensures
      var (cs, after) := C.ScanLine(n, l, i, st);
      && PlainFrom(word, s, off + |l|, after.mode)
      && (forall c <- cs :: c.line == n && i <= c.start)
    decreases |l| + 1 - i
  {
    hide C.Step, LeapAt;
    if i < |l| {
      RoundBounds(n, l, s, off, i, st);
      RoundPlain(word, n, l, s, off, i, st);
      var r := C.Step(n, l, i, st);
      LineBounds(word, n, l, s, off, r.next, r.state);
    }
  }

  lemma {:induction false} CoversEither(a: seq<C.Comment>, b: seq<C.Comment>, n: nat, col: nat)
    ensures Covers(a + b, n, col) <==> Covers(a, n, col) || Covers(b, n, col)
  {
    if a == [] {
      assert a + b == b;
    } else {
      assert (a + b)[1..] == a[1..] + b;
      CoversEither(a[1..], b, n, col);
    }
  }

  lemma {:induction false} NotCoveredYet(cs: seq<C.Comment>, n: nat, start: nat, col: nat)
    requires col < start && forall c <- cs :: start <= c.start
    ensures !Covers(cs, n, col)
  {
    if cs != [] {
      NotCoveredYet(cs[1..], n, start, col);
    }
  }

  lemma CoversOne(found: Option<C.Comment>, n: nat, col: nat)
    ensures Covers(C.Listed(found), n, col) <==> found.Some? && CoveredBy(found.value, n, col)
  {
    hide CoveredBy;
  }

  lemma {:induction false} LineRead(word: char -> bool, n: nat, l: string, s: string, off: nat, i: nat, st: C.State, k: nat)
    requires PlainFrom(word, s, off + i, st.mode) && OneLine(l) && Within(l, s, off) && off + i <= k < |s| && i <= |l| + 1
    ensures
      var (cs, after) := C.ScanLine(n, l, i, st);
      if k < off + |l| then (MarkAt(word, s, off + i, st.mode, k).Comment? <==> Covers(cs, n, k - off))
      else i <= |l| ==> MarkAt(word, s, off + i, st.mode, k) == MarkAt(word, s, off + |l|, after.mode, k)
    decreases |l| + 1 - i
  {
    hide C.Step, LeapAt, MarkAt, PlainFrom, Within, OneLine;
    Fits(l, s, off);
    if i < |l| {
      var r := C.Step(n, l, i, st);
      var rest := C.ScanLine(n, l, r.next, r.state).0;
      RoundBounds(n, l, s, off, i, st);
      RoundPlain(word, n, l, s, off, i, st);
      RoundRead(word, n, l, s, off, i, st, k);
      CoversEither(C.Listed(r.found), rest, n, k - off);
      CoversOne(r.found, n, k - off);
      if k >= off + r.next {
        LineRead(word, n, l, s, off, r.next, r.state, k);
      } else {
        LineBounds(word, n, l, s, off, r.next, r.state);
        NotCoveredYet(rest, n, r.next, k - off);
      }
    }
  }

  // ------------------------------------------------------------- the agreement

  function Join(lines: seq<string>): string {
    if lines == [] then "" else lines[0] + Join(lines[1..])
  }

  /** Where line `n` starts. */
  function Offset(lines: seq<string>, n: nat): nat
    requires n <= |lines|
  {
    if n == 0 then 0 else |lines[0]| + Offset(lines[1..], n - 1)
  }

  ghost predicate Lines(lines: seq<string>) {
    forall n | 0 <= n < |lines| :: OneLine(lines[n]) && (n + 1 < |lines| ==> lines[n][|lines[n]|-1] == '\n')
  }

  lemma {:induction false} OffsetInside(lines: seq<string>, n: nat)
    requires n < |lines|
    ensures Offset(lines, n) + |lines[n]| <= |Join(lines)|
  {
    if n > 0 {
      OffsetInside(lines[1..], n - 1);
    }
  }

  lemma {:induction false} LaterLines(word: char -> bool, first: nat, lines: seq<string>, s: string, off: nat, st: C.State)
    requires PlainFrom(word, s, off, st.mode) && Lines(lines) && off <= |s| && s[off..] == Join(lines)
    ensures forall c <- C.ScanLines(first, lines, st) :: first <= c.line
    decreases |lines|
  {
    hide PlainFrom, C.ScanLine, OneLine, Within;
    if lines != [] {
      FirstLine(lines, s, off);
      var (found, after) := C.ScanLine(first, lines[0], 0, st);
      LineBounds(word, first, lines[0], s, off, 0, st);
      LaterLines(word, first + 1, lines[1..], s, off + |lines[0]|, after);
    }
  }

  lemma FirstLine(lines: seq<string>, s: string, off: nat)
    requires Lines(lines) && lines != [] && off <= |s| && s[off..] == Join(lines)
    ensures OneLine(lines[0]) && Within(lines[0], s, off) && Lines(lines[1..]) && s[off+|lines[0]|..] == Join(lines[1..])
  {
    var l := lines[0];
    assert s[off..][..|l|] == l && s[off..][|l|..] == Join(lines[1..]);
    assert s[off..off+|l|] == s[off..][..|l|];
    if |lines| == 1 {
      assert Join(lines[1..]) == "";
    }
  }

  lemma {:induction false} LinesRead(word: char -> bool, first: nat, lines: seq<string>, s: string, off: nat, st: C.State, n: nat, col: nat)
    requires PlainFrom(word, s, off, st.mode) && Lines(lines) && off <= |s| && s[off..] == Join(lines)
    requires n < |lines| && col < |lines[n]|
    ensures off + Offset(lines, n) + col < |s|
    ensures Covers(C.ScanLines(first, lines, st), first + n, col) <==> MarkAt(word, s, off, st.mode, off + Offset(lines, n) + col).Comment?
    decreases |lines|
  {
    hide C.ScanLine, MarkAt, PlainFrom;
    OffsetInside(lines, n);
    FirstLine(lines, s, off);
    var k := off + Offset(lines, n) + col;
    var (found, after) := C.ScanLine(first, lines[0], 0, st);
    HeadRead(word, first, lines[0], s, off, st, k);
    LaterLines(word, first + 1, lines[1..], s, off + |lines[0]|, after);
    CoversOneOf(found, C.ScanLines(first + 1, lines[1..], after), first, first + n, col);
    if n > 0 {
      LinesRead(word, first + 1, lines[1..], s, off + |lines[0]|, after, n - 1, col);
    }
  }

  lemma HeadRead(word: char -> bool, n: nat, l: string, s: string, off: nat, st: C.State, k: nat)
    requires PlainFrom(word, s, off, st.mode) && OneLine(l) && Within(l, s, off) && off <= k < |s|
    ensures
      var (cs, after) := C.ScanLine(n, l, 0, st);
      && PlainFrom(word, s, off + |l|, after.mode) && (forall c <- cs :: c.line == n)
      && if k < off + |l| then (MarkAt(word, s, off, st.mode, k).Comment? <==> Covers(cs, n, k - off))
         else MarkAt(word, s, off, st.mode, k) == MarkAt(word, s, off + |l|, after.mode, k)
  {
    LineBounds(word, n, l, s, off, 0, st);
    LineRead(word, n, l, s, off, 0, st, k);
  }

  /** A line is covered by its own comments only. */
  lemma CoversOneOf(found: seq<C.Comment>, rest: seq<C.Comment>, first: nat, n: nat, col: nat)
    requires first <= n && (forall c <- found :: c.line == first) && forall c <- rest :: first + 1 <= c.line
    ensures Covers(found + rest, n, col) <==> if n == first then Covers(found, n, col) else Covers(rest, n, col)
  {
    CoversEither(found, rest, n, col);
    if n == first {
      NotOnLine(rest, n, col);
    } else {
      NotOnLine(found, n, col);
    }
  }

  lemma {:induction false} NotOnLine(cs: seq<C.Comment>, n: nat, col: nat)
    requires forall c <- cs :: c.line != n
    ensures !Covers(cs, n, col)
  {
    if cs != [] {
      NotOnLine(cs[1..], n, col);
    }
  }

  /** On a source that the whole-file scanner accepts, and in whose code each quote
      opens a character literal or stands alone, and no raw string is opened that
      only one scanner would open, the characters it blanks as comment are exactly
      those the line scanner reports, line by line and column by column. */
  lemma ScannersAgree(word: char -> bool, lines: seq<string>, n: nat, col: nat)
    requires Lines(lines) && Plain(word, Join(lines)) && T.Structural(word, Join(lines)).Some?
    requires n < |lines| && col < |lines[n]|
    ensures Offset(lines, n) + col < |Join(lines)|
    ensures Covers(C.ScanLines(1, lines, C.START), n + 1, col) <==>
            T.Marks(word, Join(lines), 0).value[Offset(lines, n) + col].Comment?
  {
    hide C.ScanLine, C.ScanLines, T.Next, T.Marks, LeapAt, PlainFrom, MarkAt, T.Paint, Lines, OneLine;
    var s := Join(lines);
    assert s[0..] == s;
    LinesRead(word, 1, lines, s, 0, C.START, n, col);
    WholeFileRead(word, s, 0, Offset(lines, n) + col);
  }

  lemma CodeStep(word: char -> bool, s: string, i: nat)
    requires i < |s| && s[i] !in "'/r" && ((s[i] == 'b' || s[i] == 'c') && i + 1 < |s| ==> s[i+1] != 'r')
    ensures PlainFrom(word, s, i, C.Code) <==> PlainFrom(word, s, i + 1, if s[i] == '"' then C.InString else C.Code)
  {
  }

  lemma StringStep(word: char -> bool, s: string, i: nat)
    requires i < |s| && s[i] != '\\'
    ensures PlainFrom(word, s, i, C.InString) <==> PlainFrom(word, s, i + 1, if s[i] == '"' then C.Code else C.InString)
  {
  }

  lemma {:induction false} CodeRun(word: char -> bool, s: string, i: nat, j: nat)
    requires i <= j <= |s| && (forall k | i <= k < j :: s[k] !in "'/r\"")
    requires 0 < j < |s| && (s[j-1] == 'b' || s[j-1] == 'c') ==> s[j] != 'r'
    ensures PlainFrom(word, s, i, C.Code) <==> PlainFrom(word, s, j, C.Code)
    decreases j - i
  {
    hide PlainFrom;
    if i < j {
      CodeStep(word, s, i);
      CodeRun(word, s, i + 1, j);
    }
  }

  lemma {:induction false} TextRun(word: char -> bool, s: string, i: nat, j: nat)
    requires i <= j <= |s| && forall k | i <= k < j :: s[k] !in "\\\""
    ensures PlainFrom(word, s, i, C.InString) <==> PlainFrom(word, s, j, C.InString)
    decreases j - i
  {
    hide PlainFrom;
    if i < j {
      StringStep(word, s, i);
      TextRun(word, s, i + 1, j);
    }
  }

  lemma NothingIsPlain(word: char -> bool, s: string)
    ensures PlainFrom(word, s, |s|, C.Code)
  {
  }

  /** What a string holds does not matter: it may end in `r`, and hold quotes of
      characters. */
  lemma StringsAreFree(word: char -> bool, before: string, text: string, after: string)
    requires (forall c <- before + after :: c !in "'/r\"") && forall c <- text :: c !in "\\\""
    ensures Plain(word, before + "\"" + text + "\"" + after)
  {
    hide PlainFrom, LeapAt;
    var s := before + "\"" + text + "\"" + after;
    var i := |before|;
    var j := i + 1 + |text|;
    NothingIsPlain(word, s);
    assert s[i] == '"' == s[j];
    forall k | 0 <= k < i ensures s[k] !in "'/r\"" {
      assert s[k] == (before + after)[k];
    }
    forall k | i < k < j ensures s[k] !in "\\\"" {
      assert s[k] == text[k-i-1];
    }
    forall k | j < k < |s| ensures s[k] !in "'/r\"" {
      assert s[k] == (before + after)[k-j-1+i];
    }
    CodeRun(word, s, j + 1, |s|);
    StringStep(word, s, j);
    TextRun(word, s, i + 1, j);
    CodeStep(word, s, i);
    CodeRun(word, s, 0, i);
  }

  /** The two scanners find the same raw string at a plain `r`. */
  lemma BothOpen(word: char -> bool, s: string, i: nat, h: nat)
    requires RawOpens(word, s, i, 1, h)
    ensures T.RawOpener(word, s, i) == Some((h, i + h + 2)) == C.Opener(s, i)
    ensures LeapAt(word, s, i, C.Code) == Leap(h + 2, T.Literal, C.Raw(h))
  {
    RawOpenerMeans(word, s, i, 1, h);
    RawOpensNoComment(word, s, i, 1, h);
    hide CharLiteral;
    assert s[i+1] == if h == 0 then '"' else '#';
  }

  lemma RawAdmitted(word: char -> bool, s: string, i: nat, h: nat, c: nat)
    requires RawOpens(word, s, i, 1, h) && i + h + 2 <= c && RawCloses(s, c, h) && c + h < |s|
    requires forall a | i + h + 2 <= a < c :: !RawCloses(s, a, h)
    requires (forall k | 0 <= k < i :: s[k] !in "'/r\"") && (forall k | c + h < k < |s| :: s[k] !in "'/r\"")
    requires i > 0 ==> s[i-1] != 'b' && s[i-1] != 'c'
    requires c + h + 1 < |s| ==> s[c+h] != 'b' && s[c+h] != 'c'
    ensures Plain(word, s)
  {
    hide PlainFrom, LeapAt, RawCloses;
    NothingIsPlain(word, s);
    CodeRun(word, s, c + h + 1, |s|);
    RawClosed(word, s, c, h);
    RawPlain(word, s, i + h + 2, c, h);
    RawOpened(word, s, i, h);
    CodeRun(word, s, 0, i);
  }

  /** Raw strings are admitted, whatever they hold: quotes, too, as long as no hash
      follows them. */
  lemma RawStringsAreFree(word: char -> bool, before: string, h: nat, text: string, after: string)
    requires (forall c <- before + after :: c !in "'/r\"") && h <= 255
    requires before == "" || (!word(before[|before|-1]) && before[|before|-1] != 'b' && before[|before|-1] != 'c')
    requires forall k | 0 <= k < |text| && text[k] == '"' :: h > 0 && k + 1 < |text| && text[k+1] != '#'
    ensures
      var hashes := seq(h, _ => '#');
      Plain(word, before + "r" + hashes + "\"" + text + "\"" + hashes + after)
  {
    hide Plain, RawCloses, RawOpens;
    var hashes := seq(h, _ => '#');
    var s := before + "r" + hashes + "\"" + text + "\"" + hashes + after;
    RawParts(before, h, text, after);
    FreeEnds(word, before, h, text, after);
    RawAdmitted(word, s, |before|, h, |before| + h + 2 + |text|);
  }

  lemma RawClosed(word: char -> bool, s: string, c: nat, h: nat)
    requires c < |s| && RawCloses(s, c, h) && PlainFrom(word, s, c + h + 1, C.Code)
    ensures PlainFrom(word, s, c, C.Raw(h))
  {
    hide LeapAt;
    RawLeap(word, s, c, h);
  }

  lemma RawOpened(word: char -> bool, s: string, i: nat, h: nat)
    requires RawOpens(word, s, i, 1, h) && PlainFrom(word, s, i + h + 2, C.Raw(h))
    ensures PlainFrom(word, s, i, C.Code)
  {
    hide LeapAt;
    BothOpen(word, s, i, h);
  }

  /** Where its parts stand. */
  lemma RawParts(before: string, h: nat, text: string, after: string)
    ensures
      var hashes := seq(h, _ => '#');
      var s := before + "r" + hashes + "\"" + text + "\"" + hashes + after;
      var i, open := |before|, |before| + h + 2;
      var c := open + |text|;
      && |s| == c + h + 1 + |after| && s[i] == 'r' && s[open-1] == '"' && s[c] == '"'
      && (forall k | 0 <= k < i :: s[k] == before[k]) && (forall k | i < k < open - 1 :: s[k] == '#')
      && (forall k | open <= k < c :: s[k] == text[k-open]) && (forall k | c < k <= c + h :: s[k] == '#')
      && forall k | c + h < k < |s| :: s[k] == after[k-c-h-1]
  {
  }

  lemma FreeEnds(word: char -> bool, before: string, h: nat, text: string, after: string)
    requires (forall c <- before + after :: c !in "'/r\"") && h <= 255
    requires before == "" || (!word(before[|before|-1]) && before[|before|-1] != 'b' && before[|before|-1] != 'c')
    requires forall k | 0 <= k < |text| && text[k] == '"' :: h > 0 && k + 1 < |text| && text[k+1] != '#'
    ensures
      var hashes := seq(h, _ => '#');
      var s := before + "r" + hashes + "\"" + text + "\"" + hashes + after;
      var i, open := |before|, |before| + h + 2;
      var c := open + |text|;
      && RawOpens(word, s, i, 1, h) && RawCloses(s, c, h) && (forall a | open <= a < c :: !RawCloses(s, a, h))
      && (forall k | 0 <= k < i :: s[k] !in "'/r\"") && (forall k | c + h < k < |s| :: s[k] !in "'/r\"")
  {
    RawParts(before, h, text, after);
    var hashes := seq(h, _ => '#');
    var s := before + "r" + hashes + "\"" + text + "\"" + hashes + after;
    var i, open := |before|, |before| + h + 2;
    var c := open + |text|;
    forall a | open <= a < c ensures !RawCloses(s, a, h) {
      if s[a] == '"' {
        assert text[a-open] == '"' && s[a+1] == text[a-open+1];
      }
    }
    forall k | 0 <= k < i ensures s[k] !in "'/r\"" {
      assert s[k] == (before + after)[k];
    }
    forall k | c + h < k < |s| ensures s[k] !in "'/r\"" {
      assert s[k] == (before + after)[i+k-c-h-1];
    }
  }
}
