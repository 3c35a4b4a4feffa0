/** What each character of a Rust source is, read one or a few at a time; the
    whole-file scanner finds exactly that. */
module RustReading {
  import opened Options
  import opened Characters
  import opened RustLexemes
  import T = RustText
  import C = RustComments

  // ------------------------------------------------------------- the reference

  /** The next characters that are read as one: how many, what they are, and what
      is open after them. */
  datatype Leap = Leap(length: nat, mark: T.Mark, mode: C.Mode)

  /** A quote and `h` hashes: the end of a raw string that was opened with as many. */
  predicate RawCloses(s: string, i: nat, h: nat) {
    i + h < |s| && s[i] == '"' && forall j | i < j <= i + h :: s[j] == '#'
  }

  /** A raw string is opened at `i`, by a prefix of `p` characters, `h` hashes and a
      quote; the prefix does not continue a word. */
  predicate RawOpens(word: char -> bool, s: string, i: nat, p: nat, h: nat) {
    && i + p + h < |s| && h <= 255 && (i == 0 || !word(s[i-1]))
    && ((p == 1 && s[i] == 'r') || (p == 2 && (s[i] == 'b' || s[i] == 'c') && s[i+1] == 'r'))
    && s[i+p+h] == '"' && forall j | i + p <= j < i + p + h :: s[j] == '#'
  }

  function LeapAt(word: char -> bool, s: string, i: nat, m: C.Mode): (r: Leap)
    requires i < |s|
    ensures 1 <= r.length <= |s| - i
  {
    match m
    case Block(depth) =>
      var (next, deeper) := BlockNext(s, i, depth);
      Leap(next - i, T.Comment, Opened(deeper))
    case InString =>
      if s[i] == '\\' && i + 1 < |s| then Leap(2, T.Literal, m)
      else Leap(1, T.Literal, if s[i] == '"' then C.Code else m)
    case Raw(h) =>
      if RawCloses(s, i, h) then Leap(1 + h, T.Literal, C.Code) else Leap(1, T.Literal, m)
    case Code => CodeLeap(word, s, i)
  }

  function CodeLeap(word: char -> bool, s: string, i: nat): (r: Leap)
    requires i < |s|
    ensures 1 <= r.length <= |s| - i
  {
    if Pair(s, i, '/', '/') then Leap(FindChar(s, '\n', i + 2) - i, T.Comment, C.Code)
    else if Pair(s, i, '/', '*') then Leap(2, T.Comment, C.Block(1))
    else match T.RawOpener(word, s, i)
      case Some((h, open)) => Leap(open - i, T.Literal, C.Raw(h))
      case None =>
        if s[i] == '"' then Leap(1, T.Literal, C.InString)
        else match CharLiteral(s, i)
          case Some(end) => Leap(end - i, T.Literal, C.Code)
          case None => Leap(1, T.Kept, C.Code)
  }

  /** What the character at `k` is, for a reader who stands at `i` with `m` open. */
  function MarkAt(word: char -> bool, s: string, i: nat, m: C.Mode, k: nat): T.Mark
    requires i <= k < |s|
    decreases |s| - i
  {
    var leap := LeapAt(word, s, i, m);
    if k < i + leap.length then leap.mark else MarkAt(word, s, i + leap.length, leap.mode, k)
  }

  function Opened(depth: nat): C.Mode {
    if depth == 0 then C.Code else C.Block(depth)
  }

  /** No quote follows on the line within twelve characters. */
  predicate Lone(s: string, i: nat) {
    forall j | i < j <= i + 12 && j < |s| && (forall k | i <= k < j :: NoBreak(s[k])) :: s[j] != '\''
  }

  predicate NoBreak(c: char) {
    c != '\n'
  }

  /** Where the reader finds code, the two scanners agree on whether a raw string is
      opened, and a quote opens a character literal or stands alone: they read those
      by different rules. Inside a string or a comment nothing is forbidden. */
  ghost predicate PlainFrom(word: char -> bool, s: string, i: nat, m: C.Mode)
    decreases |s| - i
  {
    i >= |s| || (
      var leap := LeapAt(word, s, i, m);
      (m.Code? ==> (s[i] == '\'' ==> CharLiteral(s, i).Some? || Lone(s, i)) && T.RawOpener(word, s, i) == C.Opener(s, i))
      && PlainFrom(word, s, i + leap.length, leap.mode))
  }

  ghost predicate Plain(word: char -> bool, s: string) {
    PlainFrom(word, s, 0, C.Code)
  }

  // ------------------------------------------------------------- raw strings

  lemma {:induction false} HashesMean(s: string, i: nat, h: nat)
    requires i + h <= |s| && (forall j | i <= j < i + h :: s[j] == '#') && (i + h < |s| ==> s[i+h] != '#')
    ensures Hashes(s, i) == h
    decreases h
  {
    if h > 0 {
      HashesMean(s, i + 1, h - 1);
    }
  }

  /** The pattern finds exactly the openers. */
  lemma RawOpenerMeans(word: char -> bool, s: string, i: nat, p: nat, h: nat)
    requires i < |s|
    ensures T.RawOpener(word, s, i) == Some((h, i + p + h + 1)) <==> RawOpens(word, s, i, p, h)
  {
    var q := if Pair(s, i, 'b', 'r') || Pair(s, i, 'c', 'r') then 2 else if s[i] == 'r' then 1 else 0;
    if RawOpens(word, s, i, p, h) {
      assert p == q;
      HashesMean(s, i + p, h);
    }
    if q > 0 && RawQuote(s, i + q).Some? {
      assert RawQuote(s, i + q).value == Hashes(s, i + q);
    }
  }

  lemma TerminatorMeans(s: string, i: nat, h: nat)
    requires i <= |s|
    ensures At(s, i, "\"" + seq(h, _ => '#')) <==> RawCloses(s, i, h)
  {
    var t := "\"" + seq(h, _ => '#');
    assert |t| == h + 1 && t[0] == '"' && forall j | 0 < j <= h :: t[j] == '#';
    if At(s, i, t) {
      forall j | i <= j <= i + h ensures s[j] == t[j-i] {
        assert s[i..i+|t|][j-i] == s[j];
      }
    }
    if RawCloses(s, i, h) {
      assert s[i..i+|t|] == t;
    }
  }

  /** A raw string ends behind the first quote with as many hashes as opened it. */
  lemma RawStringEnds(word: char -> bool, s: string, i: nat, p: nat, h: nat)
    requires RawOpens(word, s, i, p, h)
    ensures
      var open := i + p + h + 1;
      match T.Next(word, s, i)
      case Keep => false
      case Unterminated => forall j | open <= j :: !RawCloses(s, j, h)
      case Blank(end, comment) =>
        !comment && open + h + 1 <= end <= |s| && RawCloses(s, end - h - 1, h) && forall j | open <= j < end - h - 1 :: !RawCloses(s, j, h)
  {
    hide RawOpens, T.RawOpener, CharLiteral, T.StringEnd;
    RawOpensNoComment(word, s, i, p, h);
    RawOpenerMeans(word, s, i, p, h);
    var open := i + p + h + 1;
    var t := "\"" + seq(h, _ => '#');
    var c := Find(s, t, open);
    TerminatorMeans(s, c, h);
    forall j | open <= j < c ensures !RawCloses(s, j, h) {
      TerminatorMeans(s, j, h);
    }
  }

  lemma RawOpensNoComment(word: char -> bool, s: string, i: nat, p: nat, h: nat)
    requires RawOpens(word, s, i, p, h)
    ensures i < |s| && !Pair(s, i, '/', '/') && !Pair(s, i, '/', '*')
  {
  }

  // ------------------------------------------------------------- character literals

  predicate HexRun(s: string, i: nat, n: nat) {
    i + n <= |s| && forall j | i <= j < i + n :: Hex(s[j]) || s[j] == '_'
  }

  /** What may stand between the quotes of a character literal: one character, an
      escape, two hexadecimal digits, or up to six in braces. */
  ghost predicate CharText(s: string, i: nat, e: nat)
    requires i <= e <= |s|
  {
    || (e == i + 1 && s[i] != '\\' && s[i] != '\'' && s[i] != '\n')
    || (e == i + 2 && s[i] == '\\' && s[i+1] in "nrt0\\'\"")
    || (e == i + 4 && s[i] == '\\' && s[i+1] == 'x' && Hex(s[i+2]) && Hex(s[i+3]))
    || (5 <= e - i <= 10 && s[i] == '\\' && s[i+1] == 'u' && s[i+2] == '{' && s[e-1] == '}' && HexRun(s, i + 3, e - i - 4))
  }

  /** A character literal from `i` up to `e`. */
  ghost predicate CharAt(s: string, i: nat, e: nat) {
    i + 2 < e <= |s| && s[i] == '\'' && s[e-1] == '\'' && CharText(s, i + 1, e - 1)
  }

  lemma BraceIsNoDigit(s: string, i: nat, n: nat)
    requires n > 1 && i + 1 < |s| && s[i+1] == '}'
    ensures !HexRun(s, i, n)
  {
    assert !Hex('}');
  }

  lemma {:induction false} UnicodeTailMeans(s: string, i: nat, n: nat, e: nat)
    requires i <= |s|
    ensures UnicodeTail(s, i, n) == Some(e) <==>
              i + 3 <= e <= |s| && e - i - 2 <= n && HexRun(s, i, e - i - 2) && Pair(s, e - 2, '}', '\'')
    decreases n
  {
    if n > 0 && i < |s| && (Hex(s[i]) || s[i] == '_') {
      UnicodeTailMeans(s, i + 1, n - 1, e);
      if Pair(s, i + 1, '}', '\'') && e > i + 3 {
        BraceIsNoDigit(s, i, e - i - 2);
      }
      assert e >= i + 4 && HexRun(s, i + 1, e - i - 3) ==> HexRun(s, i, e - i - 2);
    }
  }

  /** The pattern finds exactly the character literals. */
  lemma CharLiteralMeans(s: string, i: nat, e: nat)
    requires i < |s|
    ensures CharLiteral(s, i) == Some(e) <==> CharAt(s, i, e)
  {
    if s[i] == '\'' && i + 4 <= |s| && s[i+1] == '\\' && s[i+2] == 'u' && s[i+3] == '{' {
      UnicodeTailMeans(s, i + 4, 6, e);
    }
  }

  // ------------------------------------------------------------- stretches of text

  /** `l` stands in `s` at `off`, up to a line break or the end. */
  ghost predicate Within(l: string, s: string, off: nat) {
    && off + |l| <= |s| && s[off..off+|l|] == l
    && (off + |l| == |s| || (l != [] && l[|l|-1] == '\n'))
  }

  /** No comment delimiter straddles the end of `l`. */
  lemma PairsAgree(l: string, s: string, off: nat, i: nat)
    requires Within(l, s, off) && i < |l|
    ensures s[off+i] == l[i]
    ensures Pair(l, i, '/', '*') <==> Pair(s, off + i, '/', '*')
    ensures Pair(l, i, '*', '/') <==> Pair(s, off + i, '*', '/')
    ensures Pair(l, i, '/', '/') <==> Pair(s, off + i, '/', '/')
  {
    assert s[off+i] == l[i];
    if i + 1 < |l| {
      assert s[off+i+1] == l[i+1];
    }
  }

  lemma BlocksAgree(word: char -> bool, l: string, s: string, off: nat, i: nat, depth: C.Depth)
    requires Within(l, s, off) && i < |l|
    ensures
      var (next, deeper) := BlockNext(l, i, depth);
      LeapAt(word, s, off + i, C.Block(depth)) == Leap(next - i, T.Comment, Opened(deeper))
  {
    hide CodeLeap;
    PairsAgree(l, s, off, i);
  }

  /** What a run through a block comment covers is comment. */
  lemma {:induction false} BlockRead(word: char -> bool, l: string, s: string, off: nat, i: nat, depth: C.Depth, k: nat)
    requires Within(l, s, off) && i <= |l| && off + i <= k < |s|
    ensures
      var (end, left) := BlockRun(l, i, depth);
      MarkAt(word, s, off + i, C.Block(depth), k) == if k < off + end then T.Comment else MarkAt(word, s, off + end, Opened(left), k)
    decreases |l| - i
  {
    hide LeapAt, BlockNext;
    if i < |l| {
      BlocksAgree(word, l, s, off, i, depth);
      var (next, deeper) := BlockNext(l, i, depth);
      if k >= off + next && deeper > 0 {
        BlockRead(word, l, s, off, next, deeper, k);
      }
    }
  }

  lemma {:induction false} BlockPlain(word: char -> bool, l: string, s: string, off: nat, i: nat, depth: C.Depth)
    requires Within(l, s, off) && i <= |l| && PlainFrom(word, s, off + i, C.Block(depth))
    ensures var (end, left) := BlockRun(l, i, depth); PlainFrom(word, s, off + end, Opened(left))
    decreases |l| - i
  {
    hide LeapAt, BlockNext;
    if i < |l| {
      BlocksAgree(word, l, s, off, i, depth);
      var (next, deeper) := BlockNext(l, i, depth);
      if deeper > 0 {
        BlockPlain(word, l, s, off, next, deeper);
      }
    }
  }

  /** What is read inside a string. */
  lemma StringLeap(word: char -> bool, s: string, i: nat)
    requires i < |s|
    ensures LeapAt(word, s, i, C.InString) ==
            if s[i] == '\\' && i + 1 < |s| then Leap(2, T.Literal, C.InString)
            else Leap(1, T.Literal, if s[i] == '"' then C.Code else C.InString)
  {
    hide CodeLeap;
  }

  lemma RawLeap(word: char -> bool, s: string, i: nat, h: nat)
    requires i < |s|
    ensures LeapAt(word, s, i, C.Raw(h)) == if RawCloses(s, i, h) then Leap(1 + h, T.Literal, C.Code) else Leap(1, T.Literal, C.Raw(h))
  {
    hide CodeLeap;
  }

  /** The whole-file scanner's reading of a string. */
  lemma {:induction false} StringEndRead(word: char -> bool, s: string, i: nat, k: nat)
    requires i <= k < |s|
    ensures
      var end := T.StringEnd(s, i, false);
      MarkAt(word, s, i, C.InString, k) == if k < end then T.Literal else MarkAt(word, s, end, C.Code, k)
    decreases |s| - i
  {
    hide LeapAt;
    StringLeap(word, s, i);
    if s[i] == '\\' {
      if i + 1 < |s| {
        assert T.StringEnd(s, i + 1, true) == T.StringEnd(s, i + 2, false);
        if k >= i + 2 {
          StringEndRead(word, s, i + 2, k);
        }
      }
    } else if s[i] != '"' && k > i {
      StringEndRead(word, s, i + 1, k);
    }
  }

  /** A stretch of a raw string up to where it closes. */
  lemma {:induction false} RawRead(word: char -> bool, s: string, i: nat, c: nat, h: nat, k: nat)
    requires i <= c <= |s| && i <= k < |s| && (forall j | i <= j < c :: !RawCloses(s, j, h)) && (c < |s| ==> RawCloses(s, c, h))
    ensures MarkAt(word, s, i, C.Raw(h), k) == if c == |s| || k <= c + h then T.Literal else MarkAt(word, s, c + h + 1, C.Code, k)
    decreases c - i
  {
    hide LeapAt, RawCloses;
    RawLeap(word, s, i, h);
    if i < c && k > i {
      RawRead(word, s, i + 1, c, h, k);
    } else if i == c {
      RawClosesInside(s, i, h);
    }
  }

  lemma RawClosesInside(s: string, i: nat, h: nat)
    requires RawCloses(s, i, h)
    ensures i + h < |s|
  {
  }

  // ------------------------------------------------------------- the whole-file scanner

  /** The mark of a character, read off the token it belongs to. */
  lemma MarkOfKept(word: char -> bool, s: string, i: nat)
    requires i < |s| && T.Marks(word, s, i).Some? && T.Next(word, s, i).Keep?
    ensures T.Marks(word, s, i + 1).Some? && T.Marks(word, s, i).value[0].Kept?
    ensures T.Marks(word, s, i).value[1..] == T.Marks(word, s, i + 1).value
  {
  }

  lemma MarkOfBlank(word: char -> bool, s: string, i: nat)
    requires i < |s| && T.Marks(word, s, i).Some? && T.Next(word, s, i).Blank?
    ensures
      var t := T.Next(word, s, i);
      && T.Marks(word, s, t.end).Some?
      && (forall k | 0 <= k < t.end - i :: T.Marks(word, s, i).value[k] == if t.comment then T.Comment else T.Literal)
      && T.Marks(word, s, i).value[t.end-i..] == T.Marks(word, s, t.end).value
  {
  }

  lemma MarksGoOn(word: char -> bool, s: string, i: nat)
    requires i < |s| && T.Marks(word, s, i).Some?
    ensures !T.Next(word, s, i).Unterminated?
  {
    hide T.Next;
  }

  /** On every source that it accepts the whole-file scanner marks each character
      as what the reading says it is. */
  lemma {:induction false} WholeFileRead(word: char -> bool, s: string, i: nat, k: nat)
    requires i <= k < |s| && T.Marks(word, s, i).Some?
    ensures T.Marks(word, s, i).value[k-i] == MarkAt(word, s, i, C.Code, k)
    decreases |s| - i
  {
    hide T.Next, T.Marks, LeapAt;
    var token := T.Next(word, s, i);
    assert token.Keep? || token.Blank? by { MarksGoOn(word, s, i); }
    if token.Keep? {
      MarkOfKept(word, s, i);
      KeepRead(word, s, i);
      if k > i {
        WholeFileRead(word, s, i + 1, k);
      }
    } else {
      MarkOfBlank(word, s, i);
      BlankRead(word, s, i, k);
      if k >= token.end {
        WholeFileRead(word, s, token.end, k);
      }
    }
  }

  lemma KeepRead(word: char -> bool, s: string, i: nat)
    requires i < |s| && T.Next(word, s, i).Keep?
    ensures LeapAt(word, s, i, C.Code) == Leap(1, T.Kept, C.Code)
  {
  }

  lemma BlankRead(word: char -> bool, s: string, i: nat, k: nat)
    requires i <= k < |s| && T.Next(word, s, i).Blank?
    ensures
      var t := T.Next(word, s, i);
      MarkAt(word, s, i, C.Code, k) ==
        if k < t.end then (if t.comment then T.Comment else T.Literal) else MarkAt(word, s, t.end, C.Code, k)
  {
    hide T.RawOpener, T.StringEnd, CharLiteral, BlockRun, LeapAt;
    CodeIs(word, s, i);
    if Pair(s, i, '/', '/') {
    } else if Pair(s, i, '/', '*') {
      if k >= i + 2 {
        BlockRead(word, s, s, 0, i + 2, 1, k);
      }
    } else if T.RawOpener(word, s, i).Some? {
      RawBlankRead(word, s, i, k);
    } else if s[i] == '"' && k > i {
      StringEndRead(word, s, i + 1, k);
    }
  }

  lemma CodeIs(word: char -> bool, s: string, i: nat)
    requires i < |s|
    ensures LeapAt(word, s, i, C.Code) == CodeLeap(word, s, i)
  {
  }

  lemma RawBlankRead(word: char -> bool, s: string, i: nat, k: nat)
    requires i <= k < |s| && T.Next(word, s, i).Blank? && T.RawOpener(word, s, i).Some? && !Pair(s, i, '/', '/') && !Pair(s, i, '/', '*')
    ensures
      var t := T.Next(word, s, i);
      !t.comment && MarkAt(word, s, i, C.Code, k) == if k < t.end then T.Literal else MarkAt(word, s, t.end, C.Code, k)
  {
    hide T.RawOpener, LeapAt, CharLiteral;
    CodeIs(word, s, i);
    var (h, open) := T.RawOpener(word, s, i).value;
    var c := Find(s, "\"" + seq(h, _ => '#'), open);
    TerminatorMeans(s, c, h);
    forall j | open <= j < c ensures !RawCloses(s, j, h) {
      TerminatorMeans(s, j, h);
    }
    if k >= open {
      RawRead(word, s, open, c, h, k);
    }
  }

  // ------------------------------------------------------------- what is accepted

  /** What is open at the end, for a reader who stands at `i` with `m` open. */
  function EndMode(word: char -> bool, s: string, i: nat, m: C.Mode): C.Mode
    decreases |s| - i
  {
    if i >= |s| then m else
      var leap := LeapAt(word, s, i, m);
      EndMode(word, s, i + leap.length, leap.mode)
  }

  /** Nothing is open at the end, or a string whose last character is a quote. */
  predicate EndsWell(s: string, m: C.Mode) {
    m.Code? || (m.InString? && s != "" && s[|s|-1] == '"')
  }

  lemma {:induction false} BlockEnds(word: char -> bool, s: string, i: nat, depth: C.Depth)
    requires i <= |s|
    ensures var (end, left) := BlockRun(s, i, depth); EndMode(word, s, i, C.Block(depth)) == EndMode(word, s, end, Opened(left))
    decreases |s| - i
  {
    hide LeapAt, BlockNext;
    if i < |s| {
      BlocksAgree(word, s, s, 0, i, depth);
      var (next, deeper) := BlockNext(s, i, depth);
      if deeper > 0 {
        BlockEnds(word, s, next, deeper);
      }
    }
  }

  lemma {:induction false} StringEnds(word: char -> bool, s: string, i: nat)
    requires 0 < i <= |s| && (i == |s| ==> s[i-1] == '"')
    ensures
      var end, m := T.StringEnd(s, i, false), EndMode(word, s, i, C.InString);
      && end > 0 && if end < |s| then m == EndMode(word, s, end, C.Code) && s[end-1] == '"' else EndsWell(s, m) <==> s[end-1] == '"'
    decreases |s| - i
  {
    hide LeapAt;
    if i < |s| {
      StringLeap(word, s, i);
      if s[i] == '\\' {
        if i + 1 < |s| {
          assert T.StringEnd(s, i + 1, true) == T.StringEnd(s, i + 2, false);
          if i + 2 < |s| || s[i+1] == '"' {
            StringEnds(word, s, i + 2);
          }
        }
      } else if s[i] != '"' {
        if i + 1 < |s| {
          StringEnds(word, s, i + 1);
        }
      }
    }
  }

  lemma {:induction false} RawEnds(word: char -> bool, s: string, i: nat, c: nat, h: nat)
    requires i <= c <= |s| && (forall j | i <= j < c :: !RawCloses(s, j, h)) && (c < |s| ==> RawCloses(s, c, h))
    ensures EndMode(word, s, i, C.Raw(h)) == if c == |s| then C.Raw(h) else EndMode(word, s, c + h + 1, C.Code)
    decreases c - i
  {
    hide LeapAt, RawCloses;
    if i < |s| {
      RawLeap(word, s, i, h);
      if i < c {
        RawEnds(word, s, i + 1, c, h);
      }
    }
  }

  lemma TokenEnds(word: char -> bool, s: string, i: nat)
    requires i < |s|
    ensures
      var m := EndMode(word, s, i, C.Code);
      match T.Next(word, s, i)
      case Keep => m == EndMode(word, s, i + 1, C.Code)
      case Blank(end, _) => EndsWell(s, m) <==> EndsWell(s, EndMode(word, s, end, C.Code))
      case Unterminated => !EndsWell(s, m)
  {
    hide T.RawOpener, T.StringEnd, CharLiteral, BlockRun, LeapAt;
    CodeIs(word, s, i);
    if Pair(s, i, '/', '/') {
    } else if Pair(s, i, '/', '*') {
      BlockEnds(word, s, i + 2, 1);
    } else if T.RawOpener(word, s, i).Some? {
      RawTokenEnds(word, s, i);
    } else if s[i] == '"' {
      StringEnds(word, s, i + 1);
    }
  }

  lemma RawTokenEnds(word: char -> bool, s: string, i: nat)
    requires i < |s| && T.RawOpener(word, s, i).Some? && !Pair(s, i, '/', '/') && !Pair(s, i, '/', '*')
    ensures
      var m := EndMode(word, s, i, C.Code);
      match T.Next(word, s, i)
      case Keep => false
      case Blank(end, _) => m == EndMode(word, s, end, C.Code)
      case Unterminated => m.Raw?
  {
    hide T.RawOpener, LeapAt, CharLiteral;
    CodeIs(word, s, i);
    var (h, open) := T.RawOpener(word, s, i).value;
    var c := Find(s, "\"" + seq(h, _ => '#'), open);
    TerminatorMeans(s, c, h);
    forall j | open <= j < c ensures !RawCloses(s, j, h) {
      TerminatorMeans(s, j, h);
    }
    RawEnds(word, s, open, c, h);
  }

  /** The whole-file scanner accepts exactly the sources at whose end the reading
      leaves nothing open; a string that is open there passes, as in the program,
      when the last character is a quote. */
  lemma {:induction false} AcceptedMeans(word: char -> bool, s: string, i: nat)
    requires i <= |s|
    ensures T.Marks(word, s, i).Some? <==> EndsWell(s, EndMode(word, s, i, C.Code))
    decreases |s| - i
  {
    hide T.Next, LeapAt, EndsWell;
    if i == |s| {
      assert EndsWell(s, C.Code) by { NothingOpen(s); }
    } else {
      TokenEnds(word, s, i);
      match T.Next(word, s, i)
      case Keep => AcceptedMeans(word, s, i + 1);
      case Blank(end, _) => AcceptedMeans(word, s, end);
      case Unterminated =>
    }
  }

  lemma NothingOpen(s: string)
    ensures EndsWell(s, C.Code)
  {
  }
}
