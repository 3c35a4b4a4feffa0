/** `rust_structural_text`: blank the comments and literals of a Rust source,
    keeping every other character, and every line break, where it is. */
module RustText {
  import opened Characters
  import opened Options
  import opened RustLexemes

  /** What the scanner does at one position. `Blank` runs up to `end`. */
  datatype Token = Keep | Blank(end: nat, comment: bool) | Unterminated

  datatype Mark = Kept | Comment | Literal

  /** Where a string opened before `i` ends: after its closing quote, or at the
      end of the source. */
  function StringEnd(s: string, i: nat, escaped: bool): (r: nat)
    requires i <= |s|
    ensures i <= r <= |s|
    decreases |s| - i
  {
    if i == |s| then i
    else if escaped then StringEnd(s, i + 1, false)
    else if s[i] == '\\' then StringEnd(s, i + 1, true)
    else if s[i] == '"' then i + 1
    else StringEnd(s, i + 1, false)
  }

  /** `(br|cr|r)#{0,255}"` at `i`, not preceded by a word character: the number
      of hashes and the index after the quote. */
  function RawOpener(word: char -> bool, s: string, i: nat): (r: Option<(nat, nat)>)
    requires i < |s|
    ensures r.Some? ==> i < r.value.1 <= |s|
  {
    var p := if Pair(s, i, 'b', 'r') || Pair(s, i, 'c', 'r') then 2 else if s[i] == 'r' then 1 else 0;
    if p == 0 || (i > 0 && word(s[i-1])) then None
    else match RawQuote(s, i + p)
      case None => None
      case Some(h) => Some((h, i + p + h + 1))
  }

  function Next(word: char -> bool, s: string, i: nat): (t: Token)
    requires i < |s|
    ensures t.Blank? ==> i < t.end <= |s|
  {
    if Pair(s, i, '/', '/') then Blank(FindChar(s, '\n', i + 2), true)
    else if Pair(s, i, '/', '*') then
      var (end, depth) := BlockRun(s, i + 2, 1);
      if depth == 0 then Blank(end, true) else Unterminated
    else match RawOpener(word, s, i)
      case Some((hashes, open)) =>
        var terminator := "\"" + seq(hashes, _ => '#');
        var close := Find(s, terminator, open);
        if close < |s| then Blank(close + |terminator|, false) else Unterminated
      case None =>
        if s[i] == '"' then
          var end := StringEnd(s, i + 1, false);
          if s[end-1] == '"' then Blank(end, false) else Unterminated
        else match CharLiteral(s, i)
          case Some(end) => Blank(end, false)
          case None => Keep
  }

  /** What becomes of each character from `i` on; nothing when something is left open. */
  function Marks(word: char -> bool, s: string, i: nat): (r: Option<seq<Mark>>)
    requires i <= |s|
    ensures r.Some? ==> |r.value| == |s| - i
    decreases |s| - i
  {
    if i == |s| then Some([]) else
      match Next(word, s, i)
      case Unterminated => None
      case Keep => Prepend([Kept], Marks(word, s, i + 1))
      case Blank(end, comment) => Prepend(Run(if comment then Comment else Literal, end - i), Marks(word, s, end))
  }

  function Run<T>(m: T, n: nat): (r: seq<T>)
    ensures |r| == n && forall k | 0 <= k < n :: r[k] == m
  {
    seq(n, _ => m)
  }

  function Prepend<T>(front: seq<T>, rest: Option<seq<T>>): Option<seq<T>> {
    if rest.None? then None else Some(front + rest.value)
  }

  function Paint(c: char, m: Mark): char {
    if m.Kept? || c == '\n' || c == '\r' then c else ' '
  }

  function Painted(s: string, marks: seq<Mark>): (t: string)
    requires |marks| == |s|
    ensures |t| == |s| && forall k | 0 <= k < |s| :: t[k] == Paint(s[k], marks[k])
  {
    seq(|s|, k requires 0 <= k < |s| => Paint(s[k], marks[k]))
  }

  function Structural(word: char -> bool, s: string): Option<string> {
    match Marks(word, s, 0)
    case None => None
    case Some(marks) => Some(Painted(s, marks))
  }

  // ------------------------------------------------------------- what the marks say

  /** Position `k` is kept because the scanner stood on it and found nothing; or
      it lies in a blanked run of at least two characters, unless that run ends
      the source. */
  ghost predicate Explained(word: char -> bool, s: string, marks: seq<Mark>, k: nat)
    requires |marks| == |s| && k < |s|
  {
    if marks[k].Kept? then Next(word, s, k).Keep?
    else (k > 0 && !marks[k-1].Kept?) || k + 1 == |s| || !marks[k+1].Kept?
  }

  lemma ExplainedThroughout(word: char -> bool, s: string, k: nat)
    requires Structural(word, s).Some? && k < |s|
    ensures Explained(word, s, Marks(word, s, 0).value, k)
  {
    var marks := Marks(word, s, 0).value;
    assert marks == [] + marks;
    MarksExplained(word, s, 0, [], marks, k);
  }

  lemma {:induction false} MarksExplained(word: char -> bool, s: string, i: nat, front: seq<Mark>, marks: seq<Mark>, k: nat)
    requires i == |front| <= k < |s| && Marks(word, s, i).Some? && marks == front + Marks(word, s, i).value
    ensures |marks| == |s| && Explained(word, s, marks, k)
    decreases |s| - i
  {
    hide Next, Explained;
    match Next(word, s, i)
    case Keep =>
      assert marks == (front + [Kept]) + Marks(word, s, i + 1).value;
      if k > i {
        MarksExplained(word, s, i + 1, front + [Kept], marks, k);
      } else {
        KeptExplained(word, s, marks, k);
      }
    case Blank(end, comment) =>
      var run := Run(if comment then Comment else Literal, end - i);
      assert marks == (front + run) + Marks(word, s, end).value;
      BlankIsLong(word, s, i);
      if k >= end {
        MarksExplained(word, s, end, front + run, marks, k);
      } else {
        forall j | i <= j < end ensures !marks[j].Kept? {
          assert marks[j] == run[j-i];
        }
        RunExplained(word, s, marks, i, end, k);
      }
  }

  lemma KeptExplained(word: char -> bool, s: string, marks: seq<Mark>, k: nat)
    requires |marks| == |s| && k < |s| && Next(word, s, k).Keep? && marks[k].Kept?
    ensures Explained(word, s, marks, k)
  {
    hide Next;
  }

  lemma RunExplained(word: char -> bool, s: string, marks: seq<Mark>, i: nat, end: nat, k: nat)
    requires |marks| == |s| && i <= k < end <= |s| && (end >= i + 2 || end == |s|)
    requires forall j | i <= j < end :: !marks[j].Kept?
    ensures Explained(word, s, marks, k)
  {
    hide Next;
  }

  lemma BlankIsLong(word: char -> bool, s: string, i: nat)
    requires i < |s| && Next(word, s, i).Blank?
    ensures Next(word, s, i).end >= i + 2 || Next(word, s, i).end == |s|
  {
    if !Pair(s, i, '/', '/') && !Pair(s, i, '/', '*') && RawOpener(word, s, i).None? && s[i] == '"' && i + 1 < |s| {
      assert StringEnd(s, i + 1, false) >= i + 2;
    }
  }

  // ------------------------------------------------------------- the theorems

  /** Length and line breaks stay; every other character stays or becomes a space. */
  lemma StructuralKeepsPositions(word: char -> bool, s: string, k: nat)
    requires Structural(word, s).Some? && k < |s|
    ensures
      var t := Structural(word, s).value;
      && |t| == |s|
      && (t[k] == s[k] || (t[k] == ' ' && s[k] != '\n' && s[k] != '\r'))
      && (t[k] == '\n' <==> s[k] == '\n') && (t[k] == '\r' <==> s[k] == '\r')
  {
    var marks := Marks(word, s, 0).value;
    assert Painted(s, marks)[k] == Paint(s[k], marks[k]);
  }

  /** Whatever is left that is neither a space nor a line break was scanned as
      structure. */
  lemma VisibleIsStructure(word: char -> bool, s: string, k: nat)
    requires Structural(word, s).Some? && k < |s|
    ensures
      var t := Structural(word, s).value;
      |t| == |s| && (t[k] != ' ' && t[k] != '\n' && t[k] != '\r' ==> t[k] == s[k] && Next(word, s, k).Keep?)
  {
    ExplainedThroughout(word, s, k);
  }

  /** No quote and no comment opener is left. */
  lemma NothingOpens(word: char -> bool, s: string, k: nat)
    requires Structural(word, s).Some? && k < |s|
    ensures
      var t := Structural(word, s).value;
      |t| == |s| && t[k] != '"' && !Pair(t, k, '/', '/') && !Pair(t, k, '/', '*')
  {
    var t := Structural(word, s).value;
    StructuralLength(word, s);
    VisibleIsStructure(word, s, k);
    if k + 1 < |s| {
      VisibleIsStructure(word, s, k + 1);
    }
  }

  /** The result is structural text itself: blanking it again changes nothing. */
  lemma StructuralIsIdempotent(word: char -> bool, s: string)
    requires Structural(word, s).Some?
    ensures Structural(word, Structural(word, s).value) == Structural(word, s)
  {
    var t := Structural(word, s).value;
    StructuralLength(word, s);
    forall i | 0 <= i < |t| ensures Next(word, t, i).Keep? {
      NothingToBlank(word, s, i);
    }
    AllKept(word, t, 0);
    assert Painted(t, Run(Kept, |t|)) == t;
  }

  lemma StructuralLength(word: char -> bool, s: string)
    requires Structural(word, s).Some?
    ensures |Structural(word, s).value| == |s|
  {
  }

  lemma NothingToBlank(word: char -> bool, s: string, i: nat)
    requires Structural(word, s).Some? && i < |s|
    ensures |Structural(word, s).value| == |s| && Next(word, Structural(word, s).value, i).Keep?
  {
    var t := Structural(word, s).value;
    StructuralLength(word, s);
    NothingOpens(word, s, i);
    NoRawOpener(word, s, i);
    NoCharLiteral(word, s, i);
  }

  lemma NoRawOpener(word: char -> bool, s: string, i: nat)
    requires Structural(word, s).Some? && i < |s|
    ensures |Structural(word, s).value| == |s| && RawOpener(word, Structural(word, s).value, i).None?
  {
    var t := Structural(word, s).value;
    StructuralLength(word, s);
    if RawOpener(word, t, i).Some? {
      NothingOpens(word, s, RawOpener(word, t, i).value.1 - 1);
    }
  }

  /** A quote character that opens no literal in the source opens none in the
      result: between two kept characters, never exactly one is blanked. */
  lemma NoCharLiteral(word: char -> bool, s: string, i: nat)
    requires Structural(word, s).Some? && i < |s|
    ensures |Structural(word, s).value| == |s| && CharLiteral(Structural(word, s).value, i).None?
  {
    var t := Structural(word, s).value;
    StructuralLength(word, s);
    if CharLiteral(t, i).Some? {
      VisibleIsStructure(word, s, i);
      if t[i+1] == '\\' {
        forall k | 0 <= k < |s| ensures Agree(t, s, k) {
          VisibleIsStructure(word, s, k);
        }
        EscapeSurvives(t, s, i);
      } else {
        NoneBlankedAlone(word, s, i);
      }
    }
  }

  lemma NoneBlankedAlone(word: char -> bool, s: string, i: nat)
    requires Structural(word, s).Some? && i + 2 < |s|
    ensures
      var marks := Marks(word, s, 0).value;
      marks[i].Kept? && marks[i+2].Kept? ==> marks[i+1].Kept?
  {
    ExplainedThroughout(word, s, i + 1);
  }

  /** `t` shows at `k` what `s` holds there, if it shows anything. */
  ghost predicate Agree(t: string, s: string, k: nat)
    requires k < |t| == |s|
  {
    t[k] != ' ' && t[k] != '\n' && t[k] != '\r' ==> t[k] == s[k]
  }

  lemma EscapeSurvives(t: string, s: string, i: nat)
    requires |t| == |s| && i + 1 < |t| && t[i+1] == '\\' && CharLiteral(t, i).Some?
    requires forall k | 0 <= k < |t| :: Agree(t, s, k)
    ensures CharLiteral(s, i).Some?
  {
    assert Agree(t, s, i) && Agree(t, s, i + 1) && Agree(t, s, i + 2);
    if i + 3 < |t| {
      assert Agree(t, s, i + 3);
    }
    if i + 5 < |t| {
      assert Agree(t, s, i + 4) && Agree(t, s, i + 5);
    }
    if t[i+2] == 'u' && i + 3 < |t| && t[i+3] == '{' && UnicodeTail(t, i + 4, 6).Some? {
      UnicodeTailSurvives(t, s, i + 4, 6);
    }
  }

  lemma {:induction false} UnicodeTailSurvives(t: string, s: string, i: nat, n: nat)
    requires |t| == |s| && i <= |t| && UnicodeTail(t, i, n).Some?
    requires forall k | 0 <= k < |t| :: Agree(t, s, k)
    ensures UnicodeTail(s, i, n).Some?
    decreases n
  {
    assert Agree(t, s, i);
    if i + 3 <= |t| {
      assert Agree(t, s, i + 1) && Agree(t, s, i + 2);
    }
    if !Pair(t, i + 1, '}', '\'') {
      UnicodeTailSurvives(t, s, i + 1, n - 1);
    }
  }

  lemma {:induction false} AllKept(word: char -> bool, t: string, i: nat)
    requires i <= |t| && forall k | 0 <= k < |t| :: Next(word, t, k).Keep?
    ensures Marks(word, t, i) == Some(Run(Kept, |t| - i))
    decreases |t| - i
  {
    if i < |t| {
      AllKept(word, t, i + 1);
      assert [Kept] + Run(Kept, |t| - i - 1) == Run(Kept, |t| - i);
    }
  }

  // ------------------------------------------------------------- the program

  /** `blank`: spaces over a stretch of the output, line breaks kept. */
  method BlankOut(output: array<char>, start: nat, end: nat)
    requires start <= end <= output.Length
    modifies output
    ensures forall k | 0 <= k < output.Length ::
              output[k] == if start <= k < end then Paint(old(output[k]), Literal) else old(output[k])
  {
    for position := start to end
      invariant forall k | 0 <= k < output.Length ::
                  output[k] == if start <= k < position then Paint(old(output[k]), Literal) else old(output[k])
    {
      if output[position] != '\n' && output[position] != '\r' {
        output[position] := ' ';
      }
    }
  }

  /** The loop over a block comment opened just before `start`. */
  method SkipBlock(s: string, start: nat) returns (end: nat, depth: nat)
    requires start <= |s|
    ensures (end, depth) == BlockRun(s, start, 1)
  {
    end, depth := start, 1;
    while end < |s| && depth > 0
      invariant end <= |s| && BlockRun(s, end, depth) == BlockRun(s, start, 1)
      decreases |s| - end
    {
      if Pair(s, end, '/', '*') {
        end, depth := end + 2, depth + 1;
      } else if Pair(s, end, '*', '/') {
        end, depth := end + 2, depth - 1;
      } else {
        end := end + 1;
      }
    }
  }

  /** The loop over a string opened just before `start`. */
  method SkipString(s: string, start: nat) returns (end: nat)
    requires start <= |s|
    ensures end == StringEnd(s, start, false)
  {
    end := start;
    var escaped := false;
    while end < |s|
      invariant end <= |s| && StringEnd(s, end, escaped) == StringEnd(s, start, false)
    {
      if escaped {
        escaped := false;
      } else if s[end] == '\\' {
        escaped := true;
      } else if s[end] == '"' {
        return end + 1;
      }
      end := end + 1;
    }
  }

  /** One round of the main loop: what stands at `index`. */
  method NextToken(word: char -> bool, s: string, index: nat) returns (token: Token)
    requires index < |s|
    ensures token == Next(word, s, index)
  {
    if Pair(s, index, '/', '/') {
      token := Blank(FindChar(s, '\n', index + 2), true);
    } else if Pair(s, index, '/', '*') {
      var end, depth := SkipBlock(s, index + 2);
      token := if depth == 0 then Blank(end, true) else Unterminated;
    } else {
      var raw := RawOpener(word, s, index);
      if raw.Some? {
        var terminator := "\"" + seq(raw.value.0, _ => '#');
        var close := Find(s, terminator, raw.value.1);
        token := if close < |s| then Blank(close + |terminator|, false) else Unterminated;
      } else if s[index] == '"' {
        var end := SkipString(s, index + 1);
        token := if s[end-1] == '"' then Blank(end, false) else Unterminated;
      } else {
        var literal := CharLiteral(s, index);
        token := if literal.Some? then Blank(literal.value, false) else Keep;
      }
    }
  }

  /** `rust_structural_text`; `None` stands for the error it raises. */
  method RustStructuralText(word: char -> bool, s: string) returns (r: Option<string>)
    ensures r == Structural(word, s)
  {
    hide PaintedSoFar, Next, Painted;
    var output := new char[|s|](k requires 0 <= k < |s| => s[k]);
    var index := 0;
    ghost var marks: seq<Mark> := [];
    PrependNothing(Marks(word, s, 0));
    assert output[..] == s;
    NothingPainted(s);
    while index < |s|
      invariant index == |marks| <= |s|
      invariant PaintedSoFar(output[..], s, marks)
      invariant Marks(word, s, 0) == Prepend(marks, Marks(word, s, index))
      decreases |s| - index
    {
      var token := NextToken(word, s, index);
      match token {
        case Unterminated =>
          return None;
        case Keep =>
          PrependTwice(marks, [Kept], Marks(word, s, index + 1));
          KeepStep(output[..], s, marks);
          marks, index := marks + [Kept], index + 1;
        case Blank(end, comment) =>
          ghost var before := output[..];
          BlankOut(output, index, end);
          ghost var run := Run(if comment then Comment else Literal, end - index);
          PrependTwice(marks, run, Marks(word, s, end));
          BlankStep(before, output[..], s, marks, run);
          marks, index := marks + run, end;
      }
    }
    assert marks + [] == marks;
    AllPainted(output[..], s, marks);
    return Some(output[..]);
  }

  ghost predicate PaintedSoFar(t: string, s: string, marks: seq<Mark>) {
    |t| == |s| && |marks| <= |s| && forall k | 0 <= k < |s| :: t[k] == if k < |marks| then Paint(s[k], marks[k]) else s[k]
  }

  lemma NothingPainted(s: string)
    ensures PaintedSoFar(s, s, [])
  {
  }

  lemma AllPainted(t: string, s: string, marks: seq<Mark>)
    requires PaintedSoFar(t, s, marks) && |marks| == |s|
    ensures t == Painted(s, marks)
  {
  }

  lemma KeepStep(t: string, s: string, marks: seq<Mark>)
    requires PaintedSoFar(t, s, marks) && |marks| < |s|
    ensures PaintedSoFar(t, s, marks + [Kept])
  {
  }

  lemma BlankStep(t: string, u: string, s: string, marks: seq<Mark>, run: seq<Mark>)
    requires PaintedSoFar(t, s, marks) && |u| == |t| && |marks| + |run| <= |s|
    requires forall k | 0 <= k < |run| :: !run[k].Kept?
    requires forall k | 0 <= k < |t| :: u[k] == if |marks| <= k < |marks| + |run| then Paint(t[k], Literal) else t[k]
    ensures PaintedSoFar(u, s, marks + run)
  {
  }

  lemma PrependNothing<T>(rest: Option<seq<T>>)
    ensures Prepend([], rest) == rest
  {
    if rest.Some? {
      assert [] + rest.value == rest.value;
    }
  }

  lemma PrependTwice<T>(a: seq<T>, b: seq<T>, rest: Option<seq<T>>)
    ensures Prepend(a, Prepend(b, rest)) == Prepend(a + b, rest)
  {
    if rest.Some? {
      assert a + (b + rest.value) == (a + b) + rest.value;
    }
  }
}
