/** `rust_comments`: the comments of a Rust source, read line by line with what
    is open carried from one line to the next. */
module RustComments {
  import opened Options
  import opened RustLexemes

  datatype Family = RustLine | RustBlock

  /** `start` is the column, which the program leaves to the text. */
  datatype Comment = Comment(line: nat, start: nat, text: string, family: Family, block: nat)

  /** What is open between two characters. `Raw` carries the hashes of the closing quote. */
  type Depth = n: int | n > 0 witness 1
  datatype Mode = Code | Block(depth: Depth) | Raw(hashes: nat) | InString

  /** `blocks` numbers the block comments seen so far. */
  datatype State = State(mode: Mode, blocks: nat)

  /** One round of the loop over a line: where it stops, what is open then, and
      the comment it reports. */
  datatype Round = Round(next: nat, state: State, found: Option<Comment>)

  /** Where a string runs to on this line; a backslash takes the next character
      with it, the line break included. */
  function StringRun(l: string, i: nat): (r: (nat, bool))
    requires i <= |l| + 1
    ensures i <= r.0 <= |l| + 1 && (!r.1 ==> r.0 >= |l|)
    ensures i < |l| ==> i < r.0
    decreases |l| + 1 - i
  {
    if i >= |l| then (i, false)
    else if l[i] == '\\' then StringRun(l, i + 2)
    else if l[i] == '"' then (i + 1, true)
    else StringRun(l, i + 1)
  }

  /** The search for the quote that closes a character literal opened at `i`. */
  function CharRun(l: string, i: nat, end: nat, escaped: bool): (r: nat)
    requires i < end <= |l|
    ensures i < r <= |l|
    decreases |l| - end
  {
    if end == |l| || end - i > 12 then i + 1
    else if l[end] == '\'' && !escaped then end + 1
    else CharRun(l, i, end + 1, l[end] == '\\' && !escaped)
  }

  function RawPrefix(l: string, i: nat): nat
    requires i < |l|
  {
    if Pair(l, i, 'b', 'r') || Pair(l, i, 'r', 'b') then 2 else if l[i] == 'r' then 1 else 0
  }

  function Opener(l: string, i: nat): (r: Option<(nat, nat)>)
    requires i < |l|
    ensures r.Some? ==> i < r.value.1 <= |l|
  {
    var p := RawPrefix(l, i);
    if p == 0 then None
    else match RawQuote(l, i + p)
      case None => None
      case Some(h) => Some((h, i + p + h + 1))
  }

  function Reported(line: nat, l: string, start: nat, end: nat, family: Family, block: nat): Option<Comment>
    requires start <= end <= |l|
  {
    Some(Comment(line, start, l[start..end], family, block))
  }

  /** Where the text ends once its line break is stripped. */
  function TrimmedEnd(l: string, i: nat): (r: nat)
    requires i <= |l|
    ensures i <= r <= |l|
    ensures forall k | r <= k < |l| :: l[k] == '\n'
    ensures i < r ==> l[r-1] != '\n'
  {
    TrimFrom(l, i, |l|)
  }

  function TrimFrom(l: string, i: nat, end: nat): (r: nat)
    requires i <= end <= |l|
    ensures i <= r <= end
    ensures forall k | r <= k < end :: l[k] == '\n'
    ensures i < r ==> l[r-1] != '\n'
    decreases end
  {
    if end > i && l[end-1] == '\n' then TrimFrom(l, i, end - 1) else end
  }

  function Step(line: nat, l: string, i: nat, s: State): (r: Round)
    requires i < |l|
    ensures i < r.next <= |l| + 1
  {
    match s.mode
    case Block(depth) =>
      var (end, left) := BlockRun(l, i, depth);
      Round(end, s.(mode := if left == 0 then Code else Block(left)), Reported(line, l, i, end, RustBlock, s.blocks))
    case Raw(hashes) =>
      var terminator := "\"" + seq(hashes, _ => '#');
      var end := Find(l, terminator, i);
      if end < |l| then Round(end + |terminator|, s.(mode := Code), None) else Round(|l|, s, None)
    case InString =>
      var (end, closed) := StringRun(l, i);
      Round(end, s.(mode := if closed then Code else InString), None)
    case Code =>
      match Opener(l, i)
      case Some((hashes, end)) => Round(end, s.(mode := Raw(hashes)), None)
      case None =>
        if Pair(l, i, 'b', '"') then Round(i + 2, s.(mode := InString), None)
        else if l[i] == '"' then Round(i + 1, s.(mode := InString), None)
        else if l[i] == '\'' then Round(CharRun(l, i, i + 1, false), s, None)
        else if Pair(l, i, '/', '/') then Round(|l|, s, Reported(line, l, i, TrimmedEnd(l, i), RustLine, 0))
        else if Pair(l, i, '/', '*') then
          var (end, left) := BlockRun(l, i + 2, 1);
          var block := s.blocks + 1;
          Round(end, State(if left == 0 then Code else Block(left), block), Reported(line, l, i, end, RustBlock, block))
        else Round(i + 1, s, None)
  }

  function Listed<T>(o: Option<T>): seq<T> {
    if o.None? then [] else [o.value]
  }

  function ScanLine(line: nat, l: string, i: nat, s: State): (seq<Comment>, State)
    requires i <= |l| + 1
    decreases |l| + 1 - i
  {
    if i >= |l| then ([], s) else
      var r := Step(line, l, i, s);
      var (rest, last) := ScanLine(line, l, r.next, r.state);
      (Listed(r.found) + rest, last)
  }

  function ScanLines(first: nat, lines: seq<string>, s: State): seq<Comment>
    decreases |lines|
  {
    if lines == [] then [] else
      var (found, after) := ScanLine(first, lines[0], 0, s);
      found + ScanLines(first + 1, lines[1..], after)
  }

  const START := State(Code, 0)

  // ------------------------------------------------------------- the program

  method RustComments(lines: seq<string>) returns (out: seq<Comment>)
    ensures out == ScanLines(1, lines, START)
  {
    out := [];
    var s := START;
    for n := 0 to |lines|
      invariant out + ScanLines(n + 1, lines[n..], s) == ScanLines(1, lines, START)
    {
      assert lines[n..][1..] == lines[n+1..];
      var found, after := ReadLine(n + 1, lines[n], s);
      assert (out + found) + ScanLines(n + 2, lines[n+1..], after) == out + ScanLines(n + 1, lines[n..], s);
      out, s := out + found, after;
    }
  }

  /** The inner loop, over one line. */
  method ReadLine(n: nat, line: string, start: State) returns (out: seq<Comment>, s: State)
    ensures (out, s) == ScanLine(n, line, 0, start)
  {
    out, s := [], start;
    var i := 0;
    while i < |line|
      invariant i <= |line| + 1
      invariant ScanLine(n, line, 0, start).0 == out + ScanLine(n, line, i, s).0
      invariant ScanLine(n, line, 0, start).1 == ScanLine(n, line, i, s).1
      decreases |line| + 1 - i
    {
      var round := ReadRound(n, line, i, s);
      assert out + ScanLine(n, line, i, s).0 == (out + Listed(round.found)) + ScanLine(n, line, round.next, round.state).0;
      out, i, s := out + Listed(round.found), round.next, round.state;
    }
    assert ScanLine(n, line, i, s) == ([], s) && out + [] == out;
  }

  /** One round of the inner loop, with its own loops over blocks, strings and
      character literals. */
  method ReadRound(n: nat, line: string, i: nat, s: State) returns (r: Round)
    requires i < |line|
    ensures r == Step(n, line, i, s)
  {
    match s.mode {
      case Block(depth) =>
        var end, left := ReadBlock(line, i, depth);
        return Round(end, s.(mode := if left == 0 then Code else Block(left)), Reported(n, line, i, end, RustBlock, s.blocks));
      case Raw(hashes) =>
        var terminator := "\"" + seq(hashes, _ => '#');
        var end := Find(line, terminator, i);
        return if end < |line| then Round(end + |terminator|, s.(mode := Code), None) else Round(|line|, s, None);
      case InString =>
        var end, closed := ReadString(line, i);
        return Round(end, s.(mode := if closed then Code else InString), None);
      case Code =>
    }
    var raw := Opener(line, i);
    if raw.Some? {
      return Round(raw.value.1, s.(mode := Raw(raw.value.0)), None);
    }
    if Pair(line, i, 'b', '"') {
      return Round(i + 2, s.(mode := InString), None);
    }
    if line[i] == '"' {
      return Round(i + 1, s.(mode := InString), None);
    }
    if line[i] == '\'' {
      var end := ReadChar(line, i);
      return Round(end, s, None);
    }
    if Pair(line, i, '/', '/') {
      return Round(|line|, s, Reported(n, line, i, TrimmedEnd(line, i), RustLine, 0));
    }
    if Pair(line, i, '/', '*') {
      var block := s.blocks + 1;
      var end, left := ReadBlock(line, i + 2, 1);
      return Round(end, State(if left == 0 then Code else Block(left), block), Reported(n, line, i, end, RustBlock, block));
    }
    return Round(i + 1, s, None);
  }

  method ReadBlock(line: string, start: nat, open: nat) returns (i: nat, depth: nat)
    requires start <= |line| && open > 0
    ensures (i, depth) == BlockRun(line, start, open)
  {
    i, depth := start, open;
    while i < |line|
      invariant i <= |line| && depth > 0 && BlockRun(line, i, depth) == BlockRun(line, start, open)
    {
      if Pair(line, i, '/', '*') {
        i, depth := i + 2, depth + 1;
      } else if Pair(line, i, '*', '/') {
        i, depth := i + 2, depth - 1;
        if depth == 0 {
          break;
        }
      } else {
        i := i + 1;
      }
    }
  }

  method ReadString(line: string, start: nat) returns (i: nat, closed: bool)
    requires start <= |line|
    ensures (i, closed) == StringRun(line, start)
  {
    i, closed := start, false;
    while i < |line|
      invariant i <= |line| + 1 && !closed && StringRun(line, i) == StringRun(line, start)
      decreases |line| + 1 - i
    {
      if line[i] == '\\' {
        i := i + 2;
      } else if line[i] == '"' {
        return i + 1, true;
      } else {
        i := i + 1;
      }
    }
  }

  method ReadChar(line: string, i: nat) returns (next: nat)
    requires i < |line|
    ensures next == CharRun(line, i, i + 1, false)
  {
    var end := i + 1;
    var escaped := false;
    while end < |line| && end - i <= 12
      invariant i < end <= |line| && CharRun(line, i, end, escaped) == CharRun(line, i, i + 1, false)
    {
      if line[end] == '\'' && !escaped {
        return end + 1;
      }
      escaped := line[end] == '\\' && !escaped;
      if line[end] != '\\' {
        escaped := false;
      }
      end := end + 1;
    }
    return i + 1;
  }
}
