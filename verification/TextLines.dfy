/** Lines of a text whose only line break is the newline. */
module TextLines {
  import opened Characters

  predicate Ended(t: string) {
    t != "" && t[|t|-1] == '\n'
  }

  /** `s.splitlines(keepends=True)`. */
  function Lines(s: string): seq<string>
    decreases |s|
  {
    if s == "" then [] else
      var i := FindChar(s, '\n', 0);
      if i == |s| then [s] else [s[..i+1]] + Lines(s[i+1..])
  }

  /** `s.splitlines()`. */
  function Contents(s: string): seq<string>
    decreases |s|
  {
    if s == "" then [] else
      var i := FindChar(s, '\n', 0);
      if i == |s| then [s] else [s[..i]] + Contents(s[i+1..])
  }

  /** `"".join(ls)`. */
  function Text(ls: seq<string>): string {
    if ls == [] then "" else Text(ls[..|ls|-1]) + ls[|ls|-1]
  }

  /** A line without its line break. */
  function Content(l: string): string {
    if Ended(l) then l[..|l|-1] else l
  }

  function ContentsOf(ls: seq<string>): (r: seq<string>)
    ensures |r| == |ls|
  {
    seq(|ls|, i requires 0 <= i < |ls| => Content(ls[i]))
  }

  /** A line break, unless there is one already or nothing to end. */
  function Terminated(t: string): string {
    if t == "" || Ended(t) then t else t + "\n"
  }

  predicate OneLine(l: string) {
    l != "" && forall i | 0 <= i < |l| - 1 :: l[i] != '\n'
  }

  predicate AllEnded(ls: seq<string>) {
    forall l <- ls :: OneLine(l) && Ended(l)
  }

  /** Lines as `Lines` gives them: only the last may lack its line break. */
  predicate Chain(ls: seq<string>) {
    ls == [] || (AllEnded(ls[..|ls|-1]) && OneLine(ls[|ls|-1]))
  }

  lemma ContentsOfBoth(a: seq<string>, b: seq<string>)
    ensures ContentsOf(a + b) == ContentsOf(a) + ContentsOf(b)
  {
  }

  lemma ContentsOfSnoc(ls: seq<string>, l: string)
    ensures ContentsOf(ls + [l]) == ContentsOf(ls) + [Content(l)]
  {
    ContentsOfBoth(ls, [l]);
  }

  lemma BreakInFront(a: string, b: string)
    requires FindChar(a, '\n', 0) < |a|
    ensures FindChar(a + b, '\n', 0) == FindChar(a, '\n', 0)
  {
    var i := FindChar(a, '\n', 0);
    assert (a + b)[i] == '\n' && forall k | 0 <= k < i :: (a + b)[k] == a[k];
  }

  lemma FirstLine(s: string)
    requires FindChar(s, '\n', 0) < |s|
    ensures Contents(s) == [s[..FindChar(s, '\n', 0)]] + Contents(s[FindChar(s, '\n', 0)+1..])
  {
  }

  /** Texts that end where they meet keep their lines when put together. */
  lemma {:induction false} Concatenated(a: string, b: string)
    requires a == "" || Ended(a)
    ensures Contents(a + b) == Contents(a) + Contents(b)
    decreases |a|
  {
    hide Contents, FindChar;
    if a == "" {
      assert Contents(a) == [] by { NoLines(); }
      assert a + b == b;
    } else {
      var i := FindChar(a, '\n', 0);
      assert i < |a|;
      BreakInFront(a, b);
      var rest := a[i+1..];
      assert (a + b)[i+1..] == rest + b && (a + b)[..i] == a[..i];
      Concatenated(rest, b);
      FirstLine(a);
      FirstLine(a + b);
    }
  }

  lemma NoLines()
    ensures Contents("") == []
  {
  }

  /** Where the first text is not ended, its last line and the first of the
      second become one. */
  lemma {:induction false} Merged(a: string, b: string)
    requires a != "" && !Ended(a) && b != ""
    ensures |Contents(a + b)| == |Contents(a)| + |Contents(b)| - 1
    decreases |a|
  {
    hide Contents, FindChar;
    var i := FindChar(a, '\n', 0);
    if i < |a| {
      BreakInFront(a, b);
      var rest := a[i+1..];
      assert (a + b)[i+1..] == rest + b;
      assert rest != "" && !Ended(rest) by { assert i + 1 < |a| && rest[|rest|-1] == a[|a|-1]; }
      Merged(rest, b);
      FirstLine(a);
      FirstLine(a + b);
    } else {
      MergedIntoFirst(a, b);
    }
  }

  lemma MergedIntoFirst(a: string, b: string)
    requires a != "" && b != "" && FindChar(a, '\n', 0) == |a|
    ensures |Contents(a + b)| == |Contents(b)| && |Contents(a)| == 1
  {
    hide FindChar;
    var j := FindChar(b, '\n', 0);
    BreakBehind(a, b);
    if j < |b| {
      assert (a + b)[|a|+j+1..] == b[j+1..];
    }
  }

  lemma BreakBehind(a: string, b: string)
    requires FindChar(a, '\n', 0) == |a|
    ensures FindChar(a + b, '\n', 0) == |a| + FindChar(b, '\n', 0)
  {
    var i, j := FindChar(b, '\n', 0), FindChar(a + b, '\n', 0);
    assert forall k | 0 <= k < |a| :: (a + b)[k] == a[k];
    assert forall k | 0 <= k < |b| :: (a + b)[|a|+k] == b[k];
  }

  lemma ContentsOfOne(l: string)
    requires OneLine(l)
    ensures Contents(l) == [Content(l)]
  {
    var i := FindChar(l, '\n', 0);
    if Ended(l) {
      assert i == |l| - 1;
      assert l[i+1..] == "";
    } else {
      assert i == |l|;
    }
  }

  lemma ContentsTerminated(t: string)
    ensures Contents(Terminated(t)) == Contents(t)
    ensures Terminated(t) == "" || Ended(Terminated(t))
    decreases |t|
  {
    hide Contents, FindChar;
    if t != "" && !Ended(t) {
      var i := FindChar(t, '\n', 0);
      if i < |t| {
        BreakInFront(t, "\n");
        var rest := t[i+1..];
        assert (t + "\n")[i+1..] == rest + "\n" && (t + "\n")[..i] == t[..i];
        assert rest != "" && !Ended(rest) by { assert i + 1 < |t| && rest[|rest|-1] == t[|t|-1]; }
        ContentsTerminated(rest);
        FirstLine(t);
        FirstLine(t + "\n");
      } else {
        OneLineTerminated(t);
      }
    }
  }

  lemma OneLineTerminated(t: string)
    requires t != "" && FindChar(t, '\n', 0) == |t|
    ensures Contents(t + "\n") == Contents(t)
  {
    BreakBehind(t, "\n");
    hide FindChar;
    assert (t + "\n")[..|t|] == t && (t + "\n")[|t|+1..] == "";
  }

  lemma {:induction false} TextOfBoth(a: seq<string>, b: seq<string>)
    ensures Text(a + b) == Text(a) + Text(b)
  {
    if b == [] {
      assert a + b == a;
    } else {
      assert (a + b)[..|a+b|-1] == a + b[..|b|-1];
      TextOfBoth(a, b[..|b|-1]);
    }
  }

  lemma {:induction false} TextEnded(ls: seq<string>)
    requires "" !in ls
    ensures Text(ls) == "" <==> ls == []
    ensures ls != [] ==> Ended(Text(ls)) == Ended(ls[|ls|-1])
  {
    if ls != [] {
      var t := Text(ls);
      assert ls[|ls|-1] in ls;
      assert t[|t|-1] == ls[|ls|-1][|ls[|ls|-1]|-1];
    }
  }

  /** The lines of a text put together from lines are these lines. */
  lemma {:induction false} ContentsOfChain(ls: seq<string>)
    requires Chain(ls)
    ensures Contents(Text(ls)) == ContentsOf(ls)
  {
    if ls != [] {
      var front, last := ls[..|ls|-1], ls[|ls|-1];
      EndedIsChain(front);
      ContentsOfChain(front);
      assert "" !in front;
      TextEnded(front);
      Concatenated(Text(front), last);
      ContentsOfOne(last);
      assert ls == front + [last];
    }
  }

  lemma EndedIsChain(ls: seq<string>)
    requires AllEnded(ls)
    ensures Chain(ls)
  {
  }

  lemma EndedThenChain(a: seq<string>, b: seq<string>)
    requires AllEnded(a) && Chain(b)
    ensures Chain(a + b)
  {
    if b == [] {
      assert a + b == a;
    } else {
      assert (a + b)[..|a+b|-1] == a + b[..|b|-1];
    }
  }

  /** `Lines` loses nothing. */
  lemma {:induction false} TextOfLines(s: string)
    ensures Text(Lines(s)) == s
    decreases |s|
  {
    hide FindChar, Text;
    if s == "" {
      assert Text([]) == "" by { TextOfNone(); }
    } else {
      var i := FindChar(s, '\n', 0);
      TextOfOne(s);
      if i < |s| {
        TextOfLines(s[i+1..]);
        TextOfOne(s[..i+1]);
        TextOfBoth([s[..i+1]], Lines(s[i+1..]));
        assert s == s[..i+1] + s[i+1..];
      }
    }
  }

  lemma TextOfNone()
    ensures Text([]) == ""
  {
  }

  lemma TextOfOne(l: string)
    ensures Text([l]) == l
  {
    assert [l][..0] == [];
    assert Text([]) == "";
  }

  lemma {:induction false} LinesAreAChain(s: string)
    ensures Chain(Lines(s))
    decreases |s|
  {
    if s != "" {
      var i := FindChar(s, '\n', 0);
      if i < |s| {
        LinesAreAChain(s[i+1..]);
        EndedThenChain([s[..i+1]], Lines(s[i+1..]));
      }
    }
  }

  lemma ContentsOfLines(s: string)
    ensures ContentsOf(Lines(s)) == Contents(s)
  {
    TextOfLines(s);
    LinesAreAChain(s);
    ContentsOfChain(Lines(s));
  }
}
