/** A change that is judged confined and yet takes structural braces away: it turns
    lines it does not touch into a comment. */
module HiddenBraces {
  import opened Options
  import opened UnifiedDiff
  import opened TestOnly
  import opened ConfinedScript
  import Lines = TextLines
  import opened RustLexemes
  import L = RustLexemes
  import T = RustText
  import M = MarkdownLines

  const PAST := "#[cfg(test)]\n{\n{\n}\n}"

  const NOW := "#[cfg(test)]\n{\n/*\n{\n}\n*/\n}"

  const NOW_STRUCTURE := "#[cfg(test)]\n{\n  \n \n \n  \n}"

  const COMMENTED := Hunk(1, 1,
    [Context("#[cfg(test)]"), Context("{"), Add("/*"), Context("{"), Context("}"), Add("*/"), Context("}")],
    Style(false, false, ""))

  lemma LineThen(l: string, rest: string)
    requires '\n' !in l
    ensures Lines.Contents(l + "\n" + rest) == [l] + Lines.Contents(rest)
  {
    hide Lines.Contents;
    assert (l + "\n")[..|l|] == l;
    Lines.ContentsOfOne(l + "\n");
    Lines.Concatenated(l + "\n", rest);
  }

  lemma LastLine(l: string)
    requires '\n' !in l && l != ""
    ensures Lines.Contents(l) == [l]
  {
    hide Lines.Contents;
    Lines.ContentsOfOne(l);
  }

  lemma PastLines()
    ensures Lines.Contents(PAST) == ["#[cfg(test)]", "{", "{", "}", "}"]
  {
    hide Lines.Contents;
    LineThen("#[cfg(test)]", "{\n{\n}\n}");
    LineThen("{", "{\n}\n}");
    LineThen("{", "}\n}");
    LineThen("}", "}");
    LastLine("}");
    assert PAST == "#[cfg(test)]" + "\n" + "{\n{\n}\n}";
    assert "{\n{\n}\n}" == "{" + "\n" + "{\n}\n}";
    assert "{\n}\n}" == "{" + "\n" + "}\n}";
    assert "}\n}" == "}" + "\n" + "}";
  }

  lemma NowLinesTail()
    ensures Lines.Contents("}\n*/\n}") == ["}", "*/", "}"]
  {
    hide Lines.Contents;
    LastLine("}");
    LineThen("*/", "}");
    assert "*/\n}" == "*/" + "\n" + "}";
    LineThen("}", "*/\n}");
    assert "}\n*/\n}" == "}" + "\n" + "*/\n}";
  }

  lemma NowLines()
    ensures Lines.Contents(NOW) == ["#[cfg(test)]", "{", "/*", "{", "}", "*/", "}"]
  {
    hide Lines.Contents;
    NowLinesTail();
    LineThen("{", "}\n*/\n}");
    assert "{\n}\n*/\n}" == "{" + "\n" + "}\n*/\n}";
    LineThen("/*", "{\n}\n*/\n}");
    assert "/*\n{\n}\n*/\n}" == "/*" + "\n" + "{\n}\n*/\n}";
    LineThen("{", "/*\n{\n}\n*/\n}");
    assert "{\n/*\n{\n}\n*/\n}" == "{" + "\n" + "/*\n{\n}\n*/\n}";
    LineThen("#[cfg(test)]", "{\n/*\n{\n}\n*/\n}");
    assert "#[cfg(test)]\n{\n/*\n{\n}\n*/\n}" == "#[cfg(test)]" + "\n" + "{\n/*\n{\n}\n*/\n}";
  }

  lemma StructureLinesTail()
    ensures Lines.Contents(" \n  \n}") == [" ", "  ", "}"]
  {
    hide Lines.Contents;
    LastLine("}");
    LineThen("  ", "}");
    assert "  \n}" == "  " + "\n" + "}";
    LineThen(" ", "  \n}");
    assert " \n  \n}" == " " + "\n" + "  \n}";
  }

  lemma StructureLines()
    ensures Lines.Contents(NOW_STRUCTURE) == ["#[cfg(test)]", "{", "  ", " ", " ", "  ", "}"]
  {
    hide Lines.Contents;
    StructureLinesTail();
    LineThen(" ", " \n  \n}");
    assert " \n \n  \n}" == " " + "\n" + " \n  \n}";
    LineThen("  ", " \n \n  \n}");
    assert "  \n \n \n  \n}" == "  " + "\n" + " \n \n  \n}";
    LineThen("{", "  \n \n \n  \n}");
    assert "{\n  \n \n \n  \n}" == "{" + "\n" + "  \n \n \n  \n}";
    LineThen("#[cfg(test)]", "{\n  \n \n \n  \n}");
    assert "#[cfg(test)]\n{\n  \n \n \n  \n}" == "#[cfg(test)]" + "\n" + "{\n  \n \n \n  \n}";
  }

  /** A character that opens nothing. */
  predicate Bland(c: char) {
    c != '/' && c != '"' && c != '\'' && c != 'r'
  }

  predicate AllBland(s: string) {
    forall k | 0 <= k < |s| :: Bland(s[k])
  }

  lemma BlandBoth(a: string, b: string)
    requires AllBland(a) && AllBland(b)
    ensures AllBland(a + b)
  {
  }

  lemma {:induction false} BlandMarks(word: char -> bool, s: string, i: nat, j: nat)
    requires i <= j <= |s| && (forall k | i <= k < j :: Bland(s[k])) && (j < |s| ==> s[j] != 'r') && T.Marks(word, s, j).Some?
    ensures T.Marks(word, s, i) == Some(T.Run(T.Kept, j - i) + T.Marks(word, s, j).value)
    decreases j - i
  {
    hide T.Next, T.Run;
    var rest := T.Marks(word, s, j).value;
    if i == j {
      assert T.Run(T.Kept, 0) + rest == rest;
    } else {
      BlandIsKept(word, s, i);
      BlandMarks(word, s, i + 1, j);
      assert [T.Kept] + (T.Run(T.Kept, j - (i + 1)) + rest) == T.Run(T.Kept, j - i) + rest;
    }
  }

  lemma BlandIsKept(word: char -> bool, s: string, i: nat)
    requires i < |s| && Bland(s[i]) && (i + 1 < |s| ==> s[i+1] != 'r')
    ensures T.Next(word, s, i) == T.Keep
  {
  }

  lemma HeadIsBland()
    ensures AllBland("#[cfg(test)]\n{\n") && AllBland("\n}") && AllBland("{\n}\n}")
  {
    BlandBoth("#[cfg", "(test");
    BlandBoth("#[cfg(test", ")]\n");
    BlandBoth("#[cfg(test)]\n", "{\n");
    assert "#[cfg(test)]\n{\n" == "#[cfg(test)]\n" + "{\n" && "#[cfg(test)]\n" == "#[cfg(test" + ")]\n" && "#[cfg(test" == "#[cfg" + "(test";
  }

  lemma PastStructure(word: char -> bool)
    ensures T.Structural(word, PAST) == Some(PAST)
  {
    HeadIsBland();
    var a, b := "#[cfg(test)]\n{\n", "{\n}\n}";
    BlandBoth(a, b);
    assert PAST == a + b;
    BlandText(word, PAST);
  }

  lemma BlandText(word: char -> bool, s: string)
    requires AllBland(s)
    ensures T.Structural(word, s) == Some(s)
  {
    hide T.Next;
    BlandMarks(word, s, 0, |s|);
    assert T.Run(T.Kept, |s|) + [] == T.Run(T.Kept, |s|);
    assert T.Painted(s, T.Run(T.Kept, |s|)) == s;
  }

  /** The marks of text that opens nothing, with a block comment inside. */
  function MarksBetween(a: string, c: string, b: string): (r: seq<T.Mark>)
    ensures |r| == |a + c + b|
  {
    T.Run(T.Kept, |a|) + (T.Run(T.Comment, |c|) + T.Run(T.Kept, |b|))
  }

  lemma CommentBetween(word: char -> bool, a: string, c: string, b: string)
    requires AllBland(a) && AllBland(b) && |c| >= 2 && c[0] == '/' && c[1] == '*' && L.BlockRun(a + c + b, |a| + 2, 1) == (|a| + |c|, 0)
    ensures T.Marks(word, a + c + b, 0) == Some(MarksBetween(a, c, b))
  {
    hide T.Marks, L.BlockRun, T.Run, AllBland, Bland;
    var s := a + c + b;
    Around(a, c, b);
    MarksOf(word, s, |a|, |a| + |c|);
  }

  lemma Around(a: string, c: string, b: string)
    requires AllBland(a) && AllBland(b) && |c| >= 2
    ensures
      var s := a + c + b;
      && (forall k | 0 <= k < |a| :: Bland(s[k])) && (forall k | |a| + |c| <= k < |s| :: Bland(s[k]))
      && s[|a|] == c[0] && s[|a|+1] == c[1]
  {
    hide Bland;
    var s := a + c + b;
    assert forall k | 0 <= k < |a| :: s[k] == a[k];
    assert forall k | |a| + |c| <= k < |s| :: s[k] == b[k - |a| - |c|];
  }

  lemma MarksOf(word: char -> bool, s: string, n: nat, m: nat)
    requires n + 2 <= m <= |s| && (forall k | 0 <= k < n :: Bland(s[k])) && (forall k | m <= k < |s| :: Bland(s[k]))
    requires s[n] == '/' && s[n+1] == '*' && L.BlockRun(s, n + 2, 1) == (m, 0)
    ensures T.Marks(word, s, 0) == Some(T.Run(T.Kept, n) + (T.Run(T.Comment, m - n) + T.Run(T.Kept, |s| - m)))
  {
    hide T.Marks, L.BlockRun, T.Run, Bland;
    EndMarks(word, s);
    assert m < |s| ==> s[m] != 'r' by { NoR(s, m); }
    BlandMarks(word, s, m, |s|);
    assert T.Run(T.Kept, |s| - m) + [] == T.Run(T.Kept, |s| - m);
    CommentMarks(word, s, n, m);
    BlandMarks(word, s, 0, n);
  }

  lemma NoR(s: string, m: nat)
    requires m < |s| ==> Bland(s[m])
    ensures m < |s| ==> s[m] != 'r'
  {
  }

  lemma EndMarks(word: char -> bool, s: string)
    ensures T.Marks(word, s, |s|) == Some([])
  {
  }

  lemma CommentMarks(word: char -> bool, s: string, i: nat, j: nat)
    requires i + 2 <= j <= |s| && s[i] == '/' && s[i+1] == '*' && L.BlockRun(s, i + 2, 1) == (j, 0) && T.Marks(word, s, j).Some?
    ensures T.Marks(word, s, i) == Some(T.Run(T.Comment, j - i) + T.Marks(word, s, j).value)
  {
    hide L.BlockRun;
    assert T.Next(word, s, i) == T.Blank(j, true);
  }

  lemma NowStructure(word: char -> bool)
    ensures T.Structural(word, NOW) == Some(NOW_STRUCTURE)
  {
    hide T.Marks, L.BlockRun;
    HeadIsBland();
    var a, c, b := "#[cfg(test)]\n{\n", "/*\n{\n}\n*/", "\n}";
    assert NOW == a + c + b;
    CommentEnds(a, b);
    CommentBetween(word, a, c, b);
    NowIsPainted();
  }

  lemma NowIsPainted()
    ensures |MarksBetween("#[cfg(test)]\n{\n", "/*\n{\n}\n*/", "\n}")| == |NOW|
    ensures T.Painted(NOW, MarksBetween("#[cfg(test)]\n{\n", "/*\n{\n}\n*/", "\n}")) == NOW_STRUCTURE
  {
    var a, c, b := "#[cfg(test)]\n{\n", "/*\n{\n}\n*/", "\n}";
    var d := "  \n \n \n  ";
    assert NOW == a + c + b && NOW_STRUCTURE == a + d + b;
    PaintedBetween(a, c, b, d);
  }

  lemma PaintedBetween(a: string, c: string, b: string, d: string)
    requires |c| == |d| && forall k | 0 <= k < |c| :: d[k] == T.Paint(c[k], T.Comment)
    ensures T.Painted(a + c + b, MarksBetween(a, c, b)) == a + d + b
  {
  }

  lemma CommentEnds(a: string, b: string)
    ensures L.BlockRun(a + "/*\n{\n}\n*/" + b, |a| + 2, 1) == (|a| + 9, 0)
  {
    var s, n := a + "/*\n{\n}\n*/" + b, |a|;
    assert s[n+2] == '\n' && s[n+3] == '{' && s[n+4] == '\n' && s[n+5] == '}' && s[n+6] == '\n' && s[n+7] == '*' && s[n+8] == '/';
    assert L.BlockRun(s, n + 7, 1) == (n + 9, 0);
    assert L.BlockRun(s, n + 6, 1) == (n + 9, 0);
    assert L.BlockRun(s, n + 5, 1) == (n + 9, 0);
    assert L.BlockRun(s, n + 4, 1) == (n + 9, 0);
    assert L.BlockRun(s, n + 3, 1) == (n + 9, 0);
  }

  // ------------------------------------------------------------- the items

  lemma WordThen(l: string, i: nat, ws: seq<string>)
    requires ws != [] && i < |l| && !M.Space(l[i]) && ws[0] <= l[i..] && i + |ws[0]| <= |l| && Words(l, i + |ws[0]|, ws[1..])
    ensures Words(l, i, ws)
  {
    hide SkipSpace, M.Space;
    StaysPut(l, i);
  }

  lemma StaysPut(l: string, i: nat)
    requires i < |l| && !M.Space(l[i])
    ensures SkipSpace(l, i) == i
  {
  }

  lemma TailIsWords(l: string)
    requires l == "#[cfg(test)]"
    ensures Words(l, 5, ["(", "test", ")", "]"])
  {
    hide Words;
    assert Words(l, 12, []) by { NoWords(l); }
    assert l[11..] == "]" && l[10..] == ")]" && l[6..] == "test)]" && l[5..] == "(test)]";
    assert ["]"][1..] == [] && [")", "]"][1..] == ["]"] && ["test", ")", "]"][1..] == [")", "]"];
    assert ["(", "test", ")", "]"][1..] == ["test", ")", "]"];
    WordThen(l, 11, ["]"]);
    WordThen(l, 10, [")", "]"]);
    WordThen(l, 6, ["test", ")", "]"]);
    WordThen(l, 5, ["(", "test", ")", "]"]);
  }

  lemma NoWords(l: string)
    ensures Words(l, |l|, [])
  {
  }

  lemma AttributeIsCfgTest()
    ensures CfgTest("#[cfg(test)]")
  {
    hide Words;
    var l, ws := "#[cfg(test)]", ["#", "[", "cfg", "(", "test", ")", "]"];
    TailIsWords(l);
    assert l[2..] == "cfg(test)]" && l[1..] == "[cfg(test)]" && l[0..] == l;
    assert ws[2..][1..] == ["(", "test", ")", "]"] && ws[1..][1..] == ws[2..];
    WordThen(l, 2, ws[2..]);
    WordThen(l, 1, ws[1..]);
    WordThen(l, 0, ws);
  }

  lemma OtherIsNot(l: string)
    requires SkipSpace(l, 0) < |l| ==> l[SkipSpace(l, 0)] != '#'
    ensures !CfgTest(l) && !("#" <= l[SkipSpace(l, 0)..])
  {
    hide SkipSpace;
    var rest := l[SkipSpace(l, 0)..];
    assert rest != "" ==> rest[0] == l[SkipSpace(l, 0)];
  }

  lemma OthersAreNot()
    ensures !CfgTest("{") && !CfgTest("}") && !CfgTest("  ") && !CfgTest(" ")
    ensures SkipSpace("{", 0) == 0 && !("#" <= "{"[0..])
  {
    assert SkipSpace("{", 0) == 0 && SkipSpace("}", 0) == 0;
    assert SkipSpace("  ", 2) == 2 && SkipSpace("  ", 1) == 2 && SkipSpace("  ", 0) == 2;
    assert SkipSpace(" ", 1) == 1 && SkipSpace(" ", 0) == 1;
    OtherIsNot("{");
    OtherIsNot("}");
    OtherIsNot("  ");
    OtherIsNot(" ");
  }

  lemma Counted(b: TestOnly.Braces)
    ensures Count(b, "{") == TestOnly.Braces(b.depth + 1, true)
    ensures b.open ==> Count(b, "}") == TestOnly.Braces(b.depth - 1, true)
    ensures Count(b, " ") == b && Count(b, "  ") == b
  {
    assert "{"[1..] == "" && "}"[1..] == "" && " "[1..] == "" && "  "[1..] == " ";
    assert Count(b, "") == b;
    assert Count(b, " ") == b;
  }

  lemma {:induction false} NoneFrom(s: Source, i: nat)
    requires 0 < i <= |s.lines| == |s.structure| && forall k | i <= k < |s.lines| :: !CfgTest(s.structure[k])
    ensures CfgTestRanges(s, i) == Found([])
    decreases |s.lines| - i
  {
    if i < |s.lines| {
      NoneFrom(s, i + 1);
    }
  }

  /** The item of the first line, when the second opens it and only the last line closes it. */
  lemma OneItem(s: Source)
    requires |s.lines| == |s.structure| > 1 && CfgTest(s.structure[0]) && (forall k | 1 <= k < |s.lines| :: !CfgTest(s.structure[k]))
    requires s.lines[1] == "{" == s.structure[1] && BlockEnd(s.structure, 1, TestOnly.Braces(0, false)) == |s.lines| - 1
    ensures CfgTestRanges(s, 0) == Found([TestOnly.Range(1, |s.lines|)])
  {
    hide CfgTest, BlockEnd;
    OthersAreNot();
    NoneFrom(s, 1);
    assert NextLine(s.lines, 1) == 1;
    assert s.structure[1][0..] == "{";
    assert ItemAt(s, 0) == Found([TestOnly.Range(1, |s.lines|)]);
  }

  lemma PastRanges()
    ensures
      var ls := ["#[cfg(test)]", "{", "{", "}", "}"];
      CfgTestRanges(Source(ls, ls), 0) == Found([TestOnly.Range(1, 5)])
  {
    hide CfgTest, Count;
    var ls := ["#[cfg(test)]", "{", "{", "}", "}"];
    AttributeIsCfgTest();
    OthersAreNot();
    Counted(TestOnly.Braces(0, false));
    Counted(TestOnly.Braces(1, true));
    Counted(TestOnly.Braces(2, true));
    assert BlockEnd(ls, 4, TestOnly.Braces(1, true)) == 4;
    assert BlockEnd(ls, 3, TestOnly.Braces(2, true)) == 4;
    assert BlockEnd(ls, 2, TestOnly.Braces(1, true)) == 4;
    assert BlockEnd(ls, 1, TestOnly.Braces(0, false)) == 4;
    OneItem(Source(ls, ls));
  }

  lemma NowRanges()
    ensures
      var ls, structure := ["#[cfg(test)]", "{", "/*", "{", "}", "*/", "}"], ["#[cfg(test)]", "{", "  ", " ", " ", "  ", "}"];
      CfgTestRanges(Source(ls, structure), 0) == Found([TestOnly.Range(1, 7)])
  {
    hide CfgTest, Count;
    var ls, structure := ["#[cfg(test)]", "{", "/*", "{", "}", "*/", "}"], ["#[cfg(test)]", "{", "  ", " ", " ", "  ", "}"];
    AttributeIsCfgTest();
    OthersAreNot();
    Counted(TestOnly.Braces(0, false));
    Counted(TestOnly.Braces(1, true));
    var b := TestOnly.Braces(1, true);
    assert BlockEnd(structure, 6, b) == 6;
    assert BlockEnd(structure, 5, b) == 6;
    assert BlockEnd(structure, 4, b) == 6;
    assert BlockEnd(structure, 3, b) == 6;
    assert BlockEnd(structure, 2, b) == 6;
    assert BlockEnd(structure, 1, TestOnly.Braces(0, false)) == 6;
    OneItem(Source(ls, structure));
  }

  // ------------------------------------------------------------- the verdict

  const CHANGED := File(Some(Patch(Print([COMMENTED]), true)), 2, 0, 2, Some(PAST), Some(NOW))

  lemma EditsAre()
    ensures Script([[], []], [COMMENTED]) == COMMENTED.edits
  {
    var none: seq<string> := [];
    assert [none, none][1..] == [none] && [COMMENTED][1..] == [];
    assert Script([none], []) == [];
    assert COMMENTED.edits + [] == COMMENTED.edits;
  }

  lemma IsPlaced(gaps: seq<seq<string>>)
    requires gaps == [[], []]
    ensures Placed(gaps, [COMMENTED], 1, 1)
  {
    hide OldCount, NewCount;
    assert [COMMENTED][1..] == [];
    assert Placed(gaps[1..], [], 1 + OldCount(COMMENTED.edits), 1 + NewCount(COMMENTED.edits));
  }

  lemma IsRealDiff()
    ensures RealDiff(["#[cfg(test)]", "{", "{", "}", "}"], ["#[cfg(test)]", "{", "/*", "{", "}", "*/", "}"], CHANGED.patch.value, [[], []], [COMMENTED])
  {
    hide OldText, NewText, Print, Placed, Script;
    EditsAre();
    TextsAre();
    IsPlaced([[], []]);
  }

  lemma EditThen(e: Edit, rest: seq<Edit>)
    ensures OldText([e] + rest) == (if e.Context? || e.Delete? then [e.text] else []) + OldText(rest)
    ensures NewText([e] + rest) == (if e.Context? || e.Add? then [e.text] else []) + NewText(rest)
    ensures NewCount([e] + rest) == (if e.Context? || e.Add? then 1 else 0) + NewCount(rest)
    ensures CountEdits([e] + rest, SeenAdd) == (if SeenAdd(e) then 1 else 0) + CountEdits(rest, SeenAdd)
    ensures CountEdits([e] + rest, SeenDelete) == (if SeenDelete(e) then 1 else 0) + CountEdits(rest, SeenDelete)
  {
    assert ([e] + rest)[1..] == rest;
  }

  lemma NoEdits()
    ensures OldText([]) == [] && NewText([]) == [] && NewCount([]) == 0 && CountEdits([], SeenAdd) == 0 && CountEdits([], SeenDelete) == 0
  {
  }

  lemma CommentsAreSeen()
    ensures SeenAdd(Add("/*")) && SeenAdd(Add("*/"))
  {
    assert "/*"[0] == '/' && "*/"[0] == '*' && "++"[0] == '+';
  }

  lemma TailIs()
    ensures
      var e := [Context("{"), Context("}"), Add("*/"), Context("}")];
      && OldText(e) == ["{", "}", "}"] && NewText(e) == ["{", "}", "*/", "}"]
      && CountEdits(e, SeenAdd) == 1 && CountEdits(e, SeenDelete) == 0
  {
    hide OldText, NewText, NewCount, CountEdits;
    NoEdits();
    CommentsAreSeen();
    EditThen(Context("}"), []);
    assert [Context("}")] + [] == [Context("}")];
    EditThen(Add("*/"), [Context("}")]);
    EditThen(Context("}"), [Add("*/"), Context("}")]);
    EditThen(Context("{"), [Context("}"), Add("*/"), Context("}")]);
    assert [Add("*/")] + [Context("}")] == [Add("*/"), Context("}")];
    assert [Context("}")] + [Add("*/"), Context("}")] == [Context("}"), Add("*/"), Context("}")];
    assert [Context("{")] + [Context("}"), Add("*/"), Context("}")] == [Context("{"), Context("}"), Add("*/"), Context("}")];
  }

  lemma TextsAre()
    ensures OldText(COMMENTED.edits) == ["#[cfg(test)]", "{", "{", "}", "}"]
    ensures NewText(COMMENTED.edits) == ["#[cfg(test)]", "{", "/*", "{", "}", "*/", "}"]
    ensures CountEdits(COMMENTED.edits, SeenAdd) == 2 && CountEdits(COMMENTED.edits, SeenDelete) == 0
  {
    hide OldText, NewText, NewCount, CountEdits;
    var tail := [Context("{"), Context("}"), Add("*/"), Context("}")];
    TailIs();
    CommentsAreSeen();
    EditThen(Add("/*"), tail);
    EditThen(Context("{"), [Add("/*")] + tail);
    EditThen(Context("#[cfg(test)]"), [Context("{")] + ([Add("/*")] + tail));
    assert COMMENTED.edits == [Context("#[cfg(test)]")] + ([Context("{")] + ([Add("/*")] + tail));
  }

  lemma CountsAre()
    ensures NewNumber(COMMENTED.edits, 2) == 3 && NewNumber(COMMENTED.edits, 5) == 6
  {
    hide OldText, NewText, NewCount, CountEdits;
    NoEdits();
    var a, b, c := Context("#[cfg(test)]"), Context("{"), Context("}");
    EditThen(b, []);
    EditThen(a, [b]);
    assert [b] + [] == [b] && COMMENTED.edits[..2] == [a] + [b];
    EditThen(c, []);
    EditThen(b, [c]);
    EditThen(Add("/*"), [b] + [c]);
    EditThen(b, [Add("/*")] + ([b] + [c]));
    EditThen(a, [b] + ([Add("/*")] + ([b] + [c])));
    assert [c] + [] == [c] && COMMENTED.edits[..5] == [a] + ([b] + ([Add("/*")] + ([b] + [c])));
  }

  lemma BracesDiffer()
    ensures BraceLines(["#[cfg(test)]", "{", "{", "}", "}"]) == ["{", "{", "}", "}"]
    ensures BraceLines(["#[cfg(test)]", "{", "  ", " ", " ", "  ", "}"]) == ["{", "}"]
  {
    hide BraceLines;
    BraceThen("}", []);
    BraceThen("}", ["}"]);
    BraceThen("{", ["}", "}"]);
    BraceThen("{", ["{", "}", "}"]);
    BraceThen("#[cfg(test)]", ["{", "{", "}", "}"]);
    BraceThen("  ", ["}"]);
    BraceThen(" ", ["  ", "}"]);
    BraceThen(" ", [" ", "  ", "}"]);
    BraceThen("  ", [" ", " ", "  ", "}"]);
    BraceThen("{", ["  ", " ", " ", "  ", "}"]);
    BraceThen("#[cfg(test)]", ["{", "  ", " ", " ", "  ", "}"]);
    assert BraceLines([]) == [] by { NoBraceLines(); }
    assert ["}"] + [] == ["}"] && ["}"] + ["}"] == ["}", "}"] && ["{"] + ["}", "}"] == ["{", "}", "}"];
    assert ["{"] + ["{", "}", "}"] == ["{", "{", "}", "}"];
    assert ["#[cfg(test)]"] + ["{", "{", "}", "}"] == ["#[cfg(test)]", "{", "{", "}", "}"];
    assert ["  "] + ["}"] == ["  ", "}"] && [" "] + ["  ", "}"] == [" ", "  ", "}"] && [" "] + [" ", "  ", "}"] == [" ", " ", "  ", "}"];
    assert ["  "] + [" ", " ", "  ", "}"] == ["  ", " ", " ", "  ", "}"];
    assert ["{"] + ["  ", " ", " ", "  ", "}"] == ["{", "  ", " ", " ", "  ", "}"];
    assert ["#[cfg(test)]"] + ["{", "  ", " ", " ", "  ", "}"] == ["#[cfg(test)]", "{", "  ", " ", " ", "  ", "}"];
  }

  lemma NoBraceLines()
    ensures BraceLines([]) == []
  {
  }

  lemma BraceThen(l: string, rest: seq<string>)
    ensures BraceLines([l] + rest) == (if HasBrace(l) then [l] else []) + BraceLines(rest)
  {
    assert ([l] + rest)[1..] == rest;
  }

  lemma SourcesAre(word: char -> bool)
    ensures Read(word, PAST) == Some(Source(["#[cfg(test)]", "{", "{", "}", "}"], ["#[cfg(test)]", "{", "{", "}", "}"]))
    ensures Read(word, NOW) ==
            Some(Source(["#[cfg(test)]", "{", "/*", "{", "}", "*/", "}"], ["#[cfg(test)]", "{", "  ", " ", " ", "  ", "}"]))
  {
    hide T.Structural, Lines.Contents;
    PastStructure(word);
    NowStructure(word);
    PastLines();
    NowLines();
    StructureLines();
  }

  lemma PatchIsWhole()
    ensures !Elided(CHANGED.patch.value) && !AnyHidden([COMMENTED]) && SomethingChanges(COMMENTED.edits)
  {
    assert Print([COMMENTED]) != [];
    assert IsChange(COMMENTED.edits[2]);
  }

  lemma NothingAtBoundary(boundary: string -> bool)
    requires !boundary("/*") && !boundary("*/")
    ensures forall i | 0 <= i < |COMMENTED.edits| :: !AtBoundary(boundary, COMMENTED.edits[i])
  {
  }

  lemma AllHarmless()
    ensures ChangesAreHarmless(COMMENTED.edits, ["#[cfg(test)]", "{", "{", "}", "}"], [TestOnly.Range(1, 5)],
              ["#[cfg(test)]", "{", "  ", " ", " ", "  ", "}"], [TestOnly.Range(1, 7)])
  {
    hide OldNumber, NewNumber;
    CountsAre();
    var e := COMMENTED.edits;
    assert InRanges(3, [TestOnly.Range(1, 7)]) && InRanges(6, [TestOnly.Range(1, 7)]) by {
      assert [TestOnly.Range(1, 7)][0] == TestOnly.Range(1, 7);
    }
    forall i | 0 <= i < |e| && e[i].Add?
      ensures Harmless(["#[cfg(test)]", "{", "  ", " ", " ", "  ", "}"], [TestOnly.Range(1, 7)], NewNumber(e, i))
    {
      assert i == 2 || i == 5;
    }
  }

  lemma ScriptPasses(word: char -> bool, boundary: string -> bool)
    requires !boundary("/*") && !boundary("*/")
    ensures Passes(word, boundary, CHANGED, COMMENTED.edits)
  {
    hide Read, CfgTestRanges, NewNumber, OldNumber, CountEdits, SomethingChanges, ChangesAreHarmless, AtBoundary, Print;
    SourcesAre(word);
    PastRanges();
    NowRanges();
    TextsAre();
    PatchIsWhole();
    NothingAtBoundary(boundary);
    AllHarmless();
  }

  /** So it passes, and two lines with structural braces are gone. */
  lemma ConfinedYetBracesGo(word: char -> bool, boundary: string -> bool)
    requires !boundary("/*") && !boundary("*/")
    ensures Judge(word, boundary, CHANGED).Confined?
    ensures RealDiff(Lines.Contents(PAST), Lines.Contents(NOW), CHANGED.patch.value, [[], []], [COMMENTED])
    ensures Read(word, PAST).Some? && BraceLines(Read(word, PAST).value.structure) == ["{", "{", "}", "}"]
    ensures Read(word, NOW).Some? && BraceLines(Read(word, NOW).value.structure) == ["{", "}"]
  {
    hide Read, Judge, RealDiff, Passes, Elided, AnyHidden, SomethingChanges;
    SourcesAre(word);
    PastLines();
    NowLines();
    IsRealDiff();
    EditsAre();
    PatchIsWhole();
    ScriptPasses(word, boundary);
    BracesDiffer();
    ConfinedExactlyWhen(word, boundary, CHANGED, [[], []], [COMMENTED]);
  }
}
