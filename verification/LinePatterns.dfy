/** The patterns by which the scripts tell what a line is, each against the texts it
    is written for. */
module LinePatterns {
  import opened Options
  import M = MarkdownLines
  import S = SkillMigration
  import O = TestOnly

  predicate AllOf(s: string, p: char -> bool) {
    forall i | 0 <= i < |s| :: p(s[i])
  }

  predicate StartsWithout(s: string, p: char -> bool) {
    s == "" || !p(s[0])
  }

  /** `n` times the same character. */
  function Times(c: char, n: nat): (r: string)
    ensures |r| == n && forall i | 0 <= i < n :: r[i] == c
  {
    seq(n, _ => c)
  }

  lemma {:induction false} RunIs(l: string, i: nat, n: nat, p: char -> bool)
    requires i + n <= |l| && (forall k | i <= k < i + n :: p(l[k])) && (i + n < |l| ==> !p(l[i+n]))
    ensures M.Run(l, i, p) == n
    decreases n
  {
    if n > 0 {
      RunIs(l, i + 1, n - 1, p);
    }
  }

  /** A run at the place where `b` stands between `a` and `c`. */
  lemma RunBetween(a: string, b: string, c: string, p: char -> bool)
    requires AllOf(b, p) && StartsWithout(c, p)
    ensures M.Run(a + b + c, |a|, p) == |b|
  {
    var l := a + b + c;
    assert forall k | 0 <= k < |b| :: l[|a|+k] == b[k];
    assert c != "" ==> l[|a|+|b|] == c[0];
    RunIs(l, |a|, |b|, p);
  }

  lemma RunPart(l: string, i: nat, p: char -> bool)
    requires i <= |l|
    ensures AllOf(l[i..i+M.Run(l, i, p)], p) && StartsWithout(l[i+M.Run(l, i, p)..], p)
  {
    hide M.Run;
  }

  // ------------------------------------------------------------- table headers and keys

  /** `[ name ]` with any space around and inside. */
  ghost predicate IsHeader(c: string, name: string) {
    exists a, b, d, e ::
      && AllOf(a, M.Space) && AllOf(b, M.Space) && AllOf(d, M.Space) && AllOf(e, M.Space)
      && name != "" && AllOf(name, S.NameChar) && c == a + "[" + b + name + d + "]" + e
  }

  lemma SpacesAreApart()
    ensures !M.Space('[') && !M.Space(']') && !M.Space('=') && !S.NameChar(']') && !S.KeyChar('=')
    ensures forall c :: M.Space(c) ==> !S.NameChar(c) && !S.KeyChar(c) && c != '[' && c != ']' && c != '='
  {
  }

  lemma OuterRun(a: string, rest: string)
    requires AllOf(a, M.Space)
    ensures M.Run(a + "[" + rest, 0, M.Space) == |a|
  {
    hide M.Run;
    SpacesAreApart();
    hide M.Space, AllOf;
    RunBetween("", a, "[" + rest, M.Space);
    assert a + "[" + rest == "" + a + ("[" + rest);
  }

  lemma InnerRun(front: string, b: string, name: string, rest: string)
    requires AllOf(b, M.Space) && name != "" && AllOf(name, S.NameChar)
    ensures M.Run(front + b + name + rest, |front|, M.Space) == |b|
  {
    hide M.Run;
    SpacesAreApart();
    assert !M.Space(name[0]);
    hide M.Space, S.NameChar, AllOf;
    RunBetween(front, b, name + rest, M.Space);
    assert front + b + name + rest == front + b + (name + rest);
  }

  lemma NameRun(front: string, name: string, d: string, rest: string)
    requires AllOf(name, S.NameChar) && AllOf(d, M.Space)
    ensures M.Run(front + name + d + "]" + rest, |front|, S.NameChar) == |name|
  {
    hide M.Run;
    SpacesAreApart();
    assert d != "" ==> !S.NameChar(d[0]);
    hide M.Space, S.NameChar, AllOf;
    var c := front + name + d + "]" + rest;
    var behind := d + ("]" + rest);
    assert behind[0] == if d == "" then ']' else d[0];
    RunBetween(front, name, behind, S.NameChar);
    assert c == front + name + behind;
  }

  lemma LastRuns(front: string, d: string, e: string)
    requires AllOf(d, M.Space) && AllOf(e, M.Space)
    ensures
      var c := front + d + "]" + e;
      M.Run(c, |front|, M.Space) == |d| && M.Run(c, |front| + |d| + 1, M.Space) == |e|
  {
    hide M.Run;
    SpacesAreApart();
    hide M.Space, AllOf;
    var c := front + d + "]" + e;
    RunBetween(front, d, "]" + e, M.Space);
    assert c == front + d + ("]" + e);
    assert StartsWithout("", M.Space);
    RunBetween(front + d + "]", e, "", M.Space);
    assert c == front + d + "]" + e + "";
  }

  lemma SameHeader(a: string, b: string, name: string, d: string, e: string)
    ensures a + "[" + b + name + d + "]" + e == a + "[" + (b + name + d + "]" + e)
    ensures a + "[" + b + name + d + "]" + e == (a + "[") + b + name + (d + "]" + e)
  {
  }

  lemma HeaderIsFound(a: string, b: string, name: string, d: string, e: string)
    requires AllOf(a, M.Space) && AllOf(b, M.Space) && AllOf(d, M.Space) && AllOf(e, M.Space) && name != "" && AllOf(name, S.NameChar)
    ensures S.TableName(a + "[" + b + name + d + "]" + e) == Some(name)
  {
    hide M.Run, M.Space, S.NameChar, AllOf;
    var c := a + "[" + b + name + d + "]" + e;
    var front := a + "[" + b;
    SameHeader(a, b, name, d, e);
    OuterRun(a, b + name + d + "]" + e);
    InnerRun(a + "[", b, name, d + "]" + e);
    NameRun(front, name, d, e);
    LastRuns(front + name, d, e);
    assert c[|a|] == '[' && c[|front|+|name|+|d|] == ']' && c[|front|..|front|+|name|] == name;
  }

  lemma HeaderIsShaped(c: string)
    requires S.TableName(c).Some?
    ensures IsHeader(c, S.TableName(c).value)
  {
    hide M.Space, S.NameChar, M.Run, AllOf, StartsWithout, IsHeader;
    var i := M.Run(c, 0, M.Space);
    var j := i + 1 + M.Run(c, i + 1, M.Space);
    var k := j + M.Run(c, j, S.NameChar);
    var l := k + M.Run(c, k, M.Space);
    assert S.TableName(c) == Some(c[j..k]);
    hide S.TableName;
    RunSlice(c, 0, i, M.Space);
    RunSlice(c, i + 1, j, M.Space);
    RunSlice(c, j, k, S.NameChar);
    RunSlice(c, k, l, M.Space);
    RunSlice(c, l + 1, |c|, M.Space);
    HeaderParts(c, i, j, k, l);
  }

  lemma RunSlice(l: string, i: nat, j: nat, p: char -> bool)
    requires i <= |l| && j == i + M.Run(l, i, p)
    ensures j <= |l| && AllOf(l[i..j], p)
  {
    hide M.Run;
  }

  lemma HeaderParts(c: string, i: nat, j: nat, k: nat, l: nat)
    requires i < j < k <= l < |c| && c[i] == '[' && c[l] == ']'
    requires AllOf(c[0..i], M.Space) && AllOf(c[i+1..j], M.Space) && AllOf(c[j..k], S.NameChar) && AllOf(c[k..l], M.Space)
    requires AllOf(c[l+1..|c|], M.Space)
    ensures IsHeader(c, c[j..k])
  {
    hide M.Space, S.NameChar, AllOf;
    var a, b, d, e := c[0..i], c[i+1..j], c[k..l], c[l+1..|c|];
    assert c == a + "[" + b + c[j..k] + d + "]" + e;
  }

  /** `RE_TABLE` finds a name exactly in these lines. */
  lemma TableNameMeans(c: string, name: string)
    ensures S.TableName(c) == Some(name) <==> IsHeader(c, name)
  {
    hide S.TableName, AllOf;
    if S.TableName(c) == Some(name) {
      HeaderIsShaped(c);
    }
    if IsHeader(c, name) {
      var a, b, d, e :| AllOf(a, M.Space) && AllOf(b, M.Space) && AllOf(d, M.Space) && AllOf(e, M.Space)
        && name != "" && AllOf(name, S.NameChar) && c == a + "[" + b + name + d + "]" + e;
      HeaderIsFound(a, b, name, d, e);
    }
  }

  /** `key = …`. */
  ghost predicate IsAssignment(c: string, key: string) {
    exists a, d, rest ::
      AllOf(a, M.Space) && AllOf(d, M.Space) && key != "" && AllOf(key, S.KeyChar) && c == a + key + d + "=" + rest
  }

  lemma AssignmentIsShaped(c: string)
    requires S.KeyName(c).Some?
    ensures IsAssignment(c, S.KeyName(c).value)
  {
    hide M.Space, S.KeyChar, M.Run, AllOf, StartsWithout, IsAssignment;
    var i := M.Run(c, 0, M.Space);
    var j := i + M.Run(c, i, S.KeyChar);
    var k := j + M.Run(c, j, M.Space);
    assert S.KeyName(c) == Some(c[i..j]);
    hide S.KeyName;
    RunSlice(c, 0, i, M.Space);
    RunSlice(c, i, j, S.KeyChar);
    RunSlice(c, j, k, M.Space);
    AssignmentParts(c, i, j, k);
  }

  lemma AssignmentParts(c: string, i: nat, j: nat, k: nat)
    requires i < j <= k < |c| && c[k] == '=' && AllOf(c[0..i], M.Space) && AllOf(c[i..j], S.KeyChar) && AllOf(c[j..k], M.Space)
    ensures IsAssignment(c, c[i..j])
  {
    hide M.Space, S.KeyChar, AllOf;
    assert c == c[0..i] + c[i..j] + c[j..k] + "=" + c[k+1..];
  }

  /** `RE_KEY` finds a key exactly in these lines. */
  lemma KeyNameMeans(c: string, key: string)
    ensures S.KeyName(c) == Some(key) <==> IsAssignment(c, key)
  {
    hide S.KeyName, AllOf;
    if S.KeyName(c) == Some(key) {
      AssignmentIsShaped(c);
    }
    if IsAssignment(c, key) {
      var a, d, rest :| AllOf(a, M.Space) && AllOf(d, M.Space) && key != "" && AllOf(key, S.KeyChar) && c == a + key + d + "=" + rest;
      AssignmentIsFound(a, key, d, rest);
    }
  }

  lemma AssignmentIsFound(a: string, key: string, d: string, rest: string)
    requires AllOf(a, M.Space) && AllOf(d, M.Space) && key != "" && AllOf(key, S.KeyChar)
    ensures S.KeyName(a + key + d + "=" + rest) == Some(key)
  {
    SpacesAreApart();
    hide M.Space, S.KeyChar, M.Run;
    var c := a + key + d + "=" + rest;
    RunBetween("", a, key + d + "=" + rest, M.Space);
    assert c == "" + a + (key + d + "=" + rest);
    assert StartsWithout(d + "=" + rest, S.KeyChar) by { assert (d + "=" + rest)[0] == if d == "" then '=' else d[0]; }
    RunBetween(a, key, d + "=" + rest, S.KeyChar);
    assert c == a + key + (d + "=" + rest);
    RunBetween(a + key, d, "=" + rest, M.Space);
    assert c == a + key + d + ("=" + rest);
    assert c[|a|..|a|+|key|] == key;
  }

  // ------------------------------------------------------------- fences and headings

  ghost predicate IsFence(l: string, a: string, m: char, n: nat, rest: string) {
    AllOf(a, M.Blank) && (m == '`' || m == '~') && n >= 3 && l == a + Times(m, n) + rest && StartsWithout(rest, M.Same(m))
  }

  lemma FenceIsFound(l: string, a: string, m: char, n: nat, rest: string)
    requires IsFence(l, a, m, n, rest)
    ensures M.FenceOf(l) == Some((M.Fence(m, n), rest))
  {
    hide M.Run;
    RunBetween("", a, Times(m, n) + rest, M.Blank);
    assert l == "" + a + (Times(m, n) + rest);
    RunBetween(a, Times(m, n), rest, M.Same(m));
    assert l[|a|] == m && l[|a|+n..] == rest;
  }

  lemma FenceIsShaped(l: string, m: char, n: nat, rest: string)
    requires M.FenceOf(l) == Some((M.Fence(m, n), rest))
    ensures IsFence(l, l[..M.Indent(l)], m, n, rest)
  {
    hide M.Run;
    var i := M.Indent(l);
    RunPart(l, 0, M.Blank);
    RunPart(l, i, M.Same(m));
    assert l[0..i] == l[..i] && l[i..i+n] == Times(m, n);
    assert l == l[..i] + Times(m, n) + rest;
  }

  /** A fence: blanks, three or more backticks or tildes, and the rest, which does not
      go on with the same character. */
  lemma FenceMeans(l: string, m: char, n: nat, rest: string)
    ensures M.FenceOf(l) == Some((M.Fence(m, n), rest)) <==> exists a :: IsFence(l, a, m, n, rest)
  {
    hide M.FenceOf, IsFence;
    if M.FenceOf(l) == Some((M.Fence(m, n), rest)) {
      FenceIsShaped(l, m, n, rest);
    }
    if a :| IsFence(l, a, m, n, rest) {
      FenceIsFound(l, a, m, n, rest);
    }
  }

  ghost predicate IsHeading(l: string, a: string, n: nat, rest: string) {
    AllOf(a, M.Blank) && |a| <= 3 && 1 <= n <= 6 && l == a + Times('#', n) + rest && (rest == "" || M.Blank(rest[0]))
  }

  lemma HeadingIsFound(l: string, a: string, n: nat, rest: string)
    requires IsHeading(l, a, n, rest)
    ensures M.Heading(l)
  {
    hide M.Run;
    assert StartsWithout(rest, M.Same('#'));
    RunBetween("", a, Times('#', n) + rest, M.Blank);
    assert l == "" + a + (Times('#', n) + rest);
    RunBetween(a, Times('#', n), rest, M.Same('#'));
    assert rest != "" ==> l[|a|+n] == rest[0];
  }

  lemma HeadingIsShaped(l: string)
    requires M.Heading(l)
    ensures
      var i := M.Indent(l);
      var n := M.Run(l, i, M.Same('#'));
      IsHeading(l, l[..i], n, l[i+n..])
  {
    hide M.Run;
    var i := M.Indent(l);
    var n := M.Run(l, i, M.Same('#'));
    RunPart(l, 0, M.Blank);
    RunPart(l, i, M.Same('#'));
    assert l[0..i] == l[..i] && l[i..i+n] == Times('#', n);
  }

  /** A heading: up to three blanks, one to six hashes, and a blank or nothing. */
  lemma HeadingMeans(l: string)
    ensures M.Heading(l) <==> exists a, n, rest :: IsHeading(l, a, n, rest)
  {
    hide M.Run, IsHeading, M.Heading;
    if M.Heading(l) {
      HeadingIsShaped(l);
    }
    if a, n: nat, rest :| IsHeading(l, a, n, rest) {
      HeadingIsFound(l, a, n, rest);
    }
  }

  // ------------------------------------------------------------- the attribute

  /** The words with a gap before each and after the last. */
  function Spaced(gaps: seq<string>, ws: seq<string>): string
    requires |gaps| == |ws| + 1
  {
    if ws == [] then gaps[0] else gaps[0] + ws[0] + Spaced(gaps[1..], ws[1..])
  }

  ghost predicate Apart(l: string, ws: seq<string>) {
    exists gaps :: |gaps| == |ws| + 1 && (forall g <- gaps :: AllOf(g, M.Space)) && l == Spaced(gaps, ws)
  }

  lemma {:induction false} SkipIs(l: string, i: nat, n: nat)
    requires i + n <= |l| && (forall k | i <= k < i + n :: M.Space(l[k])) && (i + n < |l| ==> !M.Space(l[i+n]))
    ensures O.SkipSpace(l, i) == i + n
    decreases n
  {
    hide M.Space;
    if n > 0 {
      SkipIs(l, i + 1, n - 1);
    }
  }

  /** The line consists of these words with any space between and around them. */
  lemma {:induction false} WordsMean(l: string, i: nat, ws: seq<string>)
    requires i <= |l| && forall w <- ws :: w != "" && !M.Space(w[0])
    ensures O.Words(l, i, ws) <==> Apart(l[i..], ws)
    decreases |ws|
  {
    hide Apart, M.Space, O.SkipSpace;
    if ws == [] {
      WordsEnd(l, i);
    } else {
      var j := O.SkipSpace(l, i);
      var w := ws[0];
      assert w in ws;
      if w <= l[j..] {
        assert forall x <- ws[1..] :: x in ws;
        WordsMean(l, j + |w|, ws[1..]);
        if Apart(l[j+|w|..], ws[1..]) {
          StartsApart(l, i, ws);
        }
      }
      if Apart(l[i..], ws) {
        ApartStarts(l, i, ws);
      }
    }
  }

  lemma StartsApart(l: string, i: nat, ws: seq<string>)
    requires i <= |l| && ws != [] && ws[0] <= l[O.SkipSpace(l, i)..] && Apart(l[O.SkipSpace(l, i)+|ws[0]|..], ws[1..])
    ensures Apart(l[i..], ws)
  {
    hide M.Space, O.SkipSpace;
    var j := O.SkipSpace(l, i);
    O.SkipsSpaces(l, i);
    var gap := l[i..j];
    assert AllOf(gap, M.Space);
    var w := ws[0];
    var gaps :| |gaps| == |ws| && (forall g <- gaps :: AllOf(g, M.Space)) && l[j+|w|..] == Spaced(gaps, ws[1..]);
    hide AllOf;
    var all := [gap] + gaps;
    assert all[1..] == gaps && l[i..] == gap + w + l[j+|w|..];
    assert forall g <- all :: g == gap || g in gaps;
  }

  lemma WordsEnd(l: string, i: nat)
    requires i <= |l|
    ensures O.SkipSpace(l, i) == |l| <==> Apart(l[i..], [])
  {
    hide M.Space;
    O.SkipsSpaces(l, i);
    if O.SkipSpace(l, i) == |l| {
      var gaps := [l[i..]];
      assert l[i..] == Spaced(gaps, []) && forall g <- gaps :: AllOf(g, M.Space);
    }
    if Apart(l[i..], []) {
      var gaps :| |gaps| == 1 && (forall g <- gaps :: AllOf(g, M.Space)) && l[i..] == Spaced(gaps, []);
      assert gaps[0] in gaps && l[i..] == gaps[0];
      assert forall k | i <= k < |l| :: l[k] == l[i..][k-i];
      SkipIs(l, i, |l| - i);
    }
  }

  lemma GapIsSkipped(l: string, i: nat, g: string, w: string, rest: string)
    requires i <= |l| && l[i..] == g + w + rest && AllOf(g, M.Space) && w != "" && !M.Space(w[0])
    ensures O.SkipSpace(l, i) == i + |g| && |w| <= |l| - i - |g| && l[i+|g|..] == w + rest && l[i+|g|+|w|..] == rest
  {
    hide M.Space;
    assert forall k | 0 <= k < |g| :: l[i+k] == l[i..][k] == g[k];
    assert l[i+|g|] == l[i..][|g|] == w[0];
    SkipIs(l, i, |g|);
    assert l[i+|g|..] == l[i..][|g|..] && l[i+|g|+|w|..] == l[i..][|g|+|w|..];
  }

  lemma ApartStarts(l: string, i: nat, ws: seq<string>)
    requires i <= |l| && ws != [] && ws[0] != "" && !M.Space(ws[0][0]) && Apart(l[i..], ws)
    ensures var j := O.SkipSpace(l, i); ws[0] <= l[j..] && Apart(l[j+|ws[0]|..], ws[1..])
  {
    hide M.Space, AllOf, O.SkipSpace;
    var gaps :| |gaps| == |ws| + 1 && (forall g <- gaps :: AllOf(g, M.Space)) && l[i..] == Spaced(gaps, ws);
    assert gaps[0] in gaps && forall x <- gaps[1..] :: x in gaps;
    GapIsSkipped(l, i, gaps[0], ws[0], Spaced(gaps[1..], ws[1..]));
  }

  /** `CFG_TEST_RE`. */
  lemma CfgTestMeans(l: string)
    ensures O.CfgTest(l) <==> Apart(l, ["#", "[", "cfg", "(", "test", ")", "]"])
  {
    var ws := ["#", "[", "cfg", "(", "test", ")", "]"];
    assert forall w <- ws :: w != "" && !M.Space(w[0]);
    hide M.Space, O.Words, Apart;
    assert l[0..] == l;
    WordsMean(l, 0, ws);
  }
}
