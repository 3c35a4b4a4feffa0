/** The path patterns of the risk policy, and the regular expressions made of them. */
module GlobPatterns {
  import opened Characters
  import opened Splitting

  /** The pieces of the regular expressions that patterns become. */
  datatype Atom =
    | Char(c: char)        // an escaped character
    | NotSlash             // [^/]
    | NotSlashes           // [^/]*
    | Anything             // .*
    | Folders              // (?:.*/)?
    | Class(text: string)  // a bracket expression, taken over as it stands

  /** The first piece of a pattern, and how much of the pattern it takes. */
  function Head(g: string): (r: (Atom, nat))
    requires g != ""
    ensures 0 < r.1 <= |g|
  {
    if "**/" <= g then (Folders, 3)
    else if "**" <= g then (Anything, 2)
    else if g[0] == '*' then (NotSlashes, 1)
    else if g[0] == '?' then (NotSlash, 1)
    else if g[0] == '[' && FindChar(g, ']', 1) < |g| then (Class(g[..FindChar(g, ']', 1)+1]), FindChar(g, ']', 1) + 1)
    else (Char(g[0]), 1)
  }

  function Compile(g: string): seq<Atom>
    decreases |g|
  {
    if g == "" then [] else [Head(g).0] + Compile(g[Head(g).1..])
  }

  /** `glob_regex`. */
  method GlobRegex(pattern: string) returns (parts: seq<Atom>)
    ensures parts == Compile(pattern)
  {
    hide Head, Compile;
    parts := [];
    var index := 0;
    assert pattern[0..] == pattern;
    while index < |pattern|
      invariant index <= |pattern| && parts + Compile(pattern[index..]) == Compile(pattern)
    {
      var part, length := NextPart(pattern[index..]);
      OnePartMore(parts, pattern, index);
      parts, index := parts + [part], index + length;
    }
    assert pattern[index..] == "";
    CompileNothing();
  }

  /** The branches of its loop. */
  method NextPart(rest: string) returns (part: Atom, length: nat)
    requires rest != ""
    ensures (part, length) == Head(rest)
  {
    if "**/" <= rest {
      return Folders, 3;
    } else if "**" <= rest {
      return Anything, 2;
    } else if rest[0] == '*' {
      return NotSlashes, 1;
    } else if rest[0] == '?' {
      return NotSlash, 1;
    } else if rest[0] == '[' {
      var end := FindChar(rest, ']', 1);
      if end == |rest| {
        return Char('['), 1;
      }
      return Class(rest[..end+1]), end + 1;
    }
    return Char(rest[0]), 1;
  }

  lemma OnePartMore(parts: seq<Atom>, pattern: string, index: nat)
    requires index < |pattern| && parts + Compile(pattern[index..]) == Compile(pattern)
    ensures
      var (part, length) := Head(pattern[index..]);
      parts + [part] + Compile(pattern[index+length..]) == Compile(pattern)
  {
    hide Head;
    var length := Head(pattern[index..]).1;
    assert pattern[index..][length..] == pattern[index+length..];
  }

  /** Whether `^atoms$` matches; the dot matches no line break, and the end is
      also just before a last line break. What a bracket expression matches is
      given. */
  ghost predicate Accepts(inClass: (string, char) -> bool, atoms: seq<Atom>, s: string)
    decreases |atoms|
  {
    if atoms == [] then s == "" || s == "\n" else
      var rest := atoms[1..];
      match atoms[0]
      case Char(c) => s != "" && s[0] == c && Accepts(inClass, rest, s[1..])
      case NotSlash => s != "" && s[0] != '/' && Accepts(inClass, rest, s[1..])
      case NotSlashes => exists k :: 0 <= k <= |s| && '/' !in s[..k] && Accepts(inClass, rest, s[k..])
      case Anything => exists k :: 0 <= k <= |s| && '\n' !in s[..k] && Accepts(inClass, rest, s[k..])
      case Folders =>
        Accepts(inClass, rest, s) || exists k :: 0 < k <= |s| && s[k-1] == '/' && '\n' !in s[..k-1] && Accepts(inClass, rest, s[k..])
      case Class(text) => s != "" && inClass(text, s[0]) && Accepts(inClass, rest, s[1..])
  }

  // ------------------------------------------------------------- what a pattern means

  /** Where the bracket expression that `p` starts with ends, or 0. */
  function Bracket(p: string): (r: nat)
    ensures r <= |p| && r != 1
  {
    if p == "" || p[0] != '[' || FindChar(p, ']', 1) == |p| then 0 else FindChar(p, ']', 1) + 1
  }

  /** One component of a path against one of a pattern. */
  ghost predicate PartMatches(inClass: (string, char) -> bool, p: string, s: string)
    decreases |p|
  {
    if p == "" then s == ""
    else if p[0] == '*' then exists k :: 0 <= k <= |s| && PartMatches(inClass, p[1..], s[k..])
    else
      var n := Bracket(p);
      s != "" &&
      if n > 0 then inClass(p[..n], s[0]) && PartMatches(inClass, p[n..], s[1..])
      else (p[0] == '?' || p[0] == s[0]) && PartMatches(inClass, p[1..], s[1..])
  }

  const DEEP := "**"

  /** A path against a pattern, component by component: a double star stands for
      any number of directories, at the end for everything below. */
  ghost predicate PathMatches(inClass: (string, char) -> bool, ps: seq<string>, ss: seq<string>)
    decreases |ps|
  {
    if ps == [] then ss == []
    else if ps == [DEEP] then ss != []
    else if ps[0] == DEEP then exists k :: 0 <= k < |ss| && PathMatches(inClass, ps[1..], ss[k..])
    else ss != [] && PartMatches(inClass, ps[0], ss[0]) && if |ps| == 1 then |ss| == 1 else |ss| > 1 && PathMatches(inClass, ps[1..], ss[1..])
  }

  /** A component without two stars in a row, whose brackets are closed and match
      no slash. */
  ghost predicate Simple(inClass: (string, char) -> bool, p: string)
    decreases |p|
  {
    p == "" ||
      var n := Bracket(p);
      && p[0] != '/' && !(DEEP <= p)
      && if p[0] == '[' then n > 0 && '/' !in p[..n] && !inClass(p[..n], '/') && Simple(inClass, p[n..]) else Simple(inClass, p[1..])
  }

  /** A double star stands only for whole components. */
  ghost predicate Regular(inClass: (string, char) -> bool, ps: seq<string>) {
    ps != [] && forall p <- ps :: p == DEEP || Simple(inClass, p)
  }

  /** How much of a component its first piece takes, and that piece. */
  function Step(p: string): nat {
    if Bracket(p) > 0 then Bracket(p) else 1
  }

  function PartAtom(p: string): Atom
    requires p != ""
  {
    if p[0] == '*' then NotSlashes else if p[0] == '?' then NotSlash else if Bracket(p) > 0 then Class(p[..Bracket(p)]) else Char(p[0])
  }

  // ------------------------------------------------------------- the compiled pattern

  lemma SimpleStep(inClass: (string, char) -> bool, p: string)
    requires Simple(inClass, p) && p != ""
    ensures 0 < Step(p) <= |p| && Simple(inClass, p[Step(p)..])
    ensures PartAtom(p) != Char('/') && (PartAtom(p).Class? ==> !inClass(PartAtom(p).text, '/'))
  {
    hide Bracket;
    if p[0] != '[' {
      NoBracket(p);
    }
  }

  lemma HeadOfPart(inClass: (string, char) -> bool, p: string, rest: string)
    requires Simple(inClass, p) && p != "" && (rest == "" || rest[0] == '/')
    ensures Head(p + rest) == (PartAtom(p), Step(p))
  {
    hide FindChar;
    var g := p + rest;
    assert g[0] == p[0] && p[0] != '/' && !(DEEP <= p);
    assert p[0] == '[' ==> Bracket(p) > 0;
    hide Simple;
    if p[0] == '[' {
      ClosesAlike(p, rest);
      assert g[..Bracket(p)] == p[..Bracket(p)];
    } else {
      NoBracket(p);
      StarsAlike(p, rest);
    }
  }

  lemma NoBracket(p: string)
    requires p != "" && p[0] != '['
    ensures Bracket(p) == 0
  {
  }

  lemma StarsAlike(p: string, rest: string)
    requires p != "" && !(DEEP <= p) && (rest == "" || rest[0] == '/')
    ensures !(DEEP <= p + rest) && !("**/" <= p + rest)
  {
    var g := p + rest;
    assert g[0] == p[0];
    if |p| > 1 {
      assert g[1] == p[1];
    } else if rest != "" {
      assert g[1] == '/';
    }
  }

  lemma ClosesAlike(p: string, rest: string)
    requires Bracket(p) > 0
    ensures FindChar(p + rest, ']', 1) == FindChar(p, ']', 1)
  {
    var i, g := FindChar(p, ']', 1), p + rest;
    assert g[i] == p[i] && forall k | 1 <= k < i :: g[k] == p[k];
  }

  lemma {:induction false} CompilePart(inClass: (string, char) -> bool, p: string, rest: string)
    requires Simple(inClass, p) && (rest == "" || rest[0] == '/')
    ensures Compile(p + rest) == Compile(p) + Compile(rest)
    decreases |p|
  {
    hide Head, Simple, PartAtom;
    if p == "" {
      assert p + rest == rest;
    } else {
      SimpleStep(inClass, p);
      HeadOfPart(inClass, p, rest);
      HeadOfPart(inClass, p, "");
      assert p + "" == p;
      var n := Step(p);
      assert (p + rest)[n..] == p[n..] + rest;
      CompilePart(inClass, p[n..], rest);
    }
  }

  /** The pieces of a component. */
  lemma PartPieces(inClass: (string, char) -> bool, p: string)
    requires Simple(inClass, p) && p != ""
    ensures 0 < Step(p) <= |p| && Simple(inClass, p[Step(p)..]) && Compile(p) == [PartAtom(p)] + Compile(p[Step(p)..])
    ensures PartAtom(p) != Char('/') && (PartAtom(p).Class? ==> !inClass(PartAtom(p).text, '/'))
  {
    hide Head, Simple, PartAtom;
    SimpleStep(inClass, p);
    HeadOfPart(inClass, p, "");
    assert p + "" == p;
  }

  lemma CompileSlash(rest: string)
    ensures Compile("/" + rest) == [Char('/')] + Compile(rest)
  {
    var g := "/" + rest;
    assert g[1..] == rest && g[0] == '/';
    assert Head(g) == (Char('/'), 1);
  }

  lemma CompileDeep(rest: string)
    ensures Compile("**/" + rest) == [Folders] + Compile(rest) && Compile(DEEP) == [Anything]
  {
    assert ("**/" + rest)[3..] == rest && DEEP[2..] == "";
  }

  // ------------------------------------------------------------- components of a path

  lemma FindLater(s: string, k: nat, c: char)
    requires k <= |s| && c !in s[..k]
    ensures FindChar(s, c, 0) >= k && FindChar(s[k..], c, 0) == FindChar(s, c, 0) - k
  {
    var i := FindChar(s, c, 0);
    forall j | 0 <= j < k ensures s[j] != c {
      assert s[..k][j] == s[j] && s[..k][j] in s[..k];
    }
    var t := s[k..];
    assert forall j | 0 <= j < |t| :: t[j] == s[j+k];
    var m := FindChar(t, c, 0);
    assert m < |t| ==> s[m+k] == c;
    assert i < |s| ==> t[i-k] == c;
  }

  lemma NoneBefore(s: string, k: nat, c: char)
    requires k <= FindChar(s, c, 0)
    ensures c !in s[..k]
  {
    forall j | 0 <= j < k ensures s[..k][j] != c {
      assert s[..k][j] == s[j];
    }
  }

  lemma StarThenSlash(inClass: (string, char) -> bool, p: string, atoms: seq<Atom>, tail: seq<Atom>, s: string)
    requires p != "" && p[0] == '*' && atoms != [] && atoms[0].NotSlashes?
    requires
      var i := FindChar(s, '/', 0);
      forall k | 0 <= k <= i ::
        Accepts(inClass, atoms[1..], s[k..]) <==> i < |s| && PartMatches(inClass, p[1..], s[..i][k..]) && Accepts(inClass, tail, s[i+1..])
    ensures
      var i := FindChar(s, '/', 0);
      Accepts(inClass, atoms, s) <==> i < |s| && PartMatches(inClass, p, s[..i]) && Accepts(inClass, tail, s[i+1..])
  {
    var i := FindChar(s, '/', 0);
    forall k | 0 <= k <= |s| ensures '/' !in s[..k] <==> k <= i {
      if k <= i {
        NoneBefore(s, k, '/');
      } else {
        assert s[..k][i] == '/';
      }
    }
    hide FindChar;
  }

  /** A component, then a slash, then the rest. */
  lemma {:induction false} PartThenSlash(inClass: (string, char) -> bool, p: string, tail: seq<Atom>, s: string)
    requires Simple(inClass, p)
    ensures
      var i := FindChar(s, '/', 0);
      Accepts(inClass, Compile(p) + [Char('/')] + tail, s) <==>
        i < |s| && PartMatches(inClass, p, s[..i]) && Accepts(inClass, tail, s[i+1..])
    decreases |p|, 1
  {
    var atoms := Compile(p) + [Char('/')] + tail;
    if p == "" {
      SlashFirst(inClass, tail, s);
      assert atoms == [Char('/')] + tail;
    } else {
      PartPieces(inClass, p);
      hide Compile, Simple, FindChar, Accepts, PartMatches, PartAtom, Step;
      assert atoms[1..] == Compile(p[Step(p)..]) + [Char('/')] + tail && atoms[0] == PartAtom(p);
      if p[0] == '*' {
        StarPiece(p);
        StarsThenSlash(inClass, p, atoms, tail, s);
      } else if s != "" && s[0] != '/' {
        PartFurtherOn(inClass, p[Step(p)..], tail, s, 1);
        OneCharacter(inClass, p, atoms, tail, s, FindChar(s, '/', 0));
      } else {
        SlashNowhere(inClass, p, atoms, s);
        assert s != "" ==> FindChar(s, '/', 0) == 0 && s[..0] == "";
      }
    }
  }

  lemma StarPiece(p: string)
    requires p != "" && p[0] == '*'
    ensures Step(p) == 1 && PartAtom(p) == NotSlashes
  {
  }

  lemma {:induction false} StarsThenSlash(inClass: (string, char) -> bool, p: string, atoms: seq<Atom>, tail: seq<Atom>, s: string)
    requires p != "" && p[0] == '*' && Simple(inClass, p[1..])
    requires atoms != [] && atoms[0] == NotSlashes && atoms[1..] == Compile(p[1..]) + [Char('/')] + tail
    ensures
      var i := FindChar(s, '/', 0);
      Accepts(inClass, atoms, s) <==> i < |s| && PartMatches(inClass, p, s[..i]) && Accepts(inClass, tail, s[i+1..])
    decreases |p|, 0
  {
    hide Compile, Simple, FindChar, Accepts, PartMatches;
    var i := FindChar(s, '/', 0);
    forall k | 0 <= k <= i
      ensures Accepts(inClass, atoms[1..], s[k..]) <==>
              i < |s| && PartMatches(inClass, p[1..], s[..i][k..]) && Accepts(inClass, tail, s[i+1..])
    {
      PartFurtherOn(inClass, p[1..], tail, s, k);
    }
    StarThenSlash(inClass, p, atoms, tail, s);
  }

  lemma {:induction false} PartFurtherOn(inClass: (string, char) -> bool, p: string, tail: seq<Atom>, s: string, k: nat)
    requires Simple(inClass, p) && k <= FindChar(s, '/', 0)
    ensures
      var i := FindChar(s, '/', 0);
      Accepts(inClass, Compile(p) + [Char('/')] + tail, s[k..]) <==>
        i < |s| && PartMatches(inClass, p, s[..i][k..]) && Accepts(inClass, tail, s[i+1..])
    decreases |p|, 2
  {
    hide Compile, Simple, FindChar, Accepts, PartMatches;
    PartThenSlash(inClass, p, tail, s[k..]);
    FurtherOn(inClass, p, Compile(p) + [Char('/')] + tail, tail, s, k);
  }

  /** Behind `k` characters of the component it is the same, further on. */
  lemma FurtherOn(inClass: (string, char) -> bool, p: string, atoms: seq<Atom>, tail: seq<Atom>, s: string, k: nat)
    requires k <= FindChar(s, '/', 0)
    requires
      var i := FindChar(s[k..], '/', 0);
      Accepts(inClass, atoms, s[k..]) <==> i < |s[k..]| && PartMatches(inClass, p, s[k..][..i]) && Accepts(inClass, tail, s[k..][i+1..])
    ensures
      var i := FindChar(s, '/', 0);
      Accepts(inClass, atoms, s[k..]) <==> i < |s| && PartMatches(inClass, p, s[..i][k..]) && Accepts(inClass, tail, s[i+1..])
  {
    hide FindChar, PartMatches, Accepts;
    var i := FindChar(s, '/', 0);
    NoneBefore(s, k, '/');
    FindLater(s, k, '/');
    if i < |s| {
      assert s[k..][..i-k] == s[..i][k..] && s[k..][i-k+1..] == s[i+1..];
    }
  }

  lemma SlashFirst(inClass: (string, char) -> bool, tail: seq<Atom>, s: string)
    ensures
      var i := FindChar(s, '/', 0);
      Accepts(inClass, [Char('/')] + tail, s) <==> i < |s| && s[..i] == "" && Accepts(inClass, tail, s[i+1..])
  {
    var atoms := [Char('/')] + tail;
    assert atoms[1..] == tail && atoms[0] == Char('/');
    if s != "" && s[0] == '/' {
      assert s[0+1..] == s[1..];
    }
  }

  lemma OneCharacter(inClass: (string, char) -> bool, p: string, atoms: seq<Atom>, tail: seq<Atom>, s: string, i: nat)
    requires p != "" && p[0] != '*' && s != "" && s[0] != '/' && 0 < i <= |s| && atoms != [] && atoms[0] == PartAtom(p) && Step(p) <= |p|
    requires Accepts(inClass, atoms[1..], s[1..]) <==>
               i < |s| && PartMatches(inClass, p[Step(p)..], s[..i][1..]) && Accepts(inClass, tail, s[i+1..])
    ensures Accepts(inClass, atoms, s) <==> i < |s| && PartMatches(inClass, p, s[..i]) && Accepts(inClass, tail, s[i+1..])
  {
  }

  lemma SlashNowhere(inClass: (string, char) -> bool, p: string, atoms: seq<Atom>, s: string)
    requires p != "" && p[0] != '*' && atoms != [] && atoms[0] == PartAtom(p) && (s == "" || s[0] == '/')
    requires PartAtom(p) != Char('/') && (PartAtom(p).Class? ==> !inClass(PartAtom(p).text, '/'))
    ensures !Accepts(inClass, atoms, s) && !PartMatches(inClass, p, "")
  {
  }

  /** A component at the end. */
  lemma {:induction false} PartAtEnd(inClass: (string, char) -> bool, p: string, s: string)
    requires Simple(inClass, p) && '\n' !in s
    ensures Accepts(inClass, Compile(p), s) <==> '/' !in s && PartMatches(inClass, p, s)
    decreases |p|
  {
    var atoms := Compile(p);
    if p == "" {
      assert '\n' in "\n";
    } else {
      PartPieces(inClass, p);
      hide Compile, Simple;
      var rest := p[Step(p)..];
      assert atoms[0] == PartAtom(p) && atoms[1..] == Compile(rest);
      if p[0] == '*' {
        forall k | 0 <= k <= |s|
          ensures '/' !in s[..k] && Accepts(inClass, atoms[1..], s[k..]) <==> '/' !in s && PartMatches(inClass, rest, s[k..])
        {
          assert s == s[..k] + s[k..];
          PartAtEnd(inClass, rest, s[k..]);
        }
        assert PartMatches(inClass, p, s) <==> exists k :: 0 <= k <= |s| && PartMatches(inClass, p[1..], s[k..]);
      } else if s != "" && s[0] != '/' {
        assert s == [s[0]] + s[1..];
        PartAtEnd(inClass, rest, s[1..]);
      } else {
        SlashNowhere(inClass, p, atoms, s);
      }
    }
  }

  /** What follows a slash of a path is its last components. */
  lemma {:induction false} SuffixIsParts(s: string, k: nat) returns (j: nat)
    requires 0 < k <= |s| && s[k-1] == '/'
    ensures 0 < j < |Split(s, '/')| && Split(s, '/')[j..] == Split(s[k..], '/')
    decreases |s|
  {
    var i := FindChar(s, '/', 0);
    assert i < k;
    var rest := BehindFirst(s, i);
    hide FindChar, Split;
    if k == i + 1 {
      j := 1;
    } else {
      DropMore(s, i + 1, k - i - 1);
      var m := SuffixIsParts(rest, k - i - 1);
      OneDeeper(s, rest, m);
      j := m + 1;
    }
  }

  lemma BehindFirst(s: string, i: nat) returns (rest: string)
    requires i == FindChar(s, '/', 0) < |s|
    ensures rest == s[i+1..] && |rest| == |s| - i - 1
    ensures |Split(s, '/')| == |Split(rest, '/')| + 1 && Split(s, '/')[1..] == Split(rest, '/')
  {
    rest := s[i+1..];
    assert Split(s, '/') == [s[..i]] + Split(rest, '/');
  }

  lemma OneDeeper(s: string, rest: string, m: nat)
    requires |Split(s, '/')| > m && Split(s, '/')[1..] == Split(rest, '/') && m <= |Split(rest, '/')|
    ensures Split(s, '/')[m+1..] == Split(rest, '/')[m..]
  {
    hide Split;
  }

  lemma DropMore(s: string, a: nat, b: nat)
    requires 0 < b && a + b <= |s|
    ensures s[a..][b..] == s[a+b..] && s[a..][b-1] == s[a+b-1]
  {
  }

  lemma FirstSlash(s: string) returns (i: nat)
    requires |Split(s, '/')| > 1
    ensures i == FindChar(s, '/', 0) < |s| && s[i] == '/'
  {
    i := FindChar(s, '/', 0);
  }

  lemma {:induction false} PartsAreSuffix(s: string, j: nat) returns (k: nat)
    requires 0 < j < |Split(s, '/')|
    ensures 0 < k <= |s| && s[k-1] == '/' && Split(s, '/')[j..] == Split(s[k..], '/')
    decreases |s|
  {
    hide FindChar, Split;
    var i := FirstSlash(s);
    var rest := BehindFirst(s, i);
    if j == 1 {
      k := i + 1;
    } else {
      var m := PartsAreSuffix(rest, j - 1);
      OneDeeper(s, rest, j - 1);
      k := i + 1 + m;
      DropMore(s, i + 1, m);
    }
  }

  lemma NoSlash(s: string)
    ensures '/' !in s <==> FindChar(s, '/', 0) == |s|
    ensures '/' !in s ==> Split(s, '/') == [s]
    ensures '/' in s ==> |Split(s, '/')| > 1
  {
    var i := FindChar(s, '/', 0);
    if i == |s| {
      forall k | 0 <= k < |s| ensures s[k] != '/' {
      }
    } else {
      assert s[i] in s;
    }
  }

  ghost predicate Means(inClass: (string, char) -> bool, tail: seq<Atom>, ps: seq<string>) {
    forall t: string | '\n' !in t :: Accepts(inClass, tail, t) <==> PathMatches(inClass, ps, Split(t, '/'))
  }

  lemma NoBreaks(s: string, k: nat)
    requires '\n' !in s && k <= |s|
    ensures '\n' !in s[k..] && '\n' !in s[..k]
  {
    assert forall c <- s[k..] :: c in s;
    assert forall c <- s[..k] :: c in s;
  }

  // `(?:.*/)?` takes nothing, or everything up to a slash.
  lemma AcceptsFolders(inClass: (string, char) -> bool, tail: seq<Atom>, s: string)
    requires '\n' !in s
    ensures Accepts(inClass, [Folders] + tail, s) <==>
              Accepts(inClass, tail, s) || exists k :: 0 < k <= |s| && s[k-1] == '/' && Accepts(inClass, tail, s[k..])
  {
    var atoms := [Folders] + tail;
    assert atoms[1..] == tail && atoms[0] == Folders;
    forall m | 0 <= m <= |s| ensures '\n' !in s[..m] {
      NoBreaks(s, m);
    }
  }

  lemma AcceptsDeep(inClass: (string, char) -> bool, ps: seq<string>, tail: seq<Atom>, s: string)
    requires '\n' !in s && Means(inClass, tail, ps)
    ensures Accepts(inClass, [Folders] + tail, s) <==> exists k :: 0 <= k < |Split(s, '/')| && PathMatches(inClass, ps, Split(s, '/')[k..])
  {
    hide Accepts, PathMatches, Split;
    var ss := Split(s, '/');
    assert ss[0..] == ss;
    AcceptsFolders(inClass, tail, s);
    if k :| 0 < k <= |s| && s[k-1] == '/' && Accepts(inClass, tail, s[k..]) {
      NoBreaks(s, k);
      var j := SuffixIsParts(s, k);
      assert PathMatches(inClass, ps, ss[j..]);
    }
    if j :| 0 <= j < |ss| && PathMatches(inClass, ps, ss[j..]) {
      if j > 0 {
        var k := PartsAreSuffix(s, j);
        NoBreaks(s, k);
        assert Accepts(inClass, tail, s[k..]);
      }
    }
  }

  lemma {:induction false} CompiledMeans(inClass: (string, char) -> bool, ps: seq<string>, s: string)
    requires Regular(inClass, ps) && '\n' !in s
    ensures Accepts(inClass, Compile(Join(ps, '/')), s) <==> PathMatches(inClass, ps, Split(s, '/'))
    decreases |ps|
  {
    hide Simple, Compile, Head;
    var ss, i := Split(s, '/'), FindChar(s, '/', 0);
    NoSlash(s);
    assert ps[0] in ps;
    if |ps| == 1 {
      if ps[0] == DEEP {
        assert ps == [DEEP];
        CompileDeep("");
        AnythingGoes(inClass, s);
      } else {
        PartAtEnd(inClass, ps[0], s);
      }
    } else {
      var rest := ps[1..];
      var tail := Compile(Join(rest, '/'));
      forall t: string | '\n' !in t ensures Accepts(inClass, tail, t) <==> PathMatches(inClass, rest, Split(t, '/')) {
        CompiledMeans(inClass, rest, t);
      }
      if ps[0] == DEEP {
        CompileDeep(Join(rest, '/'));
        assert Join(ps, '/') == "**/" + Join(rest, '/');
        AcceptsDeep(inClass, rest, tail, s);
      } else {
        assert Join(ps, '/') == ps[0] + ("/" + Join(rest, '/'));
        CompilePart(inClass, ps[0], "/" + Join(rest, '/'));
        CompileSlash(Join(rest, '/'));
        assert Compile(ps[0]) + ([Char('/')] + tail) == Compile(ps[0]) + [Char('/')] + tail;
        PartThenSlash(inClass, ps[0], tail, s);
        if i < |s| {
          assert ss == [s[..i]] + Split(s[i+1..], '/');
          assert forall c <- s[i+1..] :: c in s;
        }
      }
    }
  }

  lemma CompileNothing()
    ensures Compile("") == []
  {
  }

  lemma AnythingGoes(inClass: (string, char) -> bool, s: string)
    requires '\n' !in s
    ensures Accepts(inClass, [Anything], s)
  {
    assert s[..|s|] == s && s[|s|..] == "";
    assert Accepts(inClass, [], "");
  }

  /** A pattern in which double stars stand for whole components, and brackets
      match no slash, matches a path exactly when its components do. */
  lemma GlobMeans(inClass: (string, char) -> bool, pattern: string, path: string)
    requires Regular(inClass, Split(pattern, '/')) && '\n' !in path
    ensures Accepts(inClass, Compile(pattern), path) <==> PathMatches(inClass, Split(pattern, '/'), Split(path, '/'))
  {
    JoinSplits(pattern, '/');
    CompiledMeans(inClass, Split(pattern, '/'), path);
  }

  // ------------------------------------------------------------- every pattern

  function Concat(pieces: seq<string>): string {
    if pieces == [] then "" else pieces[0] + Concat(pieces[1..])
  }

  /** How a piece of a pattern is written. */
  function Spelling(a: Atom): string {
    match a
    case Char(c) => [c]
    case NotSlash => "?"
    case NotSlashes => "*"
    case Anything => "**"
    case Folders => "**/"
    case Class(text) => text
  }

  function Spellings(atoms: seq<Atom>): seq<string> {
    seq(|atoms|, i requires 0 <= i < |atoms| => Spelling(atoms[i]))
  }

  /** What a piece of a pattern stands for: one character, one that is no slash,
      any number of these, anything, or any number of directories. */
  ghost predicate StandsFor(inClass: (string, char) -> bool, a: Atom, piece: string) {
    match a
    case Char(c) => piece == [c]
    case NotSlash => |piece| == 1 && piece[0] != '/'
    case NotSlashes => '/' !in piece
    case Anything => true
    case Folders => piece == "" || piece[|piece|-1] == '/'
    case Class(text) => |piece| == 1 && inClass(text, piece[0])
  }

  ghost predicate Cut(inClass: (string, char) -> bool, atoms: seq<Atom>, pieces: seq<string>, s: string) {
    |pieces| == |atoms| && Concat(pieces) == s && forall i | 0 <= i < |atoms| :: StandsFor(inClass, atoms[i], pieces[i])
  }

  /** The first piece takes `k` characters of `s`, and the rest matches the rest. */
  ghost predicate TakesFirst(inClass: (string, char) -> bool, atoms: seq<Atom>, s: string, k: nat)
    requires atoms != []
  {
    k <= |s| && StandsFor(inClass, atoms[0], s[..k]) && Accepts(inClass, atoms[1..], s[k..])
  }

  lemma FirstPiece(inClass: (string, char) -> bool, atoms: seq<Atom>, s: string)
    requires atoms != [] && '\n' !in s
    ensures Accepts(inClass, atoms, s) <==> exists k: nat :: TakesFirst(inClass, atoms, s, k)
  {
    var rest := atoms[1..];
    forall k | 0 <= k <= |s| ensures '\n' !in s[..k] {
      NoBreaks(s, k);
    }
    match atoms[0]
    case Folders =>
      assert TakesFirst(inClass, atoms, s, 0) <==> Accepts(inClass, rest, s) by {
        assert s[0..] == s && s[..0] == "";
      }
      assert forall k | 0 < k <= |s| :: s[..k][k-1] == s[k-1];
      assert forall k | 0 < k <= |s| :: TakesFirst(inClass, atoms, s, k) <==> s[k-1] == '/' && Accepts(inClass, rest, s[k..]);
    case NotSlashes =>
      assert forall k | 0 <= k <= |s| :: TakesFirst(inClass, atoms, s, k) <==> '/' !in s[..k] && Accepts(inClass, rest, s[k..]);
    case Anything =>
      assert forall k | 0 <= k <= |s| :: TakesFirst(inClass, atoms, s, k) <==> Accepts(inClass, rest, s[k..]);
    case _ =>
      assert forall k :: TakesFirst(inClass, atoms, s, k) ==> k == 1;
      assert s != "" ==> s[..1] == [s[0]];
      assert Accepts(inClass, atoms, s) <==> TakesFirst(inClass, atoms, s, 1);
  }

  lemma {:induction false} AcceptsCuts(inClass: (string, char) -> bool, atoms: seq<Atom>, s: string)
    requires '\n' !in s
    ensures Accepts(inClass, atoms, s) <==> exists pieces :: Cut(inClass, atoms, pieces, s)
    decreases |atoms|
  {
    hide StandsFor;
    if atoms == [] {
      assert Cut(inClass, atoms, [], "");
      assert '\n' in "\n";
    } else {
      FirstPiece(inClass, atoms, s);
      hide Accepts;
      if k: nat :| TakesFirst(inClass, atoms, s, k) {
        NoBreaks(s, k);
        AcceptsCuts(inClass, atoms[1..], s[k..]);
        var pieces :| Cut(inClass, atoms[1..], pieces, s[k..]);
        PutFirst(inClass, atoms, s[..k], pieces, s[k..]);
        assert s == s[..k] + s[k..];
      }
      if pieces :| Cut(inClass, atoms, pieces, s) {
        var k := |pieces[0]|;
        assert s[..k] == pieces[0] && s[k..] == Concat(pieces[1..]);
        NoBreaks(s, k);
        assert Cut(inClass, atoms[1..], pieces[1..], s[k..]);
        AcceptsCuts(inClass, atoms[1..], s[k..]);
        assert TakesFirst(inClass, atoms, s, k);
      }
    }
  }

  lemma PutFirst(inClass: (string, char) -> bool, atoms: seq<Atom>, piece: string, pieces: seq<string>, s: string)
    requires atoms != [] && StandsFor(inClass, atoms[0], piece) && Cut(inClass, atoms[1..], pieces, s)
    ensures Cut(inClass, atoms, [piece] + pieces, piece + s)
  {
    hide StandsFor;
    var all := [piece] + pieces;
    assert all[1..] == pieces;
    forall i | 0 <= i < |atoms| ensures StandsFor(inClass, atoms[i], all[i]) {
      if i > 0 {
        assert atoms[i] == atoms[1..][i-1] && all[i] == pieces[i-1];
      }
    }
  }

  lemma {:induction false} CompileSpells(g: string)
    ensures Concat(Spellings(Compile(g))) == g
    decreases |g|
  {
    if g != "" {
      hide Head;
      var (a, n) := Head(g);
      HeadSpells(g);
      CompileSpells(g[n..]);
      FirstSpelling(a, Compile(g[n..]));
      assert g == g[..n] + g[n..];
    }
  }

  lemma FirstSpelling(a: Atom, atoms: seq<Atom>)
    ensures Concat(Spellings([a] + atoms)) == Spelling(a) + Concat(Spellings(atoms))
  {
    hide Spelling;
    assert Spellings([a] + atoms)[1..] == Spellings(atoms);
  }

  lemma HeadSpells(g: string)
    requires g != ""
    ensures Spelling(Head(g).0) == g[..Head(g).1]
  {
  }

  /** Every pattern: its pieces, put together as they are written, are the
      pattern, and a path matches exactly when it can be cut into as many parts,
      each of which its piece stands for. */
  lemma EveryGlobMeans(inClass: (string, char) -> bool, pattern: string, path: string)
    requires '\n' !in path
    ensures Concat(Spellings(Compile(pattern))) == pattern
    ensures Accepts(inClass, Compile(pattern), path) <==> exists pieces :: Cut(inClass, Compile(pattern), pieces, path)
  {
    CompileSpells(pattern);
    AcceptsCuts(inClass, Compile(pattern), path);
  }
}
