/** Inline code spans across the lines of a document: the scanner of the link
    checker, and the lookahead that tells it whether a backtick opens a span. */
module CodeSpans {
  import Ordering
  import opened Options
  import opened MarkdownLines

  // ------------------------------------------------------------- one line

  function FindTick(l: string, i: nat): (r: nat)
    requires i <= |l|
    ensures i <= r <= |l|
    ensures forall k | i <= k < r :: l[k] != '`'
    ensures r < |l| ==> l[r] == '`'
    decreases |l| - i
  {
    if i == |l| || l[i] == '`' then i else FindTick(l, i + 1)
  }

  /** `_backtick_run_end`. */
  function TicksEnd(l: string, i: nat): (r: nat)
    requires i <= |l|
    ensures i <= r <= |l|
    ensures i < |l| && l[i] == '`' ==> i < r
  {
    i + Run(l, i, Same('`'))
  }

  /** `_find_backtick_run`: the end of the first run of exactly `length` backticks. */
  function FindRun(l: string, i: nat, length: nat): (r: Option<nat>)
    requires i <= |l|
    ensures r.Some? ==> i < r.value <= |l|
    decreases |l| - i
  {
    var start := FindTick(l, i);
    if start == |l| then None
    else if TicksEnd(l, start) - start == length then Some(TicksEnd(l, start))
    else FindRun(l, TicksEnd(l, start), length)
  }

  /** `_is_escaped_backtick`. */
  predicate Escaped(l: string, i: nat)
    requires i <= |l|
  {
    i > 0 && l[i-1] == '\\' && !Escaped(l, i - 1)
  }

  // ------------------------------------------------------------- the lookahead

  /** The lookahead stops at such a line. */
  predicate Stops(l: string, depth: nat) {
    Breaks(l) || (QuoteContent(l).0 > 0 && QuoteContent(l).0 != depth)
  }

  /** A line that ends a paragraph: empty, a fence, or the start of a block,
      possibly quoted. */
  predicate Breaks(l: string) {
    var content := QuoteContent(l).1;
    Empty(l) || FenceOf(l).Some? || Empty(content) || BlockStart(content) || FenceOf(content).Some?
  }

  /** The loop over the candidate lines, from line `k` on. */
  predicate ClosedLater(lines: seq<string>, k: nat, depth: nat, length: nat)
    requires k <= |lines|
    decreases |lines| - k
  {
    k < |lines| && !Stops(lines[k], depth) && (FindRun(lines[k], 0, length).Some? || ClosedLater(lines, k + 1, depth, length))
  }

  /** `_has_matching_backtick`. */
  predicate HasMatch(lines: seq<string>, k: nat, start: nat, length: nat)
    requires k < |lines| && start <= |lines[k]|
  {
    var (depth, content) := QuoteContent(lines[k]);
    || FindRun(lines[k], start, length).Some?
    || (!Heading(content) && !ThematicBreak(content) && ClosedLater(lines, k + 1, depth, length))
  }

  // ------------------------------------------------------------- the scanner

  /** `_strip_inline_code` on line `k`, from `i` on: what is visible, and the
      length of the span left open. */
  function Strip(lines: seq<string>, k: nat, i: nat, active: Option<nat>): (string, Option<nat>)
    requires k < |lines| && i <= |lines[k]|
    decreases |lines[k]| - i
  {
    var l := lines[k];
    if i == |l| then ("", active)
    else if active.Some? then
      match FindRun(l, i, active.value)
      case None => ("", active)
      case Some(end) => Strip(lines, k, end, None)
    else
      var start := FindTick(l, i);
      if start == |l| then (l[i..], None) else
        var end := TicksEnd(l, start);
        if Escaped(l, start) then Show(l[i..start+1], Strip(lines, k, start + 1, None))
        else if !HasMatch(lines, k, end, end - start) then Show(l[i..end], Strip(lines, k, end, None))
        else match FindRun(l, end, end - start)
          case None => (l[i..start], Some(end - start))
          case Some(next) => Show(l[i..start], Strip(lines, k, next, None))
  }

  function Show(shown: string, rest: (string, Option<nat>)): (string, Option<nat>) {
    (shown + rest.0, rest.1)
  }

  datatype State = State(fence: Option<Fence>, inline: Option<nat>)

  /** One line of `_scan_lines`, its includes aside: the text in which links are
      looked for, if any, and what stays open. */
  function ScanLine(lines: seq<string>, k: nat, s: State): (Option<string>, State)
    requires k < |lines|
  {
    var l := lines[k];
    var (depth, content) := QuoteContent(l);
    if s.fence.None? && FenceOf(l).Some? then (None, State(Some(FenceOf(l).value.0), None))
    else if s.fence.Some? then (None, if ClosesFence(l, s.fence.value) then State(None, None) else s)
    else if Empty(l) || (depth > 0 && Empty(content)) then (None, State(None, None))
    else
      var inline := if Heading(content) || ThematicBreak(content) then None else s.inline;
      var (visible, open) := Strip(lines, k, 0, inline);
      (Some(visible), State(None, open))
  }

  // ------------------------------------------------------------- includes

  /** A document in its place: the lines of every file below the root, and the
      files (with the lines of them selected) that the visible text of a line of
      a file asks to include. */
  datatype Site = Site(files: map<string, seq<string>>, includes: (string, string) -> seq<Include>)

  datatype Include = Include(path: string, select: seq<string> -> seq<string>)

  /** A visible line, with the files through which it was reached. */
  datatype Shown = Shown(chain: seq<string>, number: nat, text: string)

  function Elements(s: seq<string>): set<string> {
    set x | x in s
  }

  /** `_scan_lines` from line `k` on. */
  function ScanLines(site: Site, lines: seq<string>, k: nat, chain: seq<string>, s: State): (seq<Shown>, State)
    requires k <= |lines| && chain != []
    decreases |site.files.Keys - Elements(chain)|, 1, |lines| - k
  {
    if k == |lines| then ([], s) else
      match ScanLine(lines, k, s)
      case (None, after) => ScanLines(site, lines, k + 1, chain, after)
      case (Some(visible), after) =>
        var (inner, entered) := ScanIncludes(site, site.includes(chain[|chain|-1], visible), chain, after);
        var (rest, last) := ScanLines(site, lines, k + 1, chain, entered);
        ([Shown(chain, k, visible)] + inner + rest, last)
  }

  /** The loop over the includes of a line: a file that is not there, or that is
      being read already, is passed over. */
  function ScanIncludes(site: Site, asked: seq<Include>, chain: seq<string>, s: State): (seq<Shown>, State)
    requires chain != []
    decreases |site.files.Keys - Elements(chain)|, 0, |asked|
  {
    if asked == [] then ([], s) else
      var path := asked[0].path;
      if path !in site.files || path in chain then ScanIncludes(site, asked[1..], chain, s)
      else
        FewerLeft(site.files.Keys, chain, path);
        var (inner, after) := ScanLines(site, asked[0].select(site.files[path]), 0, chain + [path], s);
        var (rest, last) := ScanIncludes(site, asked[1..], chain, after);
        (inner + rest, last)
  }

  /** Going into a file leaves fewer files to go into. */
  lemma FewerLeft(all: set<string>, chain: seq<string>, path: string)
    requires path in all && path !in chain
    ensures |all - Elements(chain + [path])| < |all - Elements(chain)|
  {
    assert all - Elements(chain + [path]) == (all - Elements(chain)) - {path};
  }

  // ------------------------------------------------------------- an open span closes

  /** A later line, `k` or after, has a run of `length` backticks, and no line up
      to it, itself included, ends the paragraph. */
  ghost predicate Closes(lines: seq<string>, k: nat, length: nat) {
    exists j :: k <= j < |lines| && FindRun(lines[j], 0, length).Some? && forall i | k <= i <= j :: !Breaks(lines[i])
  }

  lemma {:induction false} LookaheadCloses(lines: seq<string>, k: nat, depth: nat, length: nat)
    requires k <= |lines| && ClosedLater(lines, k, depth, length)
    ensures Closes(lines, k, length)
    decreases |lines| - k
  {
    if FindRun(lines[k], 0, length).Some? {
      assert forall i | k <= i <= k :: !Breaks(lines[i]);
    } else {
      LookaheadCloses(lines, k + 1, depth, length);
      var j :| k + 1 <= j < |lines| && FindRun(lines[j], 0, length).Some? && forall i | k + 1 <= i <= j :: !Breaks(lines[i]);
      assert forall i | k <= i <= j :: !Breaks(lines[i]);
    }
  }

  lemma ClosesFurther(lines: seq<string>, k: nat, length: nat)
    requires Closes(lines, k, length) && FindRun(lines[k], 0, length).None?
    ensures Closes(lines, k + 1, length)
  {
    hide Breaks;
    var j :| k <= j < |lines| && FindRun(lines[j], 0, length).Some? && forall i | k <= i <= j :: !Breaks(lines[i]);
    assert forall i | k + 1 <= i <= j :: !Breaks(lines[i]);
  }

  /** A span that a line leaves open was promised by the lookahead, or was open
      before and does not close on this line. */
  lemma {:induction false} StripLeavesPromised(lines: seq<string>, k: nat, i: nat, active: Option<nat>)
    requires k < |lines| && i <= |lines[k]|
    ensures
      var open := Strip(lines, k, i, active).1;
      open.Some? ==> Closes(lines, k + 1, open.value) || (open == active && FindRun(lines[k], i, open.value).None?)
    decreases |lines[k]| - i
  {
    hide HasMatch, Escaped, Run, Breaks, TicksEnd, FindTick, FindRun, Closes;
    var l := lines[k];
    if i < |l| && active.Some? {
      if FindRun(l, i, active.value).Some? {
        StripLeavesPromised(lines, k, FindRun(l, i, active.value).value, None);
      }
    } else if i < |l| && FindTick(l, i) < |l| {
      var start := FindTick(l, i);
      var end := TicksEnd(l, start);
      if Escaped(l, start) {
        StripLeavesPromised(lines, k, start + 1, None);
      } else if !HasMatch(lines, k, end, end - start) {
        StripLeavesPromised(lines, k, end, None);
      } else if FindRun(l, end, end - start).Some? {
        StripLeavesPromised(lines, k, FindRun(l, end, end - start).value, None);
      } else {
        MatchCloses(lines, k, end, end - start);
      }
    }
  }

  lemma MatchCloses(lines: seq<string>, k: nat, start: nat, length: nat)
    requires k < |lines| && start <= |lines[k]| && HasMatch(lines, k, start, length) && FindRun(lines[k], start, length).None?
    ensures Closes(lines, k + 1, length)
  {
    LookaheadCloses(lines, k + 1, QuoteContent(lines[k]).0, length);
  }

  /** What holds between two lines: no span is open inside a fence, and an open
      span closes before its paragraph ends. */
  ghost predicate Promised(lines: seq<string>, k: nat, s: State) {
    s.inline.Some? ==> s.fence.None? && Closes(lines, k, s.inline.value)
  }

  lemma LineKeepsPromise(lines: seq<string>, k: nat, s: State)
    requires k < |lines| && Promised(lines, k, s)
    ensures Promised(lines, k + 1, ScanLine(lines, k, s).1)
  {
    hide HasMatch, Escaped, Run, FindRun, Strip, Heading, ThematicBreak, QuoteContent, Empty;
    var l := lines[k];
    var content := QuoteContent(l).1;
    if s.inline.Some? {
      assert !Breaks(l);
    }
    hide Breaks;
    var inline := if Heading(content) || ThematicBreak(content) then None else s.inline;
    StripLeavesPromised(lines, k, 0, inline);
    var open := Strip(lines, k, 0, inline).1;
    if open.Some? && open == inline && FindRun(l, 0, open.value).None? {
      ClosesFurther(lines, k, open.value);
    }
  }

  /** The state in which line `k` of a document without includes is read. */
  function StateAt(lines: seq<string>, k: nat): State
    requires k <= |lines|
  {
    if k == 0 then State(None, None) else ScanLine(lines, k - 1, StateAt(lines, k - 1)).1
  }

  /** The lookahead and the scanner agree: a span left open at the end of a line
      is closed by a later line, and no line up to it is empty, a fence, a
      heading, a rule or the start of a block. */
  lemma {:induction false} OpenSpanCloses(lines: seq<string>, k: nat)
    requires k <= |lines|
    ensures Promised(lines, k, StateAt(lines, k))
  {
    hide ScanLine, Closes;
    if k > 0 {
      OpenSpanCloses(lines, k - 1);
      LineKeepsPromise(lines, k - 1, StateAt(lines, k - 1));
    }
  }

  lemma {:induction false} FlatScan(site: Site, lines: seq<string>, k: nat, path: string)
    requires k <= |lines| && forall shown :: site.includes(path, shown) == []
    ensures ScanLines(site, lines, k, [path], StateAt(lines, k)).1 == StateAt(lines, |lines|)
    decreases |lines| - k
  {
    hide ScanLine;
    if k < |lines| {
      FlatScan(site, lines, k + 1, path);
      NothingAsked(site, [path], ScanLine(lines, k, StateAt(lines, k)).1);
    }
  }

  lemma NothingAsked(site: Site, chain: seq<string>, s: State)
    requires chain != []
    ensures ScanIncludes(site, [], chain, s).1 == s
  {
  }

  /** A document that includes nothing never ends inside a code span. */
  lemma NothingLeftOpen(site: Site, lines: seq<string>, path: string)
    requires forall shown :: site.includes(path, shown) == []
    ensures ScanLines(site, lines, 0, [path], State(None, None)).1.inline.None?
  {
    FlatScan(site, lines, 0, path);
    OpenSpanCloses(lines, |lines|);
  }

  // ------------------------------------------------------------- includes never nest for ever

  /** The files through which a line is reached are all different, whatever cycle
      the includes form, so a scan goes no deeper than there are files. */
  lemma {:induction false} ChainsAreSimple(site: Site, lines: seq<string>, k: nat, chain: seq<string>, s: State, shown: Shown)
    requires k <= |lines| && chain != [] && Ordering.NoRepeats(chain) && forall p <- chain[1..] :: p in site.files
    requires shown in ScanLines(site, lines, k, chain, s).0
    ensures chain <= shown.chain && Ordering.NoRepeats(shown.chain) && forall p <- shown.chain[1..] :: p in site.files
    decreases |site.files.Keys - Elements(chain)|, 1, |lines| - k
  {
    hide ScanLine;
    match ScanLine(lines, k, s)
    case (None, after) =>
      ChainsAreSimple(site, lines, k + 1, chain, after, shown);
    case (Some(visible), after) =>
      var asked := site.includes(chain[|chain|-1], visible);
      var (inner, entered) := ScanIncludes(site, asked, chain, after);
      if shown in inner {
        IncludedChainsAreSimple(site, asked, chain, after, shown);
      } else if shown != Shown(chain, k, visible) {
        ChainsAreSimple(site, lines, k + 1, chain, entered, shown);
      }
  }

  lemma {:induction false} IncludedChainsAreSimple(site: Site, asked: seq<Include>, chain: seq<string>, s: State, shown: Shown)
    requires chain != [] && Ordering.NoRepeats(chain) && forall p <- chain[1..] :: p in site.files
    requires shown in ScanIncludes(site, asked, chain, s).0
    ensures chain <= shown.chain && Ordering.NoRepeats(shown.chain) && forall p <- shown.chain[1..] :: p in site.files
    decreases |site.files.Keys - Elements(chain)|, 0, |asked|
  {
    hide ScanLines, Ordering.NoRepeats;
    var path := asked[0].path;
    if path !in site.files || path in chain {
      IncludedChainsAreSimple(site, asked[1..], chain, s, shown);
    } else {
      FewerLeft(site.files.Keys, chain, path);
      var longer := chain + [path];
      var picked := asked[0].select(site.files[path]);
      var (inner, after) := ScanLines(site, picked, 0, longer, s);
      if shown in inner {
        OneLonger(chain, path);
        ChainsAreSimple(site, picked, 0, longer, s, shown);
      } else {
        IncludedChainsAreSimple(site, asked[1..], chain, after, shown);
      }
    }
  }

  lemma OneLonger(chain: seq<string>, path: string)
    requires chain != [] && Ordering.NoRepeats(chain) && path !in chain
    ensures Ordering.NoRepeats(chain + [path]) && (chain + [path])[1..] == chain[1..] + [path]
  {
  }

  lemma {:induction false} SimpleChainIsShort(chain: seq<string>, all: set<string>)
    requires Ordering.NoRepeats(chain) && forall p <- chain :: p in all
    ensures |chain| <= |all|
  {
    if chain != [] {
      SimpleChainIsShort(chain[1..], all - {chain[0]});
    }
  }

  /** The depth a scan reaches is bounded by the number of files. */
  lemma DepthIsBounded(site: Site, lines: seq<string>, path: string, shown: Shown)
    requires shown in ScanLines(site, lines, 0, [path], State(None, None)).0
    ensures 1 <= |shown.chain| <= |site.files| + 1 && shown.chain[0] == path
  {
    ChainsAreSimple(site, lines, 0, [path], State(None, None), shown);
    assert Ordering.NoRepeats(shown.chain[1..]);
    SimpleChainIsShort(shown.chain[1..], site.files.Keys);
  }

  // ------------------------------------------------------------- the program

  method FindBacktickRun(l: string, start: nat, length: nat) returns (r: Option<nat>)
    requires start <= |l|
    ensures r == FindRun(l, start, length)
  {
    var probe := start;
    while probe < |l|
      invariant probe <= |l| && FindRun(l, probe, length) == FindRun(l, start, length)
    {
      var delimiter := FindTick(l, probe);
      if delimiter == |l| {
        return None;
      }
      var end := TicksEnd(l, delimiter);
      if end - delimiter == length {
        return Some(end);
      }
      probe := end;
    }
    return None;
  }

  method IsEscapedBacktick(l: string, start: nat) returns (r: bool)
    requires start <= |l|
    ensures r == Escaped(l, start)
  {
    var backslashes := 0;
    var probe := start;
    while probe > 0 && l[probe-1] == '\\'
      invariant 0 <= probe <= start && backslashes == start - probe
      invariant Escaped(l, start) <==> (if backslashes % 2 == 0 then Escaped(l, probe) else !Escaped(l, probe))
    {
      backslashes, probe := backslashes + 1, probe - 1;
    }
    return backslashes % 2 == 1;
  }

  method HasMatchingBacktick(lines: seq<string>, k: nat, start: nat, length: nat) returns (r: bool)
    requires k < |lines| && start <= |lines[k]|
    ensures r == HasMatch(lines, k, start, length)
  {
    var (depth, content) := QuoteContent(lines[k]);
    var here := FindBacktickRun(lines[k], start, length);
    if here.Some? {
      return true;
    }
    if Heading(content) || ThematicBreak(content) {
      return false;
    }
    for candidate := k + 1 to |lines|
      invariant ClosedLater(lines, k + 1, depth, length) == ClosedLater(lines, candidate, depth, length)
    {
      if Stops(lines[candidate], depth) {
        return false;
      }
      var there := FindBacktickRun(lines[candidate], 0, length);
      if there.Some? {
        return true;
      }
    }
    return false;
  }

  method StripInlineCode(lines: seq<string>, k: nat, inline: Option<nat>) returns (visible: string, active: Option<nat>)
    requires k < |lines|
    ensures (visible, active) == Strip(lines, k, 0, inline)
  {
    hide HasMatch, Escaped, FindRun, FindTick, TicksEnd, Run, Show;
    var l := lines[k];
    var index := 0;
    visible, active := "", inline;
    ShowNothing(Strip(lines, k, 0, inline));
    while index < |l|
      invariant index <= |l|
      invariant Show(visible, Strip(lines, k, index, active)) == Strip(lines, k, 0, inline)
      decreases |l| - index
    {
      if active.Some? {
        var closing := FindBacktickRun(l, index, active.value);
        if closing.None? {
          ShowLast(visible, "", active);
          return;
        }
        index, active := closing.value, None;
        continue;
      }
      var start := FindTick(l, index);
      if start == |l| {
        ShowLast(visible, l[index..], None);
        return visible + l[index..], None;
      }
      var end := TicksEnd(l, start);
      var escaped := IsEscapedBacktick(l, start);
      if escaped {
        ShowTwice(visible, l[index..start+1], Strip(lines, k, start + 1, None));
        visible, index := visible + l[index..start+1], start + 1;
        continue;
      }
      var opens := HasMatchingBacktick(lines, k, end, end - start);
      if !opens {
        ShowTwice(visible, l[index..end], Strip(lines, k, end, None));
        visible, index := visible + l[index..end], end;
        continue;
      }
      var closing := FindBacktickRun(l, end, end - start);
      if closing.None? {
        ShowLast(visible, l[index..start], Some(end - start));
        return visible + l[index..start], Some(end - start);
      }
      ShowTwice(visible, l[index..start], Strip(lines, k, closing.value, None));
      visible, index := visible + l[index..start], closing.value;
    }
    ShowLast(visible, "", active);
  }

  lemma ShowNothing(rest: (string, Option<nat>))
    ensures Show("", rest) == rest
  {
    assert "" + rest.0 == rest.0;
  }

  lemma ShowLast(a: string, b: string, active: Option<nat>)
    ensures Show(a, (b, active)) == (a + b, active) && (b == "" ==> a + b == a)
  {
  }

  lemma ShowTwice(a: string, b: string, rest: (string, Option<nat>))
    ensures Show(a, Show(b, rest)) == Show(a + b, rest)
  {
    assert a + (b + rest.0) == (a + b) + rest.0;
  }

  /** `_scan_lines`, with the visible lines in place of the links found in them. */
  method Scan(site: Site, lines: seq<string>, chain: seq<string>, state: State) returns (shown: seq<Shown>, s: State)
    requires chain != []
    ensures (shown, s) == ScanLines(site, lines, 0, chain, state)
    decreases |site.files.Keys - Elements(chain)|, 1
  {
    hide Strip, FenceOf, ClosesFence, QuoteContent, Heading, ThematicBreak, Empty, ScanIncludes, Elements;
    shown, s := [], state;
    for k := 0 to |lines|
      invariant ScanLines(site, lines, 0, chain, state).0 == shown + ScanLines(site, lines, k, chain, s).0
      invariant ScanLines(site, lines, 0, chain, state).1 == ScanLines(site, lines, k, chain, s).1
    {
      ghost var rest := ScanLines(site, lines, k, chain, s).0;
      ghost var before := shown;
      var l := lines[k];
      var (depth, content) := QuoteContent(l);
      if s.fence.None? && FenceOf(l).Some? {
        s := State(Some(FenceOf(l).value.0), None);
        continue;
      }
      if s.fence.Some? {
        if ClosesFence(l, s.fence.value) {
          s := State(None, None);
        }
        continue;
      }
      if Empty(l) || (depth > 0 && Empty(content)) {
        s := State(None, None);
        continue;
      }
      var visible, open := StripInlineCode(lines, k, if Heading(content) || ThematicBreak(content) then None else s.inline);
      assert ScanLine(lines, k, s) == (Some(visible), State(None, open));
      var inner, entered := ScanEach(site, site.includes(chain[|chain|-1], visible), chain, State(None, open));
      s := entered;
      shown := shown + [Shown(chain, k, visible)] + inner;
      assert rest == [Shown(chain, k, visible)] + inner + ScanLines(site, lines, k + 1, chain, s).0;
      assert before + rest == shown + ScanLines(site, lines, k + 1, chain, s).0;
    }
    assert ScanLines(site, lines, |lines|, chain, s) == ([], s) && shown + [] == shown;
  }

  lemma OneInclude(site: Site, asked: seq<Include>, chain: seq<string>, s: State, before: seq<Shown>)
    requires chain != [] && asked != [] && asked[0].path in site.files && asked[0].path !in chain
    ensures
      var path := asked[0].path;
      var (inner, after) := ScanLines(site, asked[0].select(site.files[path]), 0, chain + [path], s);
      && before + ScanIncludes(site, asked, chain, s).0 == before + inner + ScanIncludes(site, asked[1..], chain, after).0
      && ScanIncludes(site, asked, chain, s).1 == ScanIncludes(site, asked[1..], chain, after).1
  {
    hide ScanLines;
  }

  method ScanEach(site: Site, asked: seq<Include>, chain: seq<string>, state: State) returns (shown: seq<Shown>, s: State)
    requires chain != []
    ensures (shown, s) == ScanIncludes(site, asked, chain, state)
    decreases |site.files.Keys - Elements(chain)|, 0
  {
    hide ScanLines;
    shown, s := [], state;
    assert asked[0..] == asked;
    for i := 0 to |asked|
      invariant ScanIncludes(site, asked, chain, state).0 == shown + ScanIncludes(site, asked[i..], chain, s).0
      invariant ScanIncludes(site, asked, chain, state).1 == ScanIncludes(site, asked[i..], chain, s).1
    {
      assert asked[i..][1..] == asked[i+1..];
      var path := asked[i].path;
      if path !in site.files || path in chain {
        continue;
      }
      FewerLeft(site.files.Keys, chain, path);
      ghost var before, was := shown, s;
      var inner, after := Scan(site, asked[i].select(site.files[path]), chain + [path], s);
      shown, s := shown + inner, after;
      OneInclude(site, asked[i..], chain, was, before);
    }
    assert shown + [] == shown;
  }
}
