/** What text the link checker sees: everything but fences, blank lines and code
    spans, told without the scanner that finds it. */
module CodeVisible {
  import opened Options
  import opened MarkdownLines
  import opened CodeSpans

  // ------------------------------------------------------------- runs of backticks

  predicate Tick(l: string, i: int) {
    0 <= i < |l| && l[i] == '`'
  }

  predicate Ticks(l: string, a: nat, n: nat) {
    0 < n && a + n <= |l| && forall j | a <= j < a + n :: Tick(l, j)
  }

  /** A run of exactly `n` backticks. */
  predicate RunAt(l: string, a: nat, n: nat) {
    Ticks(l, a, n) && !Tick(l, a - 1) && !Tick(l, a + n)
  }

  /** A run that may open a span: it is not escaped, and there is no backtick
      before it but an escaped one. */
  predicate OpenerAt(l: string, a: nat, n: nat) {
    Ticks(l, a, n) && !Tick(l, a + n) && !Escaped(l, a) && (Tick(l, a - 1) ==> Escaped(l, a - 1))
  }

  /** A later line of the paragraph has such a run. */
  ghost predicate RunLater(lines: seq<string>, k: nat, depth: nat, n: nat) {
    exists j :: k <= j < |lines| && HasRun(lines[j], 0, n) && forall i | k <= i <= j :: !Stops(lines[i], depth)
  }

  ghost predicate HasRun(l: string, i: nat, n: nat) {
    exists a :: i <= a && RunAt(l, a, n)
  }

  predicate OneLineBlock(l: string) {
    var content := QuoteContent(l).1;
    Heading(content) || ThematicBreak(content)
  }

  /** There is a run of `n` backticks to close a span: further on, from `i`, on line
      `k`, or, unless that is a heading or a rule, on a later line of the paragraph. */
  ghost predicate Matched(lines: seq<string>, k: nat, i: nat, n: nat)
    requires k < |lines|
  {
    HasRun(lines[k], i, n) || (!OneLineBlock(lines[k]) && RunLater(lines, k + 1, QuoteContent(lines[k]).0, n))
  }

  /** A position from which the scanner reads. */
  predicate Apart(l: string, i: nat) {
    i <= |l| && (Tick(l, i) ==> !Tick(l, i - 1) || Escaped(l, i - 1))
  }

  lemma TicksEndMeans(l: string, i: nat)
    requires Tick(l, i)
    ensures var n := TicksEnd(l, i) - i; Ticks(l, i, n) && !Tick(l, i + n)
  {
    hide Run;
    assert forall j | i <= j < TicksEnd(l, i) :: Same('`')(l[j]);
  }

  lemma OneLength(l: string, a: nat, m: nat, n: nat)
    requires Ticks(l, a, m) && !Tick(l, a + m) && Ticks(l, a, n) && !Tick(l, a + n)
    ensures m == n
  {
    assert m < n ==> Tick(l, a + m);
    assert n < m ==> Tick(l, a + n);
  }

  /** No run starts between a run's start and its end. */
  lemma NoRunInside(l: string, i: nat, m: nat, a: nat, n: nat)
    requires Ticks(l, i, m) && i < a < i + m
    ensures !RunAt(l, a, n)
  {
    assert Tick(l, a - 1);
  }

  /** `_find_backtick_run` finds the end of the next run of that length. */
  lemma {:induction false} FindRunMeans(l: string, i: nat, n: nat)
    requires i <= |l| && (Tick(l, i) ==> !Tick(l, i - 1))
    ensures FindRun(l, i, n).None? <==> !HasRun(l, i, n)
    ensures FindRun(l, i, n).Some? ==>
              var e := FindRun(l, i, n).value;
              i + n <= e <= |l| && RunAt(l, e - n, n) && forall a | i <= a < e - n :: !RunAt(l, a, n)
    decreases |l| - i
  {
    hide Run, RunAt;
    var start := FindTick(l, i);
    if start == |l| {
      forall a | i <= a ensures !RunAt(l, a, n) {
        NoTickNoRun(l, a, n);
      }
    } else {
      TicksEndMeans(l, start);
      var m := TicksEnd(l, start) - start;
      StartsRun(l, i, start, m);
      forall a | i <= a < start + m && RunAt(l, a, n) ensures a == start && m == n {
        NoTickNoRun(l, a, n);
        RunStarts(l, start, m, a, n);
      }
      if m != n {
        NotBehind(l, start + m);
        FindRunMeans(l, start + m, n);
        assert forall a | i <= a < start + m :: !RunAt(l, a, n);
        if HasRun(l, i, n) {
          var a :| i <= a && RunAt(l, a, n);
          assert HasRun(l, start + m, n);
        }
      } else {
        assert HasRun(l, i, n);
      }
    }
  }

  lemma NoTickNoRun(l: string, a: nat, n: nat)
    ensures RunAt(l, a, n) ==> Tick(l, a)
  {
  }

  lemma NotBehind(l: string, i: nat)
    requires !Tick(l, i)
    ensures Tick(l, i) ==> !Tick(l, i - 1)
  {
  }

  lemma StartsRun(l: string, i: nat, start: nat, m: nat)
    requires i <= start < |l| && start == FindTick(l, i) && (Tick(l, i) ==> !Tick(l, i - 1)) && Ticks(l, start, m) && !Tick(l, start + m)
    ensures RunAt(l, start, m)
  {
    hide FindTick;
    if start > i {
      assert l[start-1] != '`';
    }
  }

  lemma RunStarts(l: string, start: nat, m: nat, a: nat, n: nat)
    requires RunAt(l, start, m) && RunAt(l, a, n) && start <= a < start + m
    ensures a == start && m == n
  {
    if a > start {
      NoRunInside(l, start, m, a, n);
    } else {
      OneLength(l, a, m, n);
    }
  }

  lemma {:induction false} ClosedLaterMeans(lines: seq<string>, k: nat, depth: nat, n: nat)
    requires k <= |lines|
    ensures ClosedLater(lines, k, depth, n) <==> RunLater(lines, k, depth, n)
    decreases |lines| - k
  {
    hide Stops, HasRun;
    if k < |lines| {
      FindRunMeans(lines[k], 0, n);
      ClosedLaterMeans(lines, k + 1, depth, n);
      if !Stops(lines[k], depth) {
        if HasRun(lines[k], 0, n) {
          assert forall i | k <= i <= k :: !Stops(lines[i], depth);
        }
        if RunLater(lines, k + 1, depth, n) {
          var j :| k + 1 <= j < |lines| && HasRun(lines[j], 0, n) && forall i | k + 1 <= i <= j :: !Stops(lines[i], depth);
          assert forall i | k <= i <= j :: !Stops(lines[i], depth);
        }
        if RunLater(lines, k, depth, n) && !HasRun(lines[k], 0, n) {
          var j :| k <= j < |lines| && HasRun(lines[j], 0, n) && forall i | k <= i <= j :: !Stops(lines[i], depth);
          assert forall i | k + 1 <= i <= j :: !Stops(lines[i], depth);
        }
      }
    }
  }

  /** The lookahead says exactly whether a run can be matched. */
  lemma HasMatchMeans(lines: seq<string>, k: nat, i: nat, n: nat)
    requires k < |lines| && i <= |lines[k]| && (Tick(lines[k], i) ==> !Tick(lines[k], i - 1))
    ensures HasMatch(lines, k, i, n) <==> Matched(lines, k, i, n)
  {
    hide HasRun, RunLater, FindRun, Heading, ThematicBreak, QuoteContent, ClosedLater;
    FindRunMeans(lines[k], i, n);
    ClosedLaterMeans(lines, k + 1, QuoteContent(lines[k]).0, n);
  }

  /** A backtick is escaped by an odd number of backslashes before it. */
  lemma {:induction false} EscapedMeans(l: string, i: nat, m: nat)
    requires m <= i <= |l| && (forall j | i - m <= j < i :: l[j] == '\\') && (i > m ==> l[i-m-1] != '\\')
    ensures Escaped(l, i) <==> m % 2 == 1
  {
    if m > 0 {
      EscapedMeans(l, i - 1, m - 1);
    }
  }

  // ------------------------------------------------------------- code spans

  /** A code span: where it starts and ends, how long its runs are, and whether it
      is closed on the line. */
  datatype Span = Span(from: nat, to: nat, length: nat, closed: bool)

  /** A run that opens a span: not escaped, and matched. */
  ghost predicate Opens(lines: seq<string>, k: nat, a: nat, n: nat)
    requires k < |lines|
  {
    OpenerAt(lines[k], a, n) && Matched(lines, k, a + n, n)
  }

  /** The span's content starts at `i`. It ends behind the next run of its length,
      or, where there is none, with the line. */
  ghost predicate Ends(l: string, i: nat, sp: Span) {
    if sp.closed then
      i + sp.length <= sp.to && RunAt(l, sp.to - sp.length, sp.length) && forall a | i <= a < sp.to - sp.length :: !RunAt(l, a, sp.length)
    else sp.to == |l| && !HasRun(l, i, sp.length)
  }

  ghost predicate IsSpan(lines: seq<string>, k: nat, sp: Span)
    requires k < |lines|
  {
    Opens(lines, k, sp.from, sp.length) && Ends(lines[k], sp.from + sp.length, sp)
  }

  /** `a` lies in a span. */
  predicate Hidden(spans: seq<Span>, a: nat) {
    exists s :: 0 <= s < |spans| && spans[s].from <= a < spans[s].to
  }

  /** What the last span leaves open. */
  function LeftOpen(spans: seq<Span>): Option<nat> {
    if spans != [] && !spans[|spans|-1].closed then Some(spans[|spans|-1].length) else None
  }

  /** The spans of line `k` from `i` on: they follow one another, and no run outside
      them opens a span. */
  ghost predicate Spans(lines: seq<string>, k: nat, i: nat, spans: seq<Span>)
    requires k < |lines|
  {
    AllSpans(lines, k, i, spans) && InTurn(spans) && NoneElse(lines, k, i, spans)
  }

  ghost predicate AllSpans(lines: seq<string>, k: nat, i: nat, spans: seq<Span>)
    requires k < |lines|
  {
    forall s | 0 <= s < |spans| :: i <= spans[s].from && IsSpan(lines, k, spans[s])
  }

  predicate InTurn(spans: seq<Span>) {
    forall s, r | 0 <= s < r < |spans| :: ComesBefore(spans[s], spans[r])
  }

  predicate ComesBefore(a: Span, b: Span) {
    a.closed && a.to <= b.from
  }

  ghost predicate NoneElse(lines: seq<string>, k: nat, i: nat, spans: seq<Span>)
    requires k < |lines|
  {
    forall a: nat, n: nat | i <= a && Opens(lines, k, a, n) :: Hidden(spans, a)
  }

  /** The spans of line `k`, when a span of that length is open from the line before. */
  ghost predicate Divides(lines: seq<string>, k: nat, active: Option<nat>, spans: seq<Span>, open: Option<nat>)
    requires k < |lines|
  {
    if active.None? || lines[k] == "" then Spans(lines, k, 0, spans) && open == (if lines[k] == "" then active else LeftOpen(spans))
    else
      && spans != [] && spans[0].from == 0 && spans[0].length == active.value && Ends(lines[k], 0, spans[0])
      && (if spans[0].closed then Spans(lines, k, spans[0].to, spans[1..]) else |spans| == 1)
      && open == LeftOpen(spans)
  }

  /** The characters from `i` on that lie in no span. */
  function Visible(l: string, spans: seq<Span>, i: nat): string
    requires i <= |l|
    decreases |l| - i
  {
    if i == |l| then "" else (if Hidden(spans, i) then "" else [l[i]]) + Visible(l, spans, i + 1)
  }

  lemma {:induction false} AllVisible(l: string, spans: seq<Span>, i: nat, j: nat)
    requires i <= j <= |l| && forall a | i <= a < j :: !Hidden(spans, a)
    ensures Visible(l, spans, i) == l[i..j] + Visible(l, spans, j)
    decreases j - i
  {
    hide Hidden;
    if i < j {
      AllVisible(l, spans, i + 1, j);
      var rest := Visible(l, spans, j);
      assert [l[i]] + (l[i+1..j] + rest) == l[i..j] + rest;
    }
  }

  lemma {:induction false} NoneVisible(l: string, spans: seq<Span>, i: nat, j: nat)
    requires i <= j <= |l| && forall a | i <= a < j :: Hidden(spans, a)
    ensures Visible(l, spans, i) == Visible(l, spans, j)
    decreases j - i
  {
    hide Hidden;
    if i < j {
      NoneVisible(l, spans, i + 1, j);
    }
  }

  lemma {:induction false} SameVisible(l: string, s: seq<Span>, t: seq<Span>, i: nat)
    requires i <= |l| && forall a | i <= a < |l| :: Hidden(s, a) == Hidden(t, a)
    ensures Visible(l, s, i) == Visible(l, t, i)
    decreases |l| - i
  {
    hide Hidden;
    if i < |l| {
      SameVisible(l, s, t, i + 1);
    }
  }

  // ------------------------------------------------------------- one round of the scanner

  /** The first span does not start before the next backtick. */
  lemma FirstSpan(lines: seq<string>, k: nat, i: nat, spans: seq<Span>)
    requires k < |lines| && i <= |lines[k]| && Spans(lines, k, i, spans)
    ensures var start := FindTick(lines[k], i); forall a | i <= a < start :: !Hidden(spans, a)
    ensures FindTick(lines[k], i) == |lines[k]| ==> spans == []
    ensures forall s | 0 <= s < |spans| :: FindTick(lines[k], i) <= spans[s].from < |lines[k]|
  {
    hide Matched, FindTick, Ends;
    var start := FindTick(lines[k], i);
    forall s | 0 <= s < |spans| ensures start <= spans[s].from < |lines[k]| {
      assert IsSpan(lines, k, spans[s]);
      assert Tick(lines[k], spans[s].from);
    }
    if spans != [] {
      assert start <= spans[0].from < |lines[k]|;
    }
  }

  /** Where the scanner stands when it meets a backtick. */
  ghost predicate Meets(l: string, i: nat, start: nat, n: nat) {
    Apart(l, i) && i <= start < |l| && start == FindTick(l, i) && n == TicksEnd(l, start) - start
  }

  lemma MeetsTicks(l: string, i: nat, start: nat, n: nat)
    requires Meets(l, i, start, n)
    ensures Ticks(l, start, n) && !Tick(l, start + n) && (Tick(l, start - 1) ==> Escaped(l, start - 1))
  {
    hide FindTick;
    TicksEndMeans(l, start);
    if start > i {
      assert l[start-1] != '`';
    }
  }

  /** Inside a run that is not escaped no other one opens. */
  lemma NoOpenerInside(l: string, start: nat, n: nat, a: nat, m: nat)
    requires Ticks(l, start, n) && !Escaped(l, start) && start < a < start + n
    ensures !OpenerAt(l, a, m)
  {
    assert Tick(l, a - 1);
    if a - 1 > start {
      assert Tick(l, a - 2);
    }
    assert !Escaped(l, a - 1);
  }

  /** Nothing opens before `j` from `i` on; the spans are those from `j` on. */
  lemma SpansFrom(lines: seq<string>, k: nat, i: nat, j: nat, spans: seq<Span>)
    requires k < |lines| && i <= j <= |lines[k]| && forall a, n | i <= a < j :: !Opens(lines, k, a, n)
    ensures Spans(lines, k, i, spans) <==> Spans(lines, k, j, spans)
    ensures Spans(lines, k, j, spans) ==> forall a | i <= a < j :: !Hidden(spans, a)
  {
    hide Opens, Ends, Hidden;
    if Spans(lines, k, i, spans) {
      assert AllSpans(lines, k, i, spans) && NoneElse(lines, k, i, spans);
      forall s | 0 <= s < |spans| ensures j <= spans[s].from && IsSpan(lines, k, spans[s]) {
      }
      assert AllSpans(lines, k, j, spans) && NoneElse(lines, k, j, spans);
    }
    if Spans(lines, k, j, spans) {
      assert NoneElse(lines, k, j, spans) && NoneElse(lines, k, i, spans);
      assert AllSpans(lines, k, j, spans) && AllSpans(lines, k, i, spans);
      StartsLater(spans, j);
    }
  }

  lemma StartsLater(spans: seq<Span>, j: nat)
    requires forall s | 0 <= s < |spans| :: j <= spans[s].from
    ensures forall a: nat | a < j :: !Hidden(spans, a)
  {
  }

  /** No run opens a span before the backtick that the scanner meets, nor at it when
      it is escaped, nor within its run when that is not matched. */
  lemma NothingOpens(lines: seq<string>, k: nat, i: nat, start: nat, n: nat)
    requires k < |lines| && Meets(lines[k], i, start, n)
    ensures forall a, m | i <= a < start :: !Opens(lines, k, a, m)
    ensures Escaped(lines[k], start) ==> forall a, m | i <= a < start + 1 :: !Opens(lines, k, a, m)
    ensures !Escaped(lines[k], start) && !Matched(lines, k, start + n, n) ==> forall a, m | i <= a < start + n :: !Opens(lines, k, a, m)
  {
    hide Matched, FindTick, TicksEnd;
    var l := lines[k];
    MeetsTicks(l, i, start, n);
    forall a, m | i <= a < start ensures !Opens(lines, k, a, m) {
      assert l[a] != '`';
      assert !Tick(l, a);
    }
    if !Escaped(l, start) && !Matched(lines, k, start + n, n) {
      forall a, m | i <= a < start + n ensures !Opens(lines, k, a, m) {
        if a > start {
          NoOpenerInside(l, start, n, a, m);
        } else if a == start && OpenerAt(l, a, m) {
          OneLength(l, a, m, n);
        }
      }
    }
  }

  lemma ApartBehind(l: string, start: nat, n: nat)
    requires Ticks(l, start, n) && !Tick(l, start + n)
    ensures Apart(l, start + n) && (Escaped(l, start) ==> Apart(l, start + 1))
  {
  }

  /** The spans of a line tell what the scanner shows, and what it leaves open. */
  lemma {:induction false} SpansTell(lines: seq<string>, k: nat, i: nat, spans: seq<Span>)
    requires k < |lines| && Apart(lines[k], i) && Spans(lines, k, i, spans)
    ensures Strip(lines, k, i, None) == (Visible(lines[k], spans, i), LeftOpen(spans))
    decreases |lines[k]| - i, 1
  {
    hide Spans, HasMatch, Matched, FindTick, TicksEnd, FindRun, Escaped, Hidden;
    var l := lines[k];
    FirstSpan(lines, k, i, spans);
    var start := FindTick(l, i);
    AllVisible(l, spans, i, start);
    if start < |l| {
      var end := TicksEnd(l, start);
      var n := end - start;
      MeetsTicks(l, i, start, n);
      ApartBehind(l, start, n);
      NothingOpens(lines, k, i, start, n);
      HasMatchMeans(lines, k, end, n);
      if Escaped(l, start) {
        SpansFrom(lines, k, i, start + 1, spans);
        SpansTell(lines, k, start + 1, spans);
        ShowsOn(lines, k, i, start + 1, spans);
      } else if !HasMatch(lines, k, end, n) {
        SpansFrom(lines, k, i, end, spans);
        SpansTell(lines, k, end, spans);
        ShowsOn(lines, k, i, end, spans);
      } else {
        SpanTells(lines, k, i, start, n, spans);
      }
    } else {
      assert l[i..] == l[i..start] + "" && Visible(l, spans, |l|) == "";
    }
  }

  lemma ShowsOn(lines: seq<string>, k: nat, i: nat, j: nat, spans: seq<Span>)
    requires k < |lines| && i <= j <= |lines[k]| && (forall a | i <= a < j :: !Hidden(spans, a))
    requires Strip(lines, k, j, None) == (Visible(lines[k], spans, j), LeftOpen(spans))
    ensures Show(lines[k][i..j], Strip(lines, k, j, None)) == (Visible(lines[k], spans, i), LeftOpen(spans))
  {
    hide Strip, Hidden;
    AllVisible(lines[k], spans, i, j);
  }

  /** The first span is the one that the scanner meets. */
  lemma FirstIsMet(lines: seq<string>, k: nat, i: nat, start: nat, n: nat, spans: seq<Span>)
    requires k < |lines| && Meets(lines[k], i, start, n) && Spans(lines, k, i, spans)
    requires !Escaped(lines[k], start) && Matched(lines, k, start + n, n)
    ensures spans != [] && spans[0].from == start && spans[0].length == n && Ends(lines[k], start + n, spans[0])
    ensures spans[0].from < spans[0].to && (!spans[0].closed ==> |spans| == 1)
  {
    hide Matched, FindTick, TicksEnd, HasRun, Opens, Ends;
    MeetsTicks(lines[k], i, start, n);
    FirstSpan(lines, k, i, spans);
    assert NoneElse(lines, k, i, spans) && AllSpans(lines, k, i, spans);
    MatchedOpens(lines, k, start, n);
    assert Hidden(spans, start);
    var s :| 0 <= s < |spans| && spans[s].from <= start < spans[s].to;
    SpanFills(lines, k, spans[0]);
    OnlyFirst(spans, s, start);
    SpanIs(lines, k, spans[0], n);
    if |spans| > 1 {
      assert ComesBefore(spans[0], spans[1]);
    }
  }

  lemma MatchedOpens(lines: seq<string>, k: nat, a: nat, n: nat)
    requires k < |lines| && OpenerAt(lines[k], a, n) && Matched(lines, k, a + n, n)
    ensures Opens(lines, k, a, n)
  {
  }

  lemma SpanFills(lines: seq<string>, k: nat, sp: Span)
    requires k < |lines| && IsSpan(lines, k, sp)
    ensures sp.from < sp.to
  {
    hide Matched, HasRun;
  }

  lemma SpanIs(lines: seq<string>, k: nat, sp: Span, n: nat)
    requires k < |lines| && IsSpan(lines, k, sp) && Ticks(lines[k], sp.from, n) && !Tick(lines[k], sp.from + n)
    ensures sp.length == n && Ends(lines[k], sp.from + n, sp)
  {
    hide Matched, HasRun, RunAt;
    OneLength(lines[k], sp.from, sp.length, n);
  }

  lemma OnlyFirst(spans: seq<Span>, s: nat, start: nat)
    requires s < |spans| && start <= spans[0].from < spans[0].to && spans[s].from <= start
    requires InTurn(spans)
    ensures s == 0
  {
    assert s > 0 ==> ComesBefore(spans[0], spans[s]);
  }

  lemma {:induction false} SpanTells(lines: seq<string>, k: nat, i: nat, start: nat, n: nat, spans: seq<Span>)
    requires k < |lines| && Meets(lines[k], i, start, n) && Spans(lines, k, i, spans)
    requires !Escaped(lines[k], start) && HasMatch(lines, k, start + n, n) && Matched(lines, k, start + n, n)
    ensures Strip(lines, k, i, None) == (Visible(lines[k], spans, i), LeftOpen(spans))
    decreases |lines[k]| - i, 0
  {
    hide Spans, HasMatch, Matched, FindTick, TicksEnd, FindRun, Escaped, Hidden, RunAt;
    var l := lines[k];
    MeetsTicks(l, i, start, n);
    FirstSpan(lines, k, i, spans);
    AllVisible(l, spans, i, start);
    FirstIsMet(lines, k, i, start, n, spans);
    FindRunMeans(l, start + n, n);
    var sp := spans[0];
    FirstIsHidden(spans);
    NoneVisible(l, spans, start, sp.to);
    EndIsNext(l, start + n, sp);
    if sp.closed {
      SpansBehind(lines, k, i, spans);
      SpansTell(lines, k, sp.to, spans[1..]);
    } else {
      assert l[i..start] + "" == l[i..start] && Visible(l, spans, |l|) == "";
      assert LeftOpen(spans) == Some(n);
    }
  }

  lemma FirstIsHidden(spans: seq<Span>)
    requires spans != []
    ensures forall a | spans[0].from <= a < spans[0].to :: Hidden(spans, a)
  {
  }

  lemma EndIsNext(l: string, i: nat, sp: Span)
    requires Ends(l, i, sp) && i <= |l| && !Tick(l, i)
    ensures FindRun(l, i, sp.length) == if sp.closed then Some(sp.to) else None
    ensures sp.to <= |l|
  {
    hide RunAt;
    FindRunMeans(l, i, sp.length);
    if sp.closed {
      RunEnds(l, sp.to - sp.length, sp.length);
      assert HasRun(l, i, sp.length);
    }
  }

  lemma RunEnds(l: string, a: nat, n: nat)
    requires RunAt(l, a, n)
    ensures a + n <= |l| && !Tick(l, a + n) && n > 0
  {
  }

  /** Behind the first span the others hide what all hide. */
  lemma HiddenBehind(spans: seq<Span>, a: nat)
    requires spans != [] && spans[0].to <= a
    ensures Hidden(spans, a) == Hidden(spans[1..], a)
  {
    var rest := spans[1..];
    if Hidden(spans, a) {
      var s :| 0 <= s < |spans| && spans[s].from <= a < spans[s].to;
      assert rest[s-1] == spans[s];
    }
    if Hidden(rest, a) {
      var s :| 0 <= s < |rest| && rest[s].from <= a < rest[s].to;
      assert rest[s] == spans[s+1];
    }
  }

  lemma SpansBehind(lines: seq<string>, k: nat, i: nat, spans: seq<Span>)
    requires k < |lines| && Spans(lines, k, i, spans) && spans != [] && spans[0].closed
    ensures
      var l, to := lines[k], spans[0].to;
      && Apart(l, to) && spans[0].from < to && Spans(lines, k, to, spans[1..]) && LeftOpen(spans) == LeftOpen(spans[1..])
      && Visible(l, spans, to) == Visible(l, spans[1..], to)
  {
    hide Opens, RunAt, Hidden, HasRun;
    var l, to, rest := lines[k], spans[0].to, spans[1..];
    assert IsSpan(lines, k, spans[0]);
    RunEnds(l, to - spans[0].length, spans[0].length);
    OpensStarts(lines, k, spans[0].from, spans[0].length);
    hide Ends;
    forall a | to <= a ensures Hidden(spans, a) == Hidden(rest, a) {
      HiddenBehind(spans, a);
    }
    RestFollows(lines, k, i, spans);
    SameVisible(l, spans, rest, to);
  }

  lemma InTurnBehind(spans: seq<Span>)
    requires spans != [] && InTurn(spans)
    ensures InTurn(spans[1..])
  {
    var rest := spans[1..];
    forall s, r | 0 <= s < r < |rest| ensures ComesBefore(rest[s], rest[r]) {
      assert rest[s] == spans[s+1] && rest[r] == spans[r+1];
    }
  }

  lemma RestFollows(lines: seq<string>, k: nat, i: nat, spans: seq<Span>)
    requires k < |lines| && Spans(lines, k, i, spans) && spans != [] && i <= spans[0].to
    requires forall a | spans[0].to <= a :: Hidden(spans, a) == Hidden(spans[1..], a)
    ensures Spans(lines, k, spans[0].to, spans[1..])
  {
    hide Opens, Ends, Hidden, IsSpan;
    var rest := spans[1..];
    forall s | 0 <= s < |rest| ensures spans[0].to <= rest[s].from && IsSpan(lines, k, rest[s]) {
      assert rest[s] == spans[s+1];
    }
    InTurnBehind(spans);
    assert NoneElse(lines, k, i, spans) && NoneElse(lines, k, spans[0].to, rest);
    assert AllSpans(lines, k, spans[0].to, rest) && InTurn(rest);
  }

  lemma OpensStarts(lines: seq<string>, k: nat, a: nat, n: nat)
    requires k < |lines| && Opens(lines, k, a, n)
    ensures a < |lines[k]| && n > 0
  {
  }

  /** Every line has its spans. */
  lemma {:induction false} SpansExist(lines: seq<string>, k: nat, i: nat) returns (spans: seq<Span>)
    requires k < |lines| && Apart(lines[k], i)
    ensures Spans(lines, k, i, spans)
    decreases |lines[k]| - i
  {
    hide Matched, FindTick, TicksEnd, FindRun, Escaped, Spans, HasMatch;
    var l := lines[k];
    var start := FindTick(l, i);
    if start == |l| {
      spans := [];
      NoTickNoSpan(lines, k, i);
    } else {
      var end := TicksEnd(l, start);
      var n := end - start;
      MeetsTicks(l, i, start, n);
      ApartBehind(l, start, n);
      NothingOpens(lines, k, i, start, n);
      if Escaped(l, start) {
        spans := SpansExist(lines, k, start + 1);
        SpansFrom(lines, k, i, start + 1, spans);
      } else if !Matched(lines, k, end, n) {
        spans := SpansExist(lines, k, end);
        SpansFrom(lines, k, i, end, spans);
      } else {
        FindRunMeans(l, end, n);
        MatchedOpens(lines, k, start, n);
        SpansFrom(lines, k, i, start, []);
        match FindRun(l, end, n) {
          case None =>
            spans := [Span(start, |l|, n, false)];
            LastSpan(lines, k, start, spans[0]);
          case Some(next) =>
            RunEnds(l, next - n, n);
            var rest := SpansExist(lines, k, next);
            spans := [Span(start, next, n, true)] + rest;
            SpanThen(lines, k, start, spans[0], rest);
        }
        SpansFrom(lines, k, i, start, spans);
      }
    }
  }

  lemma NoTickNoSpan(lines: seq<string>, k: nat, i: nat)
    requires k < |lines| && i <= |lines[k]| && FindTick(lines[k], i) == |lines[k]|
    ensures Spans(lines, k, i, [])
  {
    hide FindTick, Matched;
    forall a: nat, n: nat | i <= a ensures !Opens(lines, k, a, n) {
      assert !Tick(lines[k], a);
    }
    assert NoneElse(lines, k, i, []);
  }

  lemma LastSpan(lines: seq<string>, k: nat, start: nat, sp: Span)
    requires k < |lines| && IsSpan(lines, k, sp) && sp.from == start && !sp.closed
    ensures Spans(lines, k, start, [sp])
  {
    hide Matched, HasRun;
    forall a: nat, n: nat | start <= a && Opens(lines, k, a, n) ensures Hidden([sp], a) {
      assert Tick(lines[k], a);
      assert [sp][0].from <= a < [sp][0].to;
    }
    assert NoneElse(lines, k, start, [sp]);
  }

  lemma SpanThen(lines: seq<string>, k: nat, start: nat, sp: Span, rest: seq<Span>)
    requires k < |lines| && IsSpan(lines, k, sp) && sp.from == start && sp.closed && Spans(lines, k, sp.to, rest)
    ensures Spans(lines, k, start, [sp] + rest)
  {
    hide Opens, Ends, Hidden;
    var spans := [sp] + rest;
    SpanFills(lines, k, sp);
    assert AllSpans(lines, k, sp.to, rest) && NoneElse(lines, k, sp.to, rest) && InTurn(rest);
    forall s | 0 <= s < |spans| ensures start <= spans[s].from && IsSpan(lines, k, spans[s]) {
      assert s > 0 ==> spans[s] == rest[s-1];
    }
    forall s, r | 0 <= s < r < |spans| ensures ComesBefore(spans[s], spans[r]) {
      assert spans[r] == rest[r-1] && (s > 0 ==> spans[s] == rest[s-1]);
    }
    assert spans[1..] == rest && spans[0] == sp;
    forall a: nat, n: nat | start <= a && Opens(lines, k, a, n) ensures Hidden(spans, a) {
      if a >= sp.to {
        HiddenBehind(spans, a);
      } else {
        FirstIsHidden(spans);
      }
    }
    assert AllSpans(lines, k, start, spans) && InTurn(spans) && NoneElse(lines, k, start, spans);
  }

  // ------------------------------------------------------------- the scanner, exactly

  lemma DividesTells(lines: seq<string>, k: nat, active: Option<nat>, spans: seq<Span>, open: Option<nat>)
    requires k < |lines| && Divides(lines, k, active, spans, open)
    ensures Strip(lines, k, 0, active) == (Visible(lines[k], spans, 0), open)
  {
    hide Spans, HasMatch, FindRun, Hidden, Ends;
    var l := lines[k];
    if l != "" {
      if active.None? {
        SpansTell(lines, k, 0, spans);
      } else {
        CarriedTells(lines, k, active.value, spans);
      }
    }
  }

  /** A span that is open from the line before. */
  lemma CarriedTells(lines: seq<string>, k: nat, n: nat, spans: seq<Span>)
    requires k < |lines| && lines[k] != ""
    requires spans != [] && spans[0].from == 0 && spans[0].length == n && Ends(lines[k], 0, spans[0])
    requires if spans[0].closed then Spans(lines, k, spans[0].to, spans[1..]) else |spans| == 1
    ensures Strip(lines, k, 0, Some(n)) == (Visible(lines[k], spans, 0), LeftOpen(spans))
  {
    hide Spans, HasMatch, FindRun, Hidden, RunAt, HasRun, FindTick, TicksEnd, Matched, Ends;
    var l, sp := lines[k], spans[0];
    FirstIsHidden(spans);
    CarriedEnds(l, sp);
    NoneVisible(l, spans, 0, sp.to);
    if sp.closed {
      forall a | sp.to <= a ensures Hidden(spans, a) == Hidden(spans[1..], a) {
        HiddenBehind(spans, a);
      }
      SameVisible(l, spans, spans[1..], sp.to);
      SpansTell(lines, k, sp.to, spans[1..]);
      assert LeftOpen(spans) == LeftOpen(spans[1..]);
    } else {
      assert Visible(l, spans, |l|) == "" && LeftOpen(spans) == Some(n);
    }
  }

  lemma CarriedEnds(l: string, sp: Span)
    requires Ends(l, 0, sp)
    ensures sp.to <= |l| && FindRun(l, 0, sp.length) == if sp.closed then Some(sp.to) else None
    ensures if sp.closed then Apart(l, sp.to) else sp.to == |l|
  {
    hide RunAt;
    FindRunMeans(l, 0, sp.length);
    if sp.closed {
      RunEnds(l, sp.to - sp.length, sp.length);
      assert HasRun(l, 0, sp.length);
    }
  }

  lemma DivisionExists(lines: seq<string>, k: nat, active: Option<nat>) returns (spans: seq<Span>, open: Option<nat>)
    requires k < |lines|
    ensures Divides(lines, k, active, spans, open)
  {
    hide Spans, FindRun, RunAt;
    var l := lines[k];
    if active.None? || l == "" {
      spans := SpansExist(lines, k, 0);
      open := if l == "" then active else LeftOpen(spans);
    } else {
      var n := active.value;
      FindRunMeans(l, 0, n);
      match FindRun(l, 0, n) {
        case None => spans := [Span(0, |l|, n, false)];
        case Some(end) =>
          RunEnds(l, end - n, n);
          var rest := SpansExist(lines, k, end);
          spans := [Span(0, end, n, true)] + rest;
          assert spans[1..] == rest;
      }
      open := LeftOpen(spans);
    }
  }

  /** What the scanner shows of a line, and leaves open, is told by its code spans:
      its characters in order, without those that lie in a span. */
  lemma StripMeans(lines: seq<string>, k: nat, active: Option<nat>, visible: string, open: Option<nat>)
    requires k < |lines|
    ensures Strip(lines, k, 0, active) == (visible, open) <==>
              exists spans :: Divides(lines, k, active, spans, open) && visible == Visible(lines[k], spans, 0)
  {
    hide Strip, Divides;
    var spans, o := DivisionExists(lines, k, active);
    DividesTells(lines, k, active, spans, o);
    if t :| Divides(lines, k, active, t, open) && visible == Visible(lines[k], t, 0) {
      DividesTells(lines, k, active, t, open);
    }
  }

  // ------------------------------------------------------------- fences and blank lines

  /** Line `k` stands in a fence: some line before opens one, itself in none, and
      none between closes it. */
  ghost predicate Fenced(lines: seq<string>, k: nat)
    requires k <= |lines|
    decreases k, 0
  {
    exists j :: 0 <= j < k && FencedBy(lines, j, k)
  }

  ghost predicate FencedBy(lines: seq<string>, j: nat, k: nat)
    requires j < k <= |lines|
    decreases j, 1
  {
    && FenceOf(lines[j]).Some? && !Fenced(lines, j)
    && forall i | j < i < k :: !ClosesFence(lines[i], FenceOf(lines[j]).value.0)
  }

  /** An empty line, or an empty line of a quotation. */
  predicate BlankLine(l: string) {
    Empty(l) || (QuoteContent(l).0 > 0 && Empty(QuoteContent(l).1))
  }

  /** A line that is looked at: no fence, not in one, and not blank. */
  ghost predicate Looked(lines: seq<string>, k: nat)
    requires k < |lines|
  {
    !Fenced(lines, k) && FenceOf(lines[k]).None? && !BlankLine(lines[k])
  }

  /** The state that the scanner carries knows the fence. */
  lemma {:induction false} FenceKnown(lines: seq<string>, k: nat)
    requires k <= |lines|
    ensures StateAt(lines, k).fence.Some? <==> Fenced(lines, k)
    ensures forall j | 0 <= j < k && FencedBy(lines, j, k) :: StateAt(lines, k).fence == Some(FenceOf(lines[j]).value.0)
  {
    hide FenceOf, ClosesFence, Strip, Empty, QuoteContent, Heading, ThematicBreak;
    if k > 0 {
      FenceKnown(lines, k - 1);
      var was := StateAt(lines, k - 1);
      var l := lines[k-1];
      forall j | 0 <= j < k ensures FencedBy(lines, j, k) <==>
        if j == k - 1 then FenceOf(l).Some? && was.fence.None?
        else FencedBy(lines, j, k - 1) && !ClosesFence(l, FenceOf(lines[j]).value.0)
      {
      }
      if was.fence.Some? {
        var j :| 0 <= j < k - 1 && FencedBy(lines, j, k - 1);
        assert FencedBy(lines, j, k) <==> !ClosesFence(l, was.fence.value);
      } else {
        assert FencedBy(lines, k - 1, k) <==> FenceOf(l).Some?;
      }
    }
  }

  // ------------------------------------------------------------- whole documents

  /** What is open when line `k` is read: a heading or a rule is not reached by a
      span that is open before it. */
  function Reaching(lines: seq<string>, k: nat, open: Option<nat>): Option<nat>
    requires k < |lines|
  {
    if OneLineBlock(lines[k]) then None else open
  }

  /** The code spans of a document, line by line, and what is open between lines. */
  ghost predicate Division(lines: seq<string>, spans: seq<seq<Span>>, opens: seq<Option<nat>>) {
    && |spans| == |lines| && |opens| == |lines| + 1 && opens[0] == None
    && forall k | 0 <= k < |lines| ::
         if Looked(lines, k) then Divides(lines, k, Reaching(lines, k, opens[k]), spans[k], opens[k+1]) else opens[k+1] == None
  }

  /** The lines that are looked at, from `k` on, each without its code spans. */
  ghost function Texts(lines: seq<string>, spans: seq<seq<Span>>, path: string, k: nat): seq<Shown>
    requires k <= |lines| == |spans|
    decreases |lines| - k
  {
    if k == |lines| then [] else
      (if Looked(lines, k) then [Shown([path], k, Visible(lines[k], spans[k], 0))] else []) + Texts(lines, spans, path, k + 1)
  }

  lemma LineTold(lines: seq<string>, k: nat, spans: seq<Span>, open: Option<nat>, after: Option<nat>)
    requires k < |lines| && StateAt(lines, k).inline == open
    requires if Looked(lines, k) then Divides(lines, k, Reaching(lines, k, open), spans, after) else after == None
    ensures ScanLine(lines, k, StateAt(lines, k)).0 == if Looked(lines, k) then Some(Visible(lines[k], spans, 0)) else None
    ensures StateAt(lines, k + 1).inline == after
  {
    hide Fenced, FenceOf, ClosesFence, Strip, Empty, QuoteContent, Heading, ThematicBreak, Divides, Visible, Closes;
    FenceKnown(lines, k);
    OpenSpanCloses(lines, k);
    if Looked(lines, k) {
      DividesTells(lines, k, Reaching(lines, k, open), spans, after);
    }
  }

  lemma {:induction false} OpensTold(lines: seq<string>, spans: seq<seq<Span>>, opens: seq<Option<nat>>, k: nat)
    requires Division(lines, spans, opens) && k <= |lines|
    ensures StateAt(lines, k).inline == opens[k]
  {
    hide Looked, Divides, ScanLine, Reaching;
    if k > 0 {
      OpensTold(lines, spans, opens, k - 1);
      LineTold(lines, k - 1, spans[k-1], opens[k-1], opens[k]);
    }
  }

  /** The scanner on a document without includes, told by its code spans. */
  lemma {:induction false} ScanTold(site: Site, lines: seq<string>, spans: seq<seq<Span>>, opens: seq<Option<nat>>, path: string, k: nat)
    requires Division(lines, spans, opens) && k <= |lines| && forall shown :: site.includes(path, shown) == []
    ensures ScanLines(site, lines, k, [path], StateAt(lines, k)).0 == Texts(lines, spans, path, k)
    decreases |lines| - k
  {
    hide Looked, Divides, ScanLine, Reaching, Visible;
    if k < |lines| {
      OpensTold(lines, spans, opens, k);
      LineTold(lines, k, spans[k], opens[k], opens[k+1]);
      ScanTold(site, lines, spans, opens, path, k + 1);
      NothingIncluded(site, [path], ScanLine(lines, k, StateAt(lines, k)).1);
    }
  }

  lemma NothingIncluded(site: Site, chain: seq<string>, s: State)
    requires chain != []
    ensures ScanIncludes(site, [], chain, s) == ([], s)
  {
  }

  /** Every document has its code spans. */
  lemma {:induction false} DivisionFrom(lines: seq<string>, k: nat) returns (spans: seq<seq<Span>>, opens: seq<Option<nat>>)
    requires k <= |lines|
    ensures |spans| == k && |opens| == k + 1 && opens[0] == None
    ensures forall j | 0 <= j < k ::
      if Looked(lines, j) then Divides(lines, j, Reaching(lines, j, opens[j]), spans[j], opens[j+1]) else opens[j+1] == None
  {
    hide Looked, Divides, Reaching;
    if k == 0 {
      spans, opens := [], [None];
    } else {
      var before, os := DivisionFrom(lines, k - 1);
      var last, open := DivisionExists(lines, k - 1, Reaching(lines, k - 1, os[k-1]));
      spans, opens := before + [last], os + [if Looked(lines, k - 1) then open else None];
    }
  }

  /** Of a document that includes nothing the scanner shows exactly the lines that
      are no fence, stand in none and are not blank, each with its characters in
      order but for those that lie in a code span. */
  lemma DocumentIsVisible(site: Site, lines: seq<string>, path: string) returns (spans: seq<seq<Span>>, opens: seq<Option<nat>>)
    requires forall shown :: site.includes(path, shown) == []
    ensures Division(lines, spans, opens)
    ensures ScanLines(site, lines, 0, [path], State(None, None)).0 == Texts(lines, spans, path, 0)
  {
    hide Looked, Divides, Reaching, Texts, ScanLine;
    spans, opens := DivisionFrom(lines, |lines|);
    ScanTold(site, lines, spans, opens, path, 0);
  }
}
