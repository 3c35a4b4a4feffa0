/** What one line of Markdown is, as the link checker's patterns see it. A
    line holds no line break. */
module MarkdownLines {
  import opened Characters
  import opened Options

  /** The marker of a code fence and its length. */
  datatype Fence = Fence(marker: char, length: nat)

  predicate Blank(c: char) {
    c == ' ' || c == '\t'
  }

  /** What `str.strip` removes. */
  predicate Space(c: char) {
    || '\t' <= c <= '\r' || '\U{1C}' <= c <= ' ' || c == '\U{85}' || c == '\U{A0}' || c == '\U{1680}'
    || '\U{2000}' <= c <= '\U{200A}' || c == '\U{2028}' || c == '\U{2029}' || c == '\U{202F}' || c == '\U{205F}' || c == '\U{3000}'
  }

  predicate Empty(l: string) {
    forall i | 0 <= i < |l| :: Space(l[i])
  }

  /** How many characters from `i` on satisfy `p`, in a row. */
  function Run(l: string, i: nat, p: char -> bool): (r: nat)
    requires i <= |l|
    ensures i + r <= |l|
    ensures forall k | i <= k < i + r :: p(l[k])
    ensures i + r < |l| ==> !p(l[i+r])
    decreases |l| - i
  {
    if i < |l| && p(l[i]) then 1 + Run(l, i + 1, p) else 0
  }

  function Same(c: char): char -> bool {
    x => x == c
  }

  /** How many of the characters from `i` on are `c`. */
  function Count(l: string, i: nat, c: char): nat
    requires i <= |l|
    decreases |l| - i
  {
    if i == |l| then 0 else (if l[i] == c then 1 else 0) + Count(l, i + 1, c)
  }

  function Indent(l: string): nat {
    Run(l, 0, Blank)
  }

  // ------------------------------------------------------------- the patterns

  /** `FENCE_RE`, with the text after the marker. */
  function FenceOf(l: string): Option<(Fence, string)> {
    var n := Indent(l);
    if n == |l| || (l[n] != '`' && l[n] != '~') then None else
      var h := Run(l, n, Same(l[n]));
      if h < 3 then None else Some((Fence(l[n], h), l[n+h..]))
  }

  predicate ClosesFence(l: string, open: Fence) {
    var f := FenceOf(l);
    f.Some? && f.value.0.marker == open.marker && f.value.0.length >= open.length && Empty(f.value.1)
  }

  /** `(?:>[ \t]?)*` at `i`: how many `>`, and where it ends. */
  function Quotes(l: string, i: nat): (r: (nat, nat))
    requires i <= |l|
    ensures i <= r.1 <= |l|
    decreases |l| - i
  {
    if i == |l| || l[i] != '>' then (0, i) else
      var j := if i + 1 < |l| && Blank(l[i+1]) then i + 2 else i + 1;
      var (more, end) := Quotes(l, j);
      (1 + more, end)
  }

  /** `_blockquote_content`. */
  function QuoteContent(l: string): (nat, string) {
    var n := Indent(l);
    if n > 3 || n == |l| || l[n] != '>' then (0, l) else
      var (depth, end) := Quotes(l, n);
      (depth, l[end..])
  }

  /** `ATX_HEADING_RE`. */
  predicate Heading(l: string) {
    var n := Indent(l);
    n <= 3 && HeadingAt(l, n)
  }

  predicate HeadingAt(l: string, n: nat)
    requires n <= |l|
  {
    var h := Run(l, n, Same('#'));
    1 <= h <= 6 && (n + h == |l| || Blank(l[n+h]))
  }

  /** `THEMATIC_BREAK_RE`. */
  predicate ThematicBreak(l: string) {
    var n := Indent(l);
    n <= 3 && RuleAt(l, n)
  }

  /** A row of `=` or `-`, or of spaced `*` or `_`, up to the end of the line. */
  predicate RuleAt(l: string, n: nat)
    requires n <= |l|
  {
    n < |l| &&
    var c := l[n];
    if c == '=' || c == '-' then
      var h := Run(l, n, Same(c));
      h >= 3 && n + h + Run(l, n + h, Blank) == |l|
    else
      (c == '*' || c == '_') && Count(l, n, c) >= 3 && forall k | n <= k < |l| :: l[k] == c || Blank(l[k])
  }

  /** `(?:[-+*]|\d{1,9}[.)])[ \t]+`. */
  predicate ListItemAt(l: string, n: nat)
    requires n <= |l|
  {
    var d := Run(l, n, Digit);
    || (n + 1 < |l| && l[n] in "-+*" && Blank(l[n+1]))
    || (1 <= d <= 9 && n + d + 1 < |l| && l[n+d] in ".)" && Blank(l[n+d+1]))
  }

  /** `BLOCK_START_RE`. */
  predicate BlockStart(l: string) {
    var n := Indent(l);
    n <= 3 && (HeadingAt(l, n) || (n < |l| && l[n] == '>') || ListItemAt(l, n) || RuleAt(l, n))
  }
}
