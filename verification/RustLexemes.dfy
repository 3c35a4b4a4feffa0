/** The pieces of Rust source both scanners look for. */
module RustLexemes {
  import opened Options

  predicate At(s: string, i: nat, p: string) {
    i + |p| <= |s| && s[i..i+|p|] == p
  }

  /** The characters `a` and `b` stand at `i`. */
  predicate Pair(s: string, i: nat, a: char, b: char) {
    i + 1 < |s| && s[i] == a && s[i+1] == b
  }

  /** `s.find(p, i)`, or the length of `s`. */
  function Find(s: string, p: string, i: nat): (r: nat)
    requires i <= |s|
    ensures i <= r <= |s|
    ensures forall k | i <= k < r :: !At(s, k, p)
    ensures r < |s| ==> At(s, r, p)
    decreases |s| - i
  {
    if i == |s| || At(s, i, p) then i else Find(s, p, i + 1)
  }

  /** One character, or one delimiter, of a block comment: where it ends, and
      how deep one is then. */
  function BlockNext(s: string, i: nat, depth: nat): (r: (nat, nat))
    requires i < |s| && depth > 0
    ensures i < r.0 <= |s|
  {
    if Pair(s, i, '/', '*') then (i + 2, depth + 1)
    else if Pair(s, i, '*', '/') then (i + 2, depth - 1)
    else (i + 1, depth)
  }

  /** Where a run through a (nested) block comment stops, and at what depth: at
      the end of the text, or as soon as the depth is zero. */
  function BlockRun(s: string, i: nat, depth: nat): (r: (nat, nat))
    requires i <= |s|
    ensures i <= r.0 <= |s| && (r.0 < |s| ==> r.1 == 0)
    ensures depth > 0 && i < |s| ==> i < r.0
    decreases |s| - i
  {
    if i == |s| || depth == 0 then (i, depth) else
      var (next, deeper) := BlockNext(s, i, depth);
      BlockRun(s, next, deeper)
  }

  function Hashes(s: string, i: nat): (r: nat)
    requires i <= |s|
    ensures i + r <= |s|
    ensures forall k | i <= k < i + r :: s[k] == '#'
    decreases |s| - i
  {
    if i < |s| && s[i] == '#' then 1 + Hashes(s, i + 1) else 0
  }

  /** `#{0,255}"` at `i`: the number of hashes. */
  function RawQuote(s: string, i: nat): (r: Option<nat>)
    requires i <= |s|
    ensures r.Some? ==> i + r.value < |s| && s[i + r.value] == '"'
  {
    var h := Hashes(s, i);
    if h <= 255 && i + h < |s| && s[i + h] == '"' then Some(h) else None
  }

  predicate Hex(c: char) {
    '0' <= c <= '9' || 'a' <= c <= 'f' || 'A' <= c <= 'F'
  }

  /** `[0-9A-Fa-f_]{1,6}}'` at `i`, of which `n` characters may still be read:
      the end of the match. */
  function UnicodeTail(s: string, i: nat, n: nat): (r: Option<nat>)
    requires i <= |s|
    ensures r.Some? ==> i < r.value <= |s|
    decreases n
  {
    if n == 0 || i >= |s| || !(Hex(s[i]) || s[i] == '_') then None
    else if Pair(s, i + 1, '}', '\'') then Some(i + 3)
    else UnicodeTail(s, i + 1, n - 1)
  }

  /** The whole-file scanner's character literal at `i`: the end of the match. */
  function CharLiteral(s: string, i: nat): (r: Option<nat>)
    requires i < |s|
    ensures r.Some? ==> i + 2 < r.value <= |s|
  {
    if s[i] != '\'' || i + 2 >= |s| then None
    else if s[i+1] == '\\' then
      if s[i+2] in "nrt0\\'\"" && i + 3 < |s| && s[i+3] == '\'' then Some(i + 4)
      else if s[i+2] == 'x' && i + 5 < |s| && Hex(s[i+3]) && Hex(s[i+4]) && s[i+5] == '\'' then Some(i + 6)
      else if s[i+2] == 'u' && i + 3 < |s| && s[i+3] == '{' then UnicodeTail(s, i + 4, 6)
      else None
    else if s[i+1] != '\'' && s[i+1] != '\n' && s[i+2] == '\'' then Some(i + 3)
    else None
  }
}
