/** Single characters of a text. */
module Characters {

  predicate Digit(c: char) {
    '0' <= c <= '9'
  }

  /** Where the first `c` at or after `i` is, or the end of the text. */
  function FindChar(s: string, c: char, i: nat): (r: nat)
    requires i <= |s|
    ensures i <= r <= |s|
    ensures forall k | i <= k < r :: s[k] != c
    ensures r < |s| ==> s[r] == c
    decreases |s| - i
  {
    if i == |s| || s[i] == c then i else FindChar(s, c, i + 1)
  }
}
