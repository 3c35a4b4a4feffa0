/** Python's `str.split` and `str.join` on one character. */
module Splitting {
  import opened Characters

  function Split(s: string, c: char): (r: seq<string>)
    ensures r != []
    decreases |s|
  {
    var i := FindChar(s, c, 0);
    if i == |s| then [s] else [s[..i]] + Split(s[i+1..], c)
  }

  function Join(p: seq<string>, c: char): string
    requires p != []
  {
    if |p| == 1 then p[0] else p[0] + [c] + Join(p[1..], c)
  }

  lemma {:induction false} JoinSplits(s: string, c: char)
    ensures Join(Split(s, c), c) == s
    decreases |s|
  {
    var i := FindChar(s, c, 0);
    if i < |s| {
      JoinSplits(s[i+1..], c);
      var rest := Split(s[i+1..], c);
      assert ([s[..i]] + rest)[1..] == rest;
      assert s == s[..i] + [c] + s[i+1..];
    }
  }

  lemma {:induction false} SplitJoins(p: seq<string>, c: char)
    requires p != [] && forall x <- p :: c !in x
    ensures Split(Join(p, c), c) == p
    decreases |p|
  {
    assert p[0] in p;
    if |p| == 1 {
      assert FindChar(p[0], c, 0) == |p[0]|;
      assert p == [p[0]];
    } else {
      var rest := Join(p[1..], c);
      SplitJoins(p[1..], c);
      hide Join;
      SplitJoint(p[0], rest, c);
      assert p == [p[0]] + p[1..];
    }
  }

  lemma SplitJoint(a: string, b: string, c: char)
    requires c !in a
    ensures Split(a + [c] + b, c) == [a] + Split(b, c)
  {
    FindJoint(a, b, c);
    hide FindChar;
    var s := a + [c] + b;
    assert s[|a|+1..] == b && s[..|a|] == a;
  }

  lemma FindJoint(a: string, b: string, c: char)
    requires c !in a
    ensures FindChar(a + [c] + b, c, 0) == |a|
  {
    var s := a + [c] + b;
    assert s[|a|] == c;
    forall k | 0 <= k < |a| ensures s[k] != c {
      assert s[k] == a[k] && a[k] in a;
    }
  }
}
