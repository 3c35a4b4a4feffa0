/** Python's `sorted` on a set: the one strictly increasing list of its elements. */
module Ordering {

  ghost predicate NoRepeats<T>(s: seq<T>) {
    forall i, j | 0 <= i < j < |s| :: s[i] != s[j]
  }

  ghost predicate TotalOrder<T(!new)>(le: (T, T) -> bool) {
    && (forall a, b :: le(a, b) || le(b, a))
    && (forall a, b :: le(a, b) && le(b, a) ==> a == b)
    && (forall a, b, c :: le(a, b) && le(b, c) ==> le(a, c))
  }

  ghost predicate Increasing<T(!new)>(s: seq<T>, le: (T, T) -> bool) {
    forall i, j | 0 <= i < j < |s| :: le(s[i], s[j]) && s[i] != s[j]
  }

  lemma {:induction false} HasLeast<T(!new)>(s: set<T>, le: (T, T) -> bool)
    requires s != {} && TotalOrder(le)
    ensures exists m :: m in s && forall x <- s :: le(m, x)
  {
    var a :| a in s;
    var rest := s - {a};
    if rest == {} {
      assert s == {a} && le(a, a);
    } else {
      HasLeast(rest, le);
      var m :| m in rest && forall x <- rest :: le(m, x);
      var n := if le(m, a) then m else a;
      assert le(n, a) && le(n, m);
      forall x | x in s ensures le(n, x) {
        assert x == a || (x in rest && le(m, x));
      }
    }
  }

  function Least<T(!new)>(s: set<T>, le: (T, T) -> bool): (m: T)
    requires s != {} && TotalOrder(le)
    ensures m in s && forall x <- s :: le(m, x)
  {
    HasLeast(s, le);
    var m :| m in s && forall x <- s :: le(m, x);
    m
  }

  function Sorted<T(!new)>(s: set<T>, le: (T, T) -> bool): (r: seq<T>)
    requires TotalOrder(le)
    ensures |r| == |s|
    ensures forall x :: x in r <==> x in s
    ensures Increasing(r, le)
  {
    if s == {} then [] else
      var m := Least(s, le);
      [m] + Sorted(s - {m}, le)
  }

  /** An increasing list is determined by its elements. */
  lemma {:induction false} IncreasingIsUnique<T(!new)>(r: seq<T>, t: seq<T>, le: (T, T) -> bool)
    requires TotalOrder(le) && Increasing(r, le) && Increasing(t, le)
    requires forall x :: x in r <==> x in t
    ensures r == t
  {
    if r == [] || t == [] {
      NoElements(r, t);
      NoElements(t, r);
    } else {
      assert r[0] in r && t[0] in t;
      SameHead(r, t, le);
      forall x ensures x in r[1..] <==> x in t[1..] {
        InTail(r, x, le);
        InTail(t, x, le);
      }
      IncreasingIsUnique(r[1..], t[1..], le);
    }
  }

  lemma NoElements<T>(r: seq<T>, t: seq<T>)
    requires forall x :: x in r <==> x in t
    ensures r == [] ==> t == []
  {
    if t != [] {
      assert t[0] in t;
    }
  }

  lemma SameHead<T(!new)>(r: seq<T>, t: seq<T>, le: (T, T) -> bool)
    requires TotalOrder(le) && Increasing(r, le) && Increasing(t, le)
    requires r != [] && t != [] && r[0] in t && t[0] in r
    ensures r[0] == t[0]
  {
    var i :| 0 <= i < |t| && t[i] == r[0];
    var j :| 0 <= j < |r| && r[j] == t[0];
    assert le(t[0], r[0]) || i == 0;
    assert le(r[0], t[0]) || j == 0;
  }

  lemma InTail<T(!new)>(r: seq<T>, x: T, le: (T, T) -> bool)
    requires Increasing(r, le) && r != []
    ensures x in r[1..] <==> x in r && x != r[0]
  {
    if x in r[1..] {
      var i :| 0 <= i < |r| - 1 && r[1..][i] == x;
      assert r[i+1] == x;
    }
    if x in r && x != r[0] {
      var i :| 0 <= i < |r| && r[i] == x;
      assert r[1..][i-1] == x;
    }
  }

  /** The order of strings, character by character. */
  predicate Before(a: string, b: string) {
    a == [] || (b != [] && (a[0] < b[0] || (a[0] == b[0] && Before(a[1..], b[1..]))))
  }

  lemma {:induction false} BeforeCompares(a: string, b: string, c: string)
    ensures Before(a, b) || Before(b, a)
    ensures Before(a, b) && Before(b, a) ==> a == b
    ensures Before(a, b) && Before(b, c) ==> Before(a, c)
  {
    if a != [] && b != [] {
      BeforeCompares(a[1..], b[1..], if c == [] then [] else c[1..]);
      assert a == [a[0]] + a[1..] && b == [b[0]] + b[1..];
    }
  }

  lemma BeforeIsTotal()
    ensures TotalOrder(Before)
  {
    forall a, b, c
      ensures (Before(a, b) || Before(b, a)) && (Before(a, b) && Before(b, a) ==> a == b) && (Before(a, b) && Before(b, c) ==> Before(a, c))
    {
      BeforeCompares(a, b, c);
    }
    assert forall a, b :: Before(a, b) || Before(b, a);
    assert forall a, b :: Before(a, b) && Before(b, a) ==> a == b;
    assert forall a, b, c :: Before(a, b) && Before(b, c) ==> Before(a, c);
  }

  /** `sorted` on names. */
  function SortedNames(s: set<string>): (r: seq<string>)
    ensures forall x :: x in r <==> x in s
  {
    BeforeIsTotal();
    Sorted(s, Before)
  }
}
