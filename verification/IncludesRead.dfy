/** Which files the scanner reads: those, and only those, that what it shows asks
    to include. */
module IncludesRead {
  import opened Options
  import opened MarkdownLines
  import opened CodeSpans

  /** The file is there, and is not being read already. */
  predicate Entered(site: Site, chain: seq<string>, inc: Include) {
    inc.path in site.files && inc.path !in chain
  }

  /** The includes a visible line asks for. */
  function Asked(site: Site, shown: Shown): seq<Include>
    requires shown.chain != []
  {
    site.includes(shown.chain[|shown.chain|-1], shown.text)
  }

  ghost predicate Asks(site: Site, asker: Shown, path: string) {
    && asker.chain != []
    && exists i | 0 <= i < |Asked(site, asker)| :: Asked(site, asker)[i].path == path && Entered(site, asker.chain, Asked(site, asker)[i])
  }

  /** Below where the scan starts, a line is shown because another one, of the file
      above, asks for its file. */
  ghost predicate IsAsked(site: Site, all: seq<Shown>, shown: Shown) {
    shown.chain != [] && exists asker <- all :: asker.chain == shown.chain[..|shown.chain|-1] && Asks(site, asker, shown.chain[|shown.chain|-1])
  }

  lemma AsksForEach(site: Site, asker: Shown)
    requires asker.chain != []
    ensures forall inc <- Asked(site, asker) :: Entered(site, asker.chain, inc) ==> Asks(site, asker, inc.path)
  {
    forall inc | inc in Asked(site, asker) && Entered(site, asker.chain, inc) ensures Asks(site, asker, inc.path) {
      var i :| 0 <= i < |Asked(site, asker)| && Asked(site, asker)[i] == inc;
    }
  }

  lemma AskedAmongMore(site: Site, some: seq<Shown>, all: seq<Shown>, shown: Shown)
    requires IsAsked(site, some, shown) && forall x <- some :: x in all
    ensures IsAsked(site, all, shown)
  {
    hide Asks;
  }

  lemma {:induction false} ShownIsAsked(site: Site, lines: seq<string>, k: nat, chain: seq<string>, s: State, shown: Shown)
    requires k <= |lines| && chain != []
    requires shown in ScanLines(site, lines, k, chain, s).0 && shown.chain != chain
    ensures IsAsked(site, ScanLines(site, lines, k, chain, s).0, shown)
    decreases |site.files.Keys - Elements(chain)|, 1, |lines| - k
  {
    hide ScanLine, Asks, Elements, IsAsked, Entered, ScanIncludes;
    var all := ScanLines(site, lines, k, chain, s).0;
    match ScanLine(lines, k, s)
    case (None, after) =>
      ShownIsAsked(site, lines, k + 1, chain, after, shown);
    case (Some(visible), after) =>
      var asker := Shown(chain, k, visible);
      var asked := Asked(site, asker);
      var (inner, entered) := ScanIncludes(site, asked, chain, after);
      var rest := ScanLines(site, lines, k + 1, chain, entered).0;
      assert all == [asker] + inner + rest;
      if shown in inner {
        AsksForEach(site, asker);
        IncludedIsAsked(site, asked, asker, after, shown);
        AskedAmongMore(site, [asker] + inner, all, shown);
      } else {
        ShownIsAsked(site, lines, k + 1, chain, entered, shown);
        AskedAmongMore(site, rest, all, shown);
      }
  }

  lemma {:induction false} IncludedIsAsked(site: Site, asked: seq<Include>, asker: Shown, s: State, shown: Shown)
    requires asker.chain != [] && forall inc <- asked :: Entered(site, asker.chain, inc) ==> Asks(site, asker, inc.path)
    requires shown in ScanIncludes(site, asked, asker.chain, s).0
    ensures IsAsked(site, [asker] + ScanIncludes(site, asked, asker.chain, s).0, shown)
    decreases |site.files.Keys - Elements(asker.chain)|, 0, |asked|
  {
    hide ScanLines, Asks, Elements;
    var chain := asker.chain;
    var path := asked[0].path;
    assert asked[0] in asked && forall inc <- asked[1..] :: inc in asked;
    if !Entered(site, chain, asked[0]) {
      IncludedIsAsked(site, asked[1..], asker, s, shown);
    } else {
      FewerLeft(site.files.Keys, chain, path);
      var longer := chain + [path];
      var picked := asked[0].select(site.files[path]);
      var (inner, after) := ScanLines(site, picked, 0, longer, s);
      if shown !in inner {
        IncludedIsAsked(site, asked[1..], asker, after, shown);
      } else if shown.chain != longer {
        ShownIsAsked(site, picked, 0, longer, s, shown);
      } else {
        assert shown.chain[..|shown.chain|-1] == chain;
      }
    }
  }

  // ------------------------------------------------------------- every include is read

  /** What scanning a file from the start shows is among what was shown. */
  ghost predicate IsRead(site: Site, all: seq<Shown>, chain: seq<string>, inc: Include, s: State)
    requires inc.path in site.files
  {
    forall x <- ScanLines(site, inc.select(site.files[inc.path]), 0, chain + [inc.path], s).0 :: x in all
  }

  lemma {:induction false} EachIsRead(site: Site, asked: seq<Include>, chain: seq<string>, s: State, i: nat) returns (st: State)
    requires chain != [] && i < |asked| && Entered(site, chain, asked[i])
    ensures IsRead(site, ScanIncludes(site, asked, chain, s).0, chain, asked[i], st)
    ensures (forall j | 0 <= j < i :: !Entered(site, chain, asked[j])) ==> st == s
    decreases |asked|
  {
    hide ScanLines;
    st := s;
    if i > 0 {
      var after := s;
      if Entered(site, chain, asked[0]) {
        after := ScanLines(site, asked[0].select(site.files[asked[0].path]), 0, chain + [asked[0].path], s).1;
      }
      st := EachIsRead(site, asked[1..], chain, after, i - 1);
      assert forall j | 0 <= j < i - 1 :: asked[1..][j] == asked[j+1];
    }
  }

  /** Every include a visible line asks for is read, if its file is there and is
      not being read already; and the first of a line that is read starts outside
      any fence. */
  lemma {:induction false} AskedIsRead(site: Site, lines: seq<string>, k: nat, chain: seq<string>, s: State, asker: Shown, i: nat) returns (st: State)
    requires k <= |lines| && chain != [] && asker.chain != []
    requires asker in ScanLines(site, lines, k, chain, s).0 && i < |Asked(site, asker)| && Entered(site, asker.chain, Asked(site, asker)[i])
    ensures IsRead(site, ScanLines(site, lines, k, chain, s).0, asker.chain, Asked(site, asker)[i], st)
    ensures (forall j | 0 <= j < i :: !Entered(site, asker.chain, Asked(site, asker)[j])) ==> st.fence.None?
    decreases |site.files.Keys - Elements(chain)|, 1, |lines| - k
  {
    hide Elements, Strip, FenceOf, ClosesFence, QuoteContent, Heading, ThematicBreak, Empty;
    match ScanLine(lines, k, s)
    case (None, after) =>
      st := AskedIsRead(site, lines, k + 1, chain, after, asker, i);
    case (Some(visible), after) =>
      var asked := Asked(site, Shown(chain, k, visible));
      var (inner, entered) := ScanIncludes(site, asked, chain, after);
      if asker == Shown(chain, k, visible) {
        st := EachIsRead(site, asked, chain, after, i);
      } else if asker in inner {
        st := IncludedIsRead(site, asked, chain, after, asker, i);
      } else {
        st := AskedIsRead(site, lines, k + 1, chain, entered, asker, i);
      }
  }

  lemma {:induction false} IncludedIsRead(site: Site, asked: seq<Include>, chain: seq<string>, s: State, asker: Shown, i: nat) returns (st: State)
    requires chain != [] && asker.chain != []
    requires asker in ScanIncludes(site, asked, chain, s).0 && i < |Asked(site, asker)| && Entered(site, asker.chain, Asked(site, asker)[i])
    ensures IsRead(site, ScanIncludes(site, asked, chain, s).0, asker.chain, Asked(site, asker)[i], st)
    ensures (forall j | 0 <= j < i :: !Entered(site, asker.chain, Asked(site, asker)[j])) ==> st.fence.None?
    decreases |site.files.Keys - Elements(chain)|, 0, |asked|
  {
    hide ScanLines, Elements;
    var path := asked[0].path;
    if !Entered(site, chain, asked[0]) {
      st := IncludedIsRead(site, asked[1..], chain, s, asker, i);
    } else {
      FewerLeft(site.files.Keys, chain, path);
      var picked := asked[0].select(site.files[path]);
      var (inner, after) := ScanLines(site, picked, 0, chain + [path], s);
      if asker in inner {
        st := AskedIsRead(site, picked, 0, chain + [path], s, asker, i);
      } else {
        st := IncludedIsRead(site, asked[1..], chain, after, asker, i);
      }
    }
  }

  /** So the first line of the first file that is read for a line is shown, unless
      it is blank or a fence. */
  lemma FirstLineIsShown(site: Site, lines: seq<string>, path: string, asker: Shown, i: nat)
    requires asker in ScanLines(site, lines, 0, [path], State(None, None)).0 && asker.chain != []
    requires i < |Asked(site, asker)| && Entered(site, asker.chain, Asked(site, asker)[i])
    requires forall j | 0 <= j < i :: !Entered(site, asker.chain, Asked(site, asker)[j])
    ensures
      var inc := Asked(site, asker)[i];
      var picked := inc.select(site.files[inc.path]);
      picked != [] && FenceOf(picked[0]).None? && !Empty(picked[0]) && !Empty(QuoteContent(picked[0]).1) ==>
        exists text :: Shown(asker.chain + [inc.path], 0, text) in ScanLines(site, lines, 0, [path], State(None, None)).0
  {
    var st := AskedIsRead(site, lines, 0, [path], State(None, None), asker, i);
    hide Strip, FenceOf, QuoteContent, Heading, ThematicBreak, Empty;
    var inc := Asked(site, asker)[i];
    var picked := inc.select(site.files[inc.path]);
    if picked != [] && FenceOf(picked[0]).None? && !Empty(picked[0]) && !Empty(QuoteContent(picked[0]).1) {
      var text := ScanLine(picked, 0, st).0.value;
      assert Shown(asker.chain + [inc.path], 0, text) in ScanLines(site, picked, 0, asker.chain + [inc.path], st).0;
    }
  }
}
