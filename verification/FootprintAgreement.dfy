/** The builder and the validator of footprint reports agree. */
module FootprintAgreement {
  import opened Options
  import opened MarkdownLines
  import opened Ordering
  import opened Splitting
  import opened Footprint

  /** The order and the repetition of the lines of a tree do not matter. */
  lemma LinesAreASet(a: seq<string>, b: seq<string>, root: string)
    requires forall l :: l in a <==> l in b
    ensures TreeOf(a, root) == TreeOf(b, root)
  {
    hide ParseLine, Empty, Rendered;
    assert KeysOf(a) == KeysOf(b);
    forall k ensures FeaturesOf(a, k) == FeaturesOf(b, k) {
    }
    assert PackagesOf(a) == PackagesOf(b);
  }

  // ------------------------------------------------------------- sorted lists

  lemma SortedOnce(s: set<string>)
    ensures SetOf(SortedNames(s)) == s && SortedUnique(SortedNames(s)) && !Repeats(SortedNames(s))
  {
    SortedIsAsLong(s);
    assert SetOf(SortedNames(s)) == s;
  }

  lemma SortedPairsOnce(s: set<Pair>)
    ensures SetOf(SortedPairs(s)) == s
  {
  }

  lemma IncreasingPairs(ps: seq<Pair>)
    requires Increasing(ps, PairBefore)
    ensures ps == SortedPairs(SetOf(ps))
  {
    PairBeforeIsTotal();
    IncreasingIsUnique(ps, SortedPairs(SetOf(ps)), PairBefore);
  }

  lemma NoRepeats(fs: seq<string>)
    requires SortedUnique(fs)
    ensures !Repeats(fs)
  {
    SortedOnce(SetOf(fs));
  }

  // ------------------------------------------------------------- a record of a tree

  ghost predicate WellNamed(packages: Packages) {
    forall p <- packages :: PackageName(p.name) && Version(p.version) && forall f <- packages[p] :: FeatureName(f)
  }

  lemma EnabledSnoc(pairs: seq<Pair>, packages: Packages)
    requires pairs != [] && forall p <- pairs :: p in packages
    ensures
      var p := pairs[|pairs|-1];
      EnabledOf(pairs, packages) ==
        if packages[p] == {} then EnabledOf(pairs[..|pairs|-1], packages)
        else EnabledOf(pairs[..|pairs|-1], packages) + [EnabledRecord(p.name, p.version, SortedNames(packages[p]))]
  {
  }

  lemma {:induction false} EnabledRecordsMean(pairs: seq<Pair>, packages: Packages)
    requires forall p <- pairs :: p in packages
    ensures forall e <- EnabledOf(pairs, packages) ::
              KeyOf(e) in pairs && packages[KeyOf(e)] != {} && e.features == SortedNames(packages[KeyOf(e)])
    ensures forall p :: p in KeysOfAll(EnabledOf(pairs, packages)) <==> p in pairs && packages[p] != {}
  {
    hide EnabledOf, KeysOfAll;
    NothingEnabled(packages);
    if pairs != [] {
      var front, p := pairs[..|pairs|-1], pairs[|pairs|-1];
      assert pairs == front + [p];
      EnabledRecordsMean(front, packages);
      EnabledSnoc(pairs, packages);
      KeysSnoc(EnabledOf(front, packages), EnabledRecord(p.name, p.version, SortedNames(packages[p])));
    }
  }

  lemma {:induction false} EnabledIncrease(pairs: seq<Pair>, packages: Packages)
    requires Increasing(pairs, PairBefore) && forall p <- pairs :: p in packages
    ensures Increasing(KeysOfAll(EnabledOf(pairs, packages)), PairBefore)
  {
    hide PairBefore, EnabledOf, KeysOfAll, Increasing;
    NothingEnabled(packages);
    if pairs == [] {
      assert Increasing<Pair>([], PairBefore) by { NothingIncreases(); }
    } else {
      var front, p := pairs[..|pairs|-1], pairs[|pairs|-1];
      assert pairs == front + [p];
      FrontIncreases(front, p);
      EnabledIncrease(front, packages);
      EnabledRecordsMean(front, packages);
      EnabledSnoc(pairs, packages);
      KeysSnoc(EnabledOf(front, packages), EnabledRecord(p.name, p.version, SortedNames(packages[p])));
      IncreasingSnoc(KeysOfAll(EnabledOf(front, packages)), p);
    }
  }

  lemma NothingIncreases()
    ensures Increasing<Pair>([], PairBefore)
  {
  }

  lemma FrontIncreases(front: seq<Pair>, p: Pair)
    requires Increasing(front + [p], PairBefore)
    ensures Increasing(front, PairBefore)
    ensures forall q <- front :: PairBefore(q, p) && q != p
  {
    hide PairBefore;
    var pairs := front + [p];
    assert forall i | 0 <= i < |front| :: pairs[i] == front[i];
    forall q | q in front ensures PairBefore(q, p) && q != p {
      var j :| 0 <= j < |front| && front[j] == q;
      assert pairs[j] == q && pairs[|front|] == p;
    }
  }

  /** The enabled records: one for each package with features, in the order of the packages. */
  lemma EnabledMeans(pairs: seq<Pair>, packages: Packages)
    requires Increasing(pairs, PairBefore) && forall p <- pairs :: p in packages
    ensures forall e <- EnabledOf(pairs, packages) ::
              KeyOf(e) in pairs && packages[KeyOf(e)] != {} && e.features == SortedNames(packages[KeyOf(e)])
    ensures Increasing(KeysOfAll(EnabledOf(pairs, packages)), PairBefore)
    ensures forall p :: p in KeysOfAll(EnabledOf(pairs, packages)) <==> p in pairs && packages[p] != {}
  {
    hide PairBefore, EnabledOf, KeysOfAll, Increasing;
    EnabledRecordsMean(pairs, packages);
    EnabledIncrease(pairs, packages);
  }

  lemma NothingEnabled(packages: Packages)
    ensures EnabledOf([], packages) == [] && KeysOfAll([]) == []
  {
  }

  lemma KeysSnoc(es: seq<EnabledRecord>, e: EnabledRecord)
    ensures KeysOfAll(es + [e]) == KeysOfAll(es) + [KeyOf(e)]
  {
  }

  lemma IncreasingSnoc(ps: seq<Pair>, p: Pair)
    requires Increasing(ps, PairBefore) && forall q <- ps :: PairBefore(q, p) && q != p
    ensures Increasing(ps + [p], PairBefore)
  {
    hide PairBefore;
  }

  /** The parts of a record that a tree fills. */
  ghost predicate ValidTree(t: Tree, root: string) {
    && (forall p <- t.pairs :: PackageName(p.name) && Version(p.version))
    && t.pairs == SortedPairs(SetOf(t.pairs))
    && root in NamesOf(SetOf(t.pairs))
    && (forall e <- t.enabled :: ValidEnabled(e, t.pairs))
    && KeysOfAll(t.enabled) == SortedPairs(SetOf(KeysOfAll(t.enabled)))
    && t.counts == CountsOf(SetOf(t.pairs), t.enabled)
  }

  lemma RenderedIsValid(packages: Packages, root: string)
    requires WellNamed(packages) && root in NamesOf(packages.Keys)
    ensures ValidTree(Rendered(packages), root)
  {
    hide PairBefore, FeatureName, PackageName, Version, SortedNames, EnabledOf, CountsOf, Increasing;
    var t := Rendered(packages);
    SortedPairsOnce(packages.Keys);
    EnabledMeans(t.pairs, packages);
    IncreasingPairs(KeysOfAll(t.enabled));
    forall e | e in t.enabled ensures ValidEnabled(e, t.pairs) {
      var s := packages[KeyOf(e)];
      SortedOnce(s);
      assert e.features == SortedNames(s);
      assert forall f <- e.features :: f in SetOf(SortedNames(s));
      SortedIsAsLong(s);
    }
  }

  /** What a parsed line names is well named. */
  lemma LinesNameWell(l: string)
    requires ParseLine(l).Package?
    ensures
      var line := ParseLine(l);
      PackageName(line.key.name) && Version(line.key.version) && forall f <- line.features :: FeatureName(f)
  {
    hide FeatureName, Repeats, Split;
    var fields := Split(l, '\t');
    FieldNamesWell(fields[0]);
  }

  lemma RunSpells(f: string, i: nat, first: char -> bool, later: char -> bool)
    requires i < |f| && Run(f, i, later) > 0 && first(f[i])
    ensures Spelled(f[i..i + Run(f, i, later)], first, later)
  {
    var r := Run(f, i, later);
    var t := f[i..i+r];
    forall k | 0 <= k < r ensures later(t[k]) {
      assert t[k] == f[i+k];
    }
  }

  lemma FieldNamesWell(f: string)
    requires PackageField(f).Some?
    ensures PackageName(PackageField(f).value.name) && Version(PackageField(f).value.version)
  {
    hide InParentheses, Run, Spelled;
    var i := Run(f, 0, PackageChar);
    var j := i + Run(f, i, Space);
    var l := j + 1 + Run(f, j + 1, VersionChar);
    assert PackageField(f).value == Pair(f[..i], f[j+1..l]);
    RunSpells(f, 0, Alnum, PackageChar);
    RunSpells(f, j + 1, Alnum, VersionChar);
  }

  lemma PackagesNameWell(lines: seq<string>)
    ensures WellNamed(PackagesOf(lines))
  {
    hide ParseLine, FeatureName, PackageName, Version;
    forall l | l in lines && ParseLine(l).Package?
      ensures
        var line := ParseLine(l);
        PackageName(line.key.name) && Version(line.key.version) && forall f <- line.features :: FeatureName(f)
    {
      LinesNameWell(l);
    }
  }

  lemma TreesAreValid(lines: seq<string>, root: string)
    requires TreeOf(lines, root).Some?
    ensures ValidTree(TreeOf(lines, root).value, root)
  {
    hide ParseLine, Rendered, ValidTree;
    PackagesNameWell(lines);
    assert PackagesOf(lines).Keys == KeysOf(lines);
    RenderedIsValid(PackagesOf(lines), root);
  }

  // ------------------------------------------------------------- a tree of a record

  function FeaturesIn(enabled: seq<EnabledRecord>, p: Pair): set<string> {
    set e, f | e in enabled && KeyOf(e) == p && f in e.features :: f
  }

  /** The packages a record stands for. */
  function Unrendered(t: Tree): Packages {
    map p | p in SetOf(t.pairs) :: FeaturesIn(t.enabled, p)
  }

  lemma UnrenderedIsWellNamed(t: Tree, root: string)
    requires ValidTree(t, root)
    ensures WellNamed(Unrendered(t)) && Unrendered(t).Keys == SetOf(t.pairs)
  {
    hide FeatureName, PackageName, Version, SortedPairs, SortedUnique;
  }

  /** A validated record is the record of its packages. */
  lemma RenderedAgain(t: Tree, root: string)
    requires ValidTree(t, root)
    ensures Rendered(Unrendered(t)) == t
  {
    hide PairBefore, FeatureName, PackageName, Version, SortedNames, SortedPairs, EnabledOf, CountsOf, KeysOfAll, NamesOf, ValidTree, Increasing;
    var m := Unrendered(t);
    UnrenderedIsWellNamed(t, root);
    PairsIncrease(t, root);
    EnabledMeans(t.pairs, m);
    EnabledAgain(t, root, EnabledOf(t.pairs, m));
  }

  lemma PairsIncrease(t: Tree, root: string)
    requires ValidTree(t, root)
    ensures Increasing(t.pairs, PairBefore) && t.pairs == SortedPairs(SetOf(t.pairs)) && Increasing(KeysOfAll(t.enabled), PairBefore)
    ensures t.counts == CountsOf(SetOf(t.pairs), t.enabled)
    ensures forall e <- t.enabled :: ValidEnabled(e, t.pairs)
  {
    hide PairBefore, CountsOf, ValidEnabled, Increasing;
  }

  lemma EnabledAgain(t: Tree, root: string, again: seq<EnabledRecord>)
    requires ValidTree(t, root) && Increasing(KeysOfAll(again), PairBefore) && Unrendered(t).Keys == SetOf(t.pairs)
    requires forall e <- again :: KeyOf(e) in t.pairs && e.features == SortedNames(Unrendered(t)[KeyOf(e)])
    requires forall p :: p in KeysOfAll(again) <==> p in t.pairs && Unrendered(t)[p] != {}
    ensures again == t.enabled
  {
    hide PairBefore, FeatureName, PackageName, Version, SortedNames, SortedPairs, CountsOf, ValidTree, Increasing, SortedUnique;
    PairsIncrease(t, root);
    forall e | e in t.enabled ensures FeaturesIn(t.enabled, KeyOf(e)) == SetOf(e.features) {
      OneRecordPerKey(t.enabled, e);
    }
    forall p ensures p in KeysOfAll(again) <==> p in KeysOfAll(t.enabled) {
      if p in KeysOfAll(t.enabled) {
        var i :| 0 <= i < |t.enabled| && KeyOf(t.enabled[i]) == p;
        assert t.enabled[i] in t.enabled && ValidEnabled(t.enabled[i], t.pairs);
        assert t.enabled[i].features[0] in SetOf(t.enabled[i].features);
      }
      if p in KeysOfAll(again) {
        var f :| f in Unrendered(t)[p];
        var e :| e in t.enabled && KeyOf(e) == p && f in e.features;
        var i :| 0 <= i < |t.enabled| && t.enabled[i] == e;
        assert KeysOfAll(t.enabled)[i] == p;
      }
    }
    PairBeforeIsTotal();
    IncreasingIsUnique(KeysOfAll(again), KeysOfAll(t.enabled), PairBefore);
    forall i | 0 <= i < |again| ensures again[i] == t.enabled[i] {
      assert KeysOfAll(again)[i] == KeysOfAll(t.enabled)[i];
      SameFeatures(t, t.enabled[i]);
      assert again[i] in again;
    }
  }

  lemma SameFeatures(t: Tree, e: EnabledRecord)
    requires e in t.enabled && ValidEnabled(e, t.pairs) && FeaturesIn(t.enabled, KeyOf(e)) == SetOf(e.features)
    ensures SortedNames(Unrendered(t)[KeyOf(e)]) == e.features
  {
    hide FeatureName, SortedNames, FeaturesIn;
  }

  lemma OneRecordPerKey(es: seq<EnabledRecord>, e: EnabledRecord)
    requires Increasing(KeysOfAll(es), PairBefore) && e in es
    ensures FeaturesIn(es, KeyOf(e)) == SetOf(e.features)
  {
    hide PairBefore;
    forall d | d in es && KeyOf(d) == KeyOf(e) ensures d == e {
      var i :| 0 <= i < |es| && es[i] == d;
      var j :| 0 <= j < |es| && es[j] == e;
      assert KeysOfAll(es)[i] == KeysOfAll(es)[j];
    }
  }

  // ------------------------------------------------------------- printing a tree

  /** The line of a package, as the tree command prints it. */
  function PrintedLine(p: Pair, features: seq<string>): string {
    p.name + " v" + p.version + "\t" + PREFIX + (if features == [] then "" else Join(features, ','))
  }

  function Printed(packages: Packages): seq<string> {
    var pairs := SortedPairs(packages.Keys);
    seq(|pairs|, i requires 0 <= i < |pairs| => assert pairs[i] in pairs; PrintedLine(pairs[i], SortedNames(packages[pairs[i]])))
  }

  lemma SpelledAvoids(s: string, first: char -> bool, later: char -> bool, c: char)
    requires Spelled(s, first, later) && !first(c) && !later(c)
    ensures c !in s
  {
  }

  lemma FieldRuns(name: string, version: string)
    requires PackageName(name) && Version(version)
    ensures
      var f, n := name + " v" + version, |name|;
      && Run(f, 0, PackageChar) == n && Run(f, n, Space) == 1 && Run(f, n + 2, VersionChar) == |version|
      && n + 2 + |version| == |f| && f[n+1] == 'v' && Alnum(f[0]) && Alnum(f[n+2])
      && f[..n] == name && f[n+2..|f|] == version
  {
    hide Run;
    var f, n := name + " v" + version, |name|;
    assert f[n] == ' ' && f[n+1] == 'v';
    assert forall k | 0 <= k < n :: f[k] == name[k];
    assert forall k | 0 <= k < |version| :: f[n+2+k] == version[k];
    forall k | n + 2 <= k < |f| ensures VersionChar(f[k]) {
      assert f[k] == version[k-n-2];
    }
    RunStops(f, 0, n, PackageChar);
    RunStops(f, n, n + 1, Space);
    RunStops(f, n + 2, |f|, VersionChar);
  }

  /** A printed field is read as its package. */
  lemma FieldRoundTrip(p: Pair)
    requires PackageName(p.name) && Version(p.version)
    ensures PackageField(p.name + " v" + p.version) == Some(p)
  {
    FieldRuns(p.name, p.version);
    assert |p.name| > 0 && |p.version| > 0;
    hide Run, Spelled, Alnum, PackageChar, VersionChar, Space, InParentheses;
  }

  lemma RunStops(f: string, i: nat, j: nat, p: char -> bool)
    requires i <= j <= |f| && (forall k | i <= k < j :: p(f[k])) && (j < |f| ==> !p(f[j]))
    ensures Run(f, i, p) == j - i
  {
    hide Run;
  }

  lemma {:induction false} JoinAvoids(fs: seq<string>, c: char, d: char)
    requires fs != [] && c != d && forall f <- fs :: c !in f
    ensures c !in Join(fs, d)
  {
    assert fs[0] in fs;
    if |fs| > 1 {
      JoinAvoids(fs[1..], c, d);
    }
  }

  /** A printed feature list is read as its features. */
  lemma FeaturesRoundTrip(fs: seq<string>)
    requires fs != [] && !Repeats(fs) && forall f <- fs :: FeatureName(f)
    ensures FeatureField(Join(fs, ',')) == Some(SetOf(fs))
    ensures forall c <- "\t)" :: c !in Join(fs, ',')
  {
    hide Repeats;
    forall f, c | f in fs && c in "\t),"
      ensures c !in f
    {
      SpelledAvoids(f, c => Alnum(c) || c == '_', FeatureNameChar, c);
    }
    hide FeatureName;
    JoinAvoids(fs, '\t', ',');
    JoinAvoids(fs, ')', ',');
    SplitJoins(fs, ',');
    assert fs[0] in fs;
    NamesAreNonEmpty(fs[0]);
    JoinNonEmpty(fs, ',');
  }

  lemma NamesAreNonEmpty(f: string)
    requires FeatureName(f)
    ensures f != ""
  {
  }

  lemma JoinNonEmpty(fs: seq<string>, c: char)
    requires fs != [] && fs[0] != ""
    ensures Join(fs, c) != ""
  {
  }

  lemma TwoFields(a: string, b: string)
    requires '\t' !in a && '\t' !in b
    ensures Split(a + "\t" + b, '\t') == [a, b]
  {
    SplitJoins([a, b], '\t');
    assert [a, b][1..] == [b];
    assert Join([a, b], '\t') == a + ['\t'] + b;
  }

  lemma NoTabs(p: Pair)
    requires PackageName(p.name) && Version(p.version)
    ensures '\t' !in p.name + " v" + p.version
  {
    SpelledAvoids(p.name, Alnum, PackageChar, '\t');
    SpelledAvoids(p.version, Alnum, VersionChar, '\t');
  }

  lemma FeatureText(t: string)
    requires ')' !in t
    ensures RemovePrefix(RemoveSuffix(PREFIX + t, AGAIN), PREFIX) == t && PREFIX <= PREFIX + t
  {
    var s := PREFIX + t;
    assert s[|s|-1] != ')';
    assert |AGAIN| <= |s| ==> s[|s|-|AGAIN|..][|AGAIN|-1] == s[|s|-1];
    assert RemoveSuffix(s, AGAIN) == s;
    assert s[|PREFIX|..] == t;
  }

  lemma Reassembled(line: string, field: string, text: string, p: Pair, features: set<string>)
    requires line != "" && Split(line, '\t') == [field, PREFIX + text] && ')' !in text
    requires PackageField(field) == Some(p) && FeatureField(text) == Some(features)
    ensures ParseLine(line) == Package(p, features)
  {
    hide Split, PackageField, FeatureField, RemovePrefix, RemoveSuffix;
    FeatureText(text);
  }

  function FeatureList(fs: seq<string>): string {
    if fs == [] then "" else Join(fs, ',')
  }

  lemma ListRoundTrip(fs: seq<string>)
    requires !Repeats(fs) && forall f <- fs :: FeatureName(f)
    ensures FeatureField(FeatureList(fs)) == Some(SetOf(fs)) && ')' !in FeatureList(fs) && '\t' !in FeatureList(fs)
  {
    hide FeatureName;
    if fs != [] {
      FeaturesRoundTrip(fs);
      hide FeatureField, Join;
    } else {
      assert SetOf(fs) == {};
    }
  }

  /** A printed line is read as its package and its features. */
  lemma LineRoundTrip(p: Pair, fs: seq<string>)
    requires PackageName(p.name) && Version(p.version) && !Repeats(fs) && forall f <- fs :: FeatureName(f)
    ensures ParseLine(PrintedLine(p, fs)) == Package(p, SetOf(fs)) && !Empty(PrintedLine(p, fs))
  {
    hide Split, PackageField, FeatureField, Spelled, Empty, RemovePrefix, RemoveSuffix, ParseLine, FeatureName, PackageName, Version, Join;
    var field, text := p.name + " v" + p.version, FeatureList(fs);
    var line := PrintedLine(p, fs);
    assert line == field + "\t" + (PREFIX + text);
    ListRoundTrip(fs);
    FieldRoundTrip(p);
    NoTabs(p);
    TwoFields(field, PREFIX + text);
    Reassembled(line, field, text, p, SetOf(fs));
    NotEmpty(p.name, " v" + p.version + "\t" + PREFIX + text);
    assert p.name + (" v" + p.version + "\t" + PREFIX + text) == line;
  }

  lemma NotEmpty(name: string, rest: string)
    requires PackageName(name)
    ensures !Empty(name + rest)
  {
    assert (name + rest)[0] == name[0] && !Space(name[0]);
  }

  /** Printed and read again, packages are the same. */
  lemma PackagesRoundTrip(packages: Packages)
    requires WellNamed(packages)
    ensures PackagesOf(Printed(packages)) == packages
    ensures forall l <- Printed(packages) :: ParseLine(l).Package? && !Empty(l)
  {
    hide ParseLine, PrintedLine, FeatureName, PackageName, Version, SortedNames, SortedPairs, Empty;
    var pairs, lines := SortedPairs(packages.Keys), Printed(packages);
    SortedPairsOnce(packages.Keys);
    forall i | 0 <= i < |pairs| ensures ParseLine(lines[i]) == Package(pairs[i], packages[pairs[i]]) && !Empty(lines[i]) {
      var fs := SortedNames(packages[pairs[i]]);
      assert pairs[i] in pairs;
      SortedOnce(packages[pairs[i]]);
      assert forall f <- fs :: f in SetOf(fs);
      LineRoundTrip(pairs[i], fs);
    }
    assert ReadsBack(pairs, lines, packages);
    PrintedKeys(pairs, lines, packages);
    forall k | k in packages ensures FeaturesOf(lines, k) == packages[k] {
      PrintedFeatures(pairs, lines, packages, k);
    }
  }

  ghost predicate ReadsBack(pairs: seq<Pair>, lines: seq<string>, packages: Packages) {
    && |lines| == |pairs| && (forall p :: p in pairs <==> p in packages)
    && forall i | 0 <= i < |pairs| :: pairs[i] in packages && ParseLine(lines[i]) == Package(pairs[i], packages[pairs[i]])
  }

  lemma PrintedKeys(pairs: seq<Pair>, lines: seq<string>, packages: Packages)
    requires ReadsBack(pairs, lines, packages)
    ensures KeysOf(lines) == packages.Keys
  {
    hide ParseLine;
    forall k | k in packages ensures k in KeysOf(lines) {
      assert k in pairs;
      var i :| 0 <= i < |pairs| && pairs[i] == k;
      assert lines[i] in lines;
    }
    forall l | l in lines ensures ParseLine(l).Package? && ParseLine(l).key in packages {
      var i :| 0 <= i < |lines| && lines[i] == l;
    }
  }

  lemma PrintedFeatures(pairs: seq<Pair>, lines: seq<string>, packages: Packages, k: Pair)
    requires ReadsBack(pairs, lines, packages) && k in packages
    ensures FeaturesOf(lines, k) == packages[k]
  {
    hide ParseLine;
    assert k in pairs;
    var j :| 0 <= j < |pairs| && pairs[j] == k;
    assert lines[j] in lines;
    forall l | l in lines && ParseLine(l).Package? && ParseLine(l).key == k ensures ParseLine(l).features == packages[k] {
      var i :| 0 <= i < |lines| && lines[i] == l;
    }
  }

  /** Every validated tree can be captured. */
  lemma TreeRoundTrip(t: Tree, root: string)
    requires ValidTree(t, root)
    ensures TreeOf(Printed(Unrendered(t)), root) == Some(t)
  {
    hide ParseLine, Printed, Rendered, SortedPairs, SortedUnique, FeatureName, CountsOf, ValidEnabled, Empty;
    var m := Unrendered(t);
    UnrenderedIsWellNamed(t, root);
    PackagesRoundTrip(m);
    RenderedAgain(t, root);
    var lines := Printed(m);
    assert KeysOf(lines) == PackagesOf(lines).Keys == SetOf(t.pairs);
    var p :| p in SetOf(t.pairs) && p.name == root;
    var l :| l in lines && ParseLine(l).Package? && ParseLine(l).key == p;
  }

  // ------------------------------------------------------------- built reports are accepted

  lemma NormalizedTwice(selections: Selections)
    requires Normalized(selections).Some?
    ensures Normalized(Normalized(selections).value) == Normalized(selections)
    ensures forall s <- Normalized(selections).value ::
              ProfileId(s) && RefList(Normalized(selections).value[s]) && SortedUnique(Normalized(selections).value[s])
  {
    hide ProfileId, FeatureRef, Repeats, SortedNames;
    var once := Normalized(selections).value;
    assert once.Keys == selections.Keys;
    forall s | s in once
      ensures ProfileId(s) && RefList(once[s]) && SortedUnique(once[s])
    {
      assert s in selections;
      RefsSorted(selections[s]);
    }
    assert (map s | s in once :: SortedNames(SetOf(once[s]))) == once;
  }

  lemma RefsSorted(fs: seq<string>)
    requires RefList(fs)
    ensures RefList(SortedNames(SetOf(fs))) && SortedUnique(SortedNames(SetOf(fs))) && (fs == [] <==> SortedNames(SetOf(fs)) == [])
  {
    hide FeatureRef, Repeats;
    SortedOnce(SetOf(fs));
    var sorted := SortedNames(SetOf(fs));
    assert forall f <- sorted :: f in SetOf(sorted);
    SortedIsAsLong(SetOf(fs));
    if fs != [] {
      assert fs[0] in SetOf(fs) && fs[0] in sorted;
    }
  }

  /** Selections as `normalize_resolved_selections` leaves them. */
  ghost predicate Normal(resolved: Selections) {
    Normalized(resolved) == Some(resolved) && forall s <- resolved :: ProfileId(s) && RefList(resolved[s]) && SortedUnique(resolved[s])
  }

  lemma InputsAreValid(p: Profile, resolved: Selections)
    requires ValidProfile(p) && Normal(resolved) && ProfileInputs(p, resolved).Some?
    ensures
      var i := ProfileInputs(p, resolved).value;
      && ValidInputs(i) && i.mode == p.mode && i.selection == p.selection
      && i.features == (if p.mode == Selection then resolved[p.selection.value] else SortedNames(SetOf(p.features)))
  {
    hide ProfileId, PackageName, FeatureRef, Repeats, SortedNames, Normalized;
    var features := if p.mode == Selection then resolved[p.selection.value] else p.features;
    assert RefList(features) by { NothingRepeats(); }
    RefsSorted(features);
  }

  lemma NothingRepeats()
    ensures RefList([])
  {
  }

  /** Each record in its place. */
  lemma {:induction false} RecordsMean(ps: seq<Profile>, resolved: Selections, captures: Captures)
    requires Captured(ps, captures) && Records(ps, resolved, captures).Some?
    requires forall i, j | 0 <= i < j < |ps| :: ps[i].id != ps[j].id
    ensures
      var records := Records(ps, resolved, captures).value;
      && records.Keys == ById(ps).Keys
      && forall p <- ps :: p.id in records && RecordOf(p, resolved, captures) == Some(records[p.id])
  {
    hide RecordOf;
    if ps != [] {
      var front, p := ps[..|ps|-1], ps[|ps|-1];
      RecordsMean(front, resolved, captures);
      forall q | q in ps ensures q == p || (q in front && q.id != p.id) {
        var i :| 0 <= i < |ps| && ps[i] == q;
        assert i < |front| ==> front[i] == q;
      }
    }
  }

  lemma {:induction false} ByIdMeans(ps: seq<Profile>)
    requires forall i, j | 0 <= i < j < |ps| :: ps[i].id != ps[j].id
    ensures forall k <- ById(ps) :: ById(ps)[k] in ps && ById(ps)[k].id == k
    ensures forall p <- ps :: p.id in ById(ps) && ById(ps)[p.id] == p
  {
    if ps != [] {
      var front, p := ps[..|ps|-1], ps[|ps|-1];
      ByIdMeans(front);
      forall q | q in ps ensures q == p || (q in front && q.id != p.id) {
        var i :| 0 <= i < |ps| && ps[i] == q;
        assert i < |front| ==> front[i] == q;
      }
    }
  }

  ghost predicate Keyed(records: map<string, Record>) {
    forall k <- records :: records[k].id == k
  }

  lemma InOrderAt(records: map<string, Record>)
    ensures
      var keys, rs := SortedNames(records.Keys), InOrder(records);
      && |rs| == |keys| && (forall i | 0 <= i < |keys| :: keys[i] in records && rs[i] == records[keys[i]])
      && forall i, j | 0 <= i < j < |keys| :: keys[i] != keys[j]
  {
    hide SortedNames;
    var keys := SortedNames(records.Keys);
    SortedIsAsLong(records.Keys);
    forall i | 0 <= i < |keys| ensures keys[i] in records {
      assert keys[i] in keys;
    }
  }

  lemma InOrderMeans(records: map<string, Record>)
    requires Keyed(records)
    ensures Ids(InOrder(records)) == SortedNames(records.Keys) && RecordsById(InOrder(records)) == records
    ensures forall r <- InOrder(records) :: r.id in records && records[r.id] == r
  {
    hide SortedNames, InOrder, RecordsById;
    var keys, rs := SortedNames(records.Keys), InOrder(records);
    InOrderAt(records);
    DistinctById(rs);
    forall k | k in records ensures k in RecordsById(rs) {
      assert k in keys;
      var i :| 0 <= i < |keys| && keys[i] == k;
      assert rs[i] in rs;
    }
  }

  lemma {:induction false} DistinctById(rs: seq<Record>)
    requires forall i, j | 0 <= i < j < |rs| :: rs[i].id != rs[j].id
    ensures forall r <- rs :: r.id in RecordsById(rs) && RecordsById(rs)[r.id] == r
    ensures forall k <- RecordsById(rs) :: RecordsById(rs)[k] in rs && RecordsById(rs)[k].id == k
  {
    if rs != [] {
      var front, r := rs[..|rs|-1], rs[|rs|-1];
      DistinctById(front);
      forall q | q in rs ensures q == r || (q in front && q.id != r.id) {
        var i :| 0 <= i < |rs| && rs[i] == q;
        assert i < |front| ==> front[i] == q;
      }
    }
  }

  /** A record that was built is valid and says what the policy asks. */
  lemma BuiltRecord(p: Profile, resolved: Selections, captures: Captures)
    requires ValidProfile(p) && Normal(resolved) && p.id in captures && RecordOf(p, resolved, captures).Some?
    ensures
      var r := RecordOf(p, resolved, captures).value;
      r.id == p.id && ValidRecord(r) && Matches(r, p, resolved)
  {
    hide TreeOf, ProfileInputs, ValidInputs, ValidTree, ProfileId, PackageName, SortedNames, Normalized, RefList, SortedUnique;
    InputsAreValid(p, resolved);
    TreesAreValid(captures[p.id], p.package);
    var r := RecordOf(p, resolved, captures).value;
    SelectionIsThere(p, resolved);
    TreeMakesRecord(r);
  }

  lemma SelectionIsThere(p: Profile, resolved: Selections)
    requires ProfileInputs(p, resolved).Some?
    ensures p.mode == Selection ==> p.selection.Some? && p.selection.value in resolved
  {
  }

  lemma TreeMakesRecord(r: Record)
    requires ValidTree(r.tree, r.package) && ProfileId(r.id) && PackageName(r.package) && ValidInputs(r.inputs)
    ensures ValidRecord(r)
  {
    hide PackageName, Version, ProfileId, ValidInputs, ValidEnabled, SortedPairs, CountsOf;
  }

  /** Every report that is built from a policy and a context that were let
      through is accepted under that policy. */
  lemma BuiltIsAccepted(policy: Policy, digest: string, context: Context, captures: Captures)
    requires ValidPolicy(policy) && ValidFacts(context.facts) && Captured(policy.profiles, captures)
    requires BuiltReport(policy, digest, context, captures).Some?
    ensures Accepted(BuiltReport(policy, digest, context, captures).value, policy, digest)
  {
    hide ValidFacts, Normalized, RecordOf, ValidRecord, Matches, PassedContracts, SortedNames, InOrder, ValidProfile, RecordsById, Ids,
      ProfileId, RefList, SortedUnique, PolicySelections, Records, ById;
    var resolved := Normalized(context.selections).value;
    NormalizedTwice(context.selections);
    var ps := policy.profiles;
    var records := Records(ps, resolved, captures).value;
    RecordsMean(ps, resolved, captures);
    ByIdMeans(ps);
    forall k | k in records ensures records[k].id == k && ValidRecord(records[k]) && Matches(records[k], ById(ps)[k], resolved) {
      BuiltRecord(ById(ps)[k], resolved, captures);
    }
    InOrderMeans(records);
    assert ps[0] in ps;
    SomeRecord(records, ps[0].id);
  }

  lemma SomeRecord(records: map<string, Record>, id: string)
    requires id in records
    ensures InOrder(records) != []
  {
    assert records.Keys != {};
  }

  // ------------------------------------------------------------- accepted reports can be built

  /** Trees that would give the records of a report. */
  function CapturesFor(rs: seq<Record>): Captures {
    map k | k in RecordsById(rs) :: Printed(Unrendered(RecordsById(rs)[k].tree))
  }

  lemma InputsAgain(r: Record, p: Profile, resolved: Selections)
    requires ValidInputs(r.inputs) && Matches(r, p, resolved) && Normal(resolved)
    ensures ProfileInputs(p, resolved) == Some(r.inputs)
  {
    hide SortedNames, Normalized, RefList, ProfileId;
  }

  lemma RecordMakesTree(r: Record)
    requires ValidRecord(r)
    ensures ValidTree(r.tree, r.package) && ValidInputs(r.inputs)
  {
    hide PackageName, Version, ProfileId, ValidInputs, ValidEnabled, SortedPairs, CountsOf;
  }

  lemma RecordAgain(r: Record, p: Profile, resolved: Selections, captures: Captures)
    requires ValidRecord(r) && Matches(r, p, resolved) && Normal(resolved) && r.id == p.id
    requires p.id in captures && captures[p.id] == Printed(Unrendered(r.tree))
    ensures RecordOf(p, resolved, captures) == Some(r)
  {
    hide TreeOf, ProfileInputs, ValidInputs, ValidTree, Printed, Unrendered, Normalized, ValidRecord;
    RecordMakesTree(r);
    TreeRoundTrip(r.tree, r.package);
    InputsAgain(r, p, resolved);
  }

  lemma {:induction false} RecordsAgain(ps: seq<Profile>, resolved: Selections, captures: Captures, records: map<string, Record>)
    requires Captured(ps, captures)
    requires forall p <- ps :: p.id in records && RecordOf(p, resolved, captures) == Some(records[p.id])
    ensures Records(ps, resolved, captures).Some?
    ensures Records(ps, resolved, captures).value.Keys == ById(ps).Keys
    ensures forall k <- Records(ps, resolved, captures).value :: k in records && Records(ps, resolved, captures).value[k] == records[k]
  {
    hide RecordOf;
    if ps != [] {
      RecordsAgain(ps[..|ps|-1], resolved, captures, records);
    }
  }

  /** The records of an accepted report, by profile. */
  lemma AcceptedKeys(rs: seq<Record>, ids: set<string>)
    requires Ids(rs) == SortedNames(ids) && Keyed(RecordsById(rs))
    requires (forall k <- RecordsById(rs) :: RecordsById(rs)[k] in rs) && forall r <- rs :: r.id in RecordsById(rs)
    ensures RecordsById(rs).Keys == ids
  {
    hide SortedNames, RecordsById;
    assert forall i | 0 <= i < |rs| :: Ids(rs)[i] == rs[i].id;
    var records := RecordsById(rs);
    forall k ensures k in records <==> k in ids {
      if k in ids {
        assert k in Ids(rs);
        var i :| 0 <= i < |rs| && rs[i].id == k;
        assert rs[i] in rs;
      }
      if k in records {
        var i :| 0 <= i < |rs| && rs[i] == records[k];
        assert Ids(rs)[i] == k && Ids(rs)[i] in SortedNames(ids);
      }
    }
  }

  lemma AcceptedRecords(rs: seq<Record>, ids: set<string>)
    requires Ids(rs) == SortedNames(ids)
    ensures RecordsById(rs).Keys == ids && Keyed(RecordsById(rs)) && InOrder(RecordsById(rs)) == rs
    ensures forall k <- RecordsById(rs) :: RecordsById(rs)[k] in rs
  {
    hide SortedNames, InOrder, RecordsById;
    SortedIsAsLong(ids);
    assert forall i | 0 <= i < |rs| :: Ids(rs)[i] == rs[i].id;
    DistinctById(rs);
    var records := RecordsById(rs);
    AcceptedKeys(rs, ids);
    AcceptedInOrder(rs, ids);
  }

  lemma AcceptedInOrder(rs: seq<Record>, ids: set<string>)
    requires Ids(rs) == SortedNames(ids) && RecordsById(rs).Keys == ids
    requires forall i, j | 0 <= i < j < |rs| :: rs[i].id != rs[j].id
    ensures InOrder(RecordsById(rs)) == rs
  {
    hide SortedNames, InOrder, RecordsById;
    assert forall i | 0 <= i < |rs| :: Ids(rs)[i] == rs[i].id;
    DistinctById(rs);
    InOrderAt(RecordsById(rs));
    forall i | 0 <= i < |rs| ensures InOrder(RecordsById(rs))[i] == rs[i] {
      assert rs[i] in rs && SortedNames(ids)[i] == rs[i].id;
    }
  }

  ghost predicate Answers(ps: seq<Profile>, rs: seq<Record>, resolved: Selections) {
    && Ids(rs) == SortedNames(ById(ps).Keys) && (forall i, j | 0 <= i < j < |ps| :: ps[i].id != ps[j].id)
    && forall r <- rs :: ValidRecord(r) && r.id in ById(ps) && Matches(r, ById(ps)[r.id], resolved)
  }

  lemma ProfileAgain(ps: seq<Profile>, rs: seq<Record>, resolved: Selections, p: Profile)
    requires Normal(resolved) && Answers(ps, rs, resolved) && p in ps
    ensures p.id in CapturesFor(rs) && RecordOf(p, resolved, CapturesFor(rs)) == Some(RecordsById(rs)[p.id])
  {
    hide RecordOf, ValidRecord, Matches, SortedNames, InOrder, RecordsById, Ids, ById, Printed, Unrendered, Normal;
    AcceptedRecords(rs, ById(ps).Keys);
    ByIdMeans(ps);
    RecordAgain(RecordsById(rs)[p.id], p, resolved, CapturesFor(rs));
  }

  lemma EachProfileAgain(ps: seq<Profile>, rs: seq<Record>, resolved: Selections)
    requires Normal(resolved) && Answers(ps, rs, resolved)
    ensures
      forall p <- ps ::
        p.id in RecordsById(rs) && p.id in CapturesFor(rs) && RecordOf(p, resolved, CapturesFor(rs)) == Some(RecordsById(rs)[p.id])
  {
    hide RecordOf, InOrder, RecordsById, Records, Normal, Answers;
    forall p | p in ps
      ensures
        p.id in RecordsById(rs) && p.id in CapturesFor(rs) && RecordOf(p, resolved, CapturesFor(rs)) == Some(RecordsById(rs)[p.id])
    {
      ProfileAgain(ps, rs, resolved, p);
    }
  }

  lemma ProfilesAgain(ps: seq<Profile>, rs: seq<Record>, resolved: Selections)
    requires Normal(resolved) && Answers(ps, rs, resolved)
    ensures Captured(ps, CapturesFor(rs)) && Records(ps, resolved, CapturesFor(rs)) == Some(RecordsById(rs))
  {
    hide RecordOf, InOrder, RecordsById, Records, Normal, Answers, CapturesFor;
    var records, captures := RecordsById(rs), CapturesFor(rs);
    EachProfileAgain(ps, rs, resolved);
    AllCaptured(ps, captures);
    RecordsAgain(ps, resolved, captures, records);
    AnswersKeys(ps, rs, resolved);
    assert Records(ps, resolved, captures).value == records;
  }

  lemma AnswersKeys(ps: seq<Profile>, rs: seq<Record>, resolved: Selections)
    requires Answers(ps, rs, resolved)
    ensures RecordsById(rs).Keys == ById(ps).Keys
  {
    hide ValidRecord, Matches, SortedNames, RecordsById, Ids, ById, InOrder;
    AcceptedRecords(rs, ById(ps).Keys);
  }

  lemma AllCaptured(ps: seq<Profile>, captures: Captures)
    requires forall p <- ps :: p.id in captures
    ensures Captured(ps, captures)
  {
    forall i | 0 <= i < |ps| ensures ps[i].id in captures {
      assert ps[i] in ps;
    }
  }

  /** Every accepted report is what the builder makes of its own context and of
      some captured trees. */
  lemma AcceptedIsBuilt(report: Report, policy: Policy, digest: string)
    requires ValidPolicy(policy) && Accepted(report, policy, digest)
    ensures Captured(policy.profiles, CapturesFor(report.profiles))
    ensures BuiltReport(policy, digest, report.context, CapturesFor(report.profiles)) == Some(report)
  {
    hide ValidFacts, Normalized, ValidRecord, Matches, PassedContracts, SortedNames, InOrder, ValidProfile, RecordsById, Ids,
      ProfileId, RefList, SortedUnique, PolicySelections, Records, ById, CapturesFor, Captured;
    NormalizedTwice(report.context.selections);
    ProfilesAgain(policy.profiles, report.profiles, report.context.selections);
    AcceptedRecords(report.profiles, ById(policy.profiles).Keys);
  }

  ghost predicate BuiltFrom(report: Report, policy: Policy, digest: string, context: Context, captures: Captures) {
    ValidFacts(context.facts) && Captured(policy.profiles, captures) && BuiltReport(policy, digest, context, captures) == Some(report)
  }

  /** The validator accepts exactly the reports the builder can make. */
  lemma AcceptedExactlyWhenBuilt(report: Report, policy: Policy, digest: string)
    requires ValidPolicy(policy)
    ensures Accepted(report, policy, digest) <==> exists context, captures :: BuiltFrom(report, policy, digest, context, captures)
  {
    hide BuiltReport, ValidPolicy, Accepted, ValidFacts, CapturesFor;
    if Accepted(report, policy, digest) {
      AcceptedIsBuilt(report, policy, digest);
      FactsAreValid(report, policy, digest);
      assert BuiltFrom(report, policy, digest, report.context, CapturesFor(report.profiles));
    }
    if context, captures :| BuiltFrom(report, policy, digest, context, captures) {
      BuiltIsAccepted(policy, digest, context, captures);
    }
  }

  lemma FactsAreValid(report: Report, policy: Policy, digest: string)
    requires Accepted(report, policy, digest)
    ensures ValidFacts(report.context.facts)
  {
  }
}
