/** What an export carries from an install that nobody changes: everything it admits. */
module QuietExport {
  import opened Options
  import opened Ordering
  import opened Filesystem
  import opened LiveTree
  import opened CopyTree
  import opened CopyCounts
  import opened SourceRoot
  import opened SkillBundles
  import opened SkillSafety

  // ------------------------------------------------------------- the skills of one bundle

  /** A skill as it is carried. */
  function SkillTree(s: Still, n: Name): Tree
    requires s.StillFolder?
  {
    Pruned(s, p => true, [n])
  }

  /** An entry of the bundle that is carried: an admitted directory in which there
      is a file to carry. */
  ghost predicate IsSkill(s: Still, n: Name, admits: Name -> bool) {
    admits(n) && s.StillFolder? && Weight(SkillTree(s, n), One()) > 0
  }

  ghost function SkillsIn(below: map<Name, Still>, admits: Name -> bool, done: set<Name>): Contents {
    map n | n in below && n in done && IsSkill(below[n], n, admits) :: SkillTree(below[n], n)
  }

  /** What is counted for an entry: nothing for what is not admitted, and for loose
      files; a link; all that is admitted below a directory, kept or not. */
  ghost function SkillCensus(s: Still, n: Name, admits: Name -> bool): Tally {
    if !admits(n) then NO_FILES
    else match s
      case StillLink => NO_FILES.(symlinks := 1)
      case StillFolder(_) => Census(s, p => true, [n])
      case _ => NO_FILES
  }

  /** The sum of one count over the entries `done`. */
  ghost function SumOver(below: map<Name, Still>, admits: Name -> bool, done: set<Name>, pick: Tally -> nat): nat {
    Sum(map n | n in below && n in done :: pick(SkillCensus(below[n], n, admits)))
  }

  function PickFiles(t: Tally): nat { t.files }

  function PickBytes(t: Tally): nat { t.bytes }

  function PickSymlinks(t: Tally): nat { t.symlinks }

  function PickOthers(t: Tally): nat { t.others }

  function PickHardLinks(t: Tally): nat { t.hardLinks }

  ghost function SkillsCensus(below: map<Name, Still>, admits: Name -> bool, done: set<Name>): Tally {
    Tally(SumOver(below, admits, done, PickFiles), SumOver(below, admits, done, PickBytes),
          SumOver(below, admits, done, PickSymlinks), SumOver(below, admits, done, PickOthers),
          SumOver(below, admits, done, PickHardLinks), 0)
  }

  lemma SumOverWith(below: map<Name, Still>, admits: Name -> bool, done: set<Name>, pick: Tally -> nat, n: Name)
    requires n in below && n !in done
    ensures SumOver(below, admits, done + {n}, pick) == SumOver(below, admits, done, pick) + pick(SkillCensus(below[n], n, admits))
  {
    hide SkillCensus, Sum;
    var before := map k | k in below && k in done :: pick(SkillCensus(below[k], k, admits));
    var after := map k | k in below && k in done + {n} :: pick(SkillCensus(below[k], k, admits));
    assert after == before[n := pick(SkillCensus(below[n], n, admits))];
    SumWith(before, n, pick(SkillCensus(below[n], n, admits)));
  }

  lemma NothingReplaced(s: Still, n: Name, admits: Name -> bool)
    ensures SkillCensus(s, n, admits).replaced == 0
  {
    hide Count;
  }

  lemma SkillsCensusWith(below: map<Name, Still>, admits: Name -> bool, done: set<Name>, n: Name)
    requires n in below && n !in done
    ensures SkillsCensus(below, admits, done + {n}) == Plus(SkillsCensus(below, admits, done), SkillCensus(below[n], n, admits))
  {
    hide SumOver, SkillCensus;
    SumOverWith(below, admits, done, PickFiles, n);
    SumOverWith(below, admits, done, PickBytes, n);
    SumOverWith(below, admits, done, PickSymlinks, n);
    SumOverWith(below, admits, done, PickOthers, n);
    SumOverWith(below, admits, done, PickHardLinks, n);
    NothingReplaced(below[n], n, admits);
  }

  lemma SkillsWith(below: map<Name, Still>, admits: Name -> bool, done: set<Name>, n: Name)
    requires n in below && n !in done
    ensures
      var before := SkillsIn(below, admits, done);
      SkillsIn(below, admits, done + {n}) == if IsSkill(below[n], n, admits) then before[n := SkillTree(below[n], n)] else before
    ensures n !in SkillsIn(below, admits, done)
  {
    hide IsSkill, SkillTree;
  }

  lemma QuietSkillDir(live: Live, w: World, handle: ObjectId, s: Still, n: Name, spare: nat, k: Skills)
    requires Quiet(live, w) && Depicts(w, handle, s) && s.StillFolder? && spare >= 2 && Fits(s, spare - 2) && n !in k.pass.out
    ensures
      var r := CopySkillDir(live, handle, n, spare, k);
      var kept := Weight(SkillTree(s, n), One()) > 0;
      && r.Some? && r.value.pass.tally == Plus(k.pass.tally, Census(s, p => true, [n]))
      && r.value.pass.out == (if kept then k.pass.out[n := SkillTree(s, n)] else k.pass.out)
      && r.value.count == k.count + (if kept then 1 else 0)
  {
    hide Depicts, Fits, CopyDir, Census, Pruned, Weight;
    var j, clock := Job(live, p => true), k.pass.clock;
    QuietCalls(j, w, clock);
    CopyIsPruned(j, w, handle, s, [n], spare - 2, clock + 2, k.pass.tally);
    CopyIsCounted(j, handle, [n], spare - 2, clock + 2, k.pass.tally);
  }

  lemma QuietSkill(live: Live, w: World, admits: Name -> bool, dir: ObjectId, s: Still, n: Name, spare: nat, done: set<Name>, k: Skills)
    requires Quiet(live, w) && Depicts(w, dir, s) && s.StillFolder? && Fits(s, spare + 1) && n in s.below && n !in done
    requires k.pass.out == SkillsIn(s.below, admits, done)
    ensures
      var r := CopySkill(live, admits, dir, n, spare, k);
      && r.Some? && r.value.pass.out == SkillsIn(s.below, admits, done + {n})
      && r.value.pass.tally == Plus(k.pass.tally, SkillCensus(s.below[n], n, admits))
  {
    hide Depicts, Quiet, CopySkillDir, Census, SkillsIn, Weight, Fits, SkillTree;
    SkillsWith(s.below, admits, done, n);
    if admits(n) {
      var j, f, clock := Job(live, p => true), s.below[n], k.pass.clock;
      QuietLookup(j, w, dir, s, n, clock);
      QuietLookup(j, w, dir, s, n, clock + 1);
      QuietCalls(j, w, clock);
      var id := w[dir].entries[n];
      FolderObject(w, id, f);
      if f.StillFolder? {
        RoomBelow(s, n, spare);
        QuietSkillDir(live, w, id, f, n, spare, Skills(Pass(clock + 3, k.pass.tally, k.pass.out), k.count));
      }
    }
  }

  lemma RoomBelow(s: Still, n: Name, spare: nat)
    requires s.StillFolder? && Fits(s, spare + 1) && n in s.below && s.below[n].StillFolder?
    ensures spare >= 2 && Fits(s.below[n], spare - 2)
  {
  }

  lemma {:induction false} QuietSkillNames(live: Live, w: World, admits: Name -> bool, dir: ObjectId, s: Still, names: seq<Name>, spare: nat,
    done: set<Name>, k: Skills, tally: Tally)
    requires Quiet(live, w) && Depicts(w, dir, s) && s.StillFolder? && Fits(s, spare + 1)
    requires (forall n <- names :: n in s.below && n !in done) && NoRepeats(names)
    requires k.pass.out == SkillsIn(s.below, admits, done) && k.pass.tally == Plus(tally, SkillsCensus(s.below, admits, done))
    ensures
      var all, r := done + (set n | n in names), CopySkillNames(live, admits, dir, names, spare, k);
      && r.Some? && r.value.pass.out == SkillsIn(s.below, admits, all)
      && r.value.pass.tally == Plus(tally, SkillsCensus(s.below, admits, all))
    decreases |names|
  {
    hide Depicts, Quiet, SkillsIn, SkillsCensus, SkillCensus, CopySkill, Fits;
    if names == [] {
      assert done + (set n | n in names) == done;
    } else {
      var n := names[0];
      QuietSkill(live, w, admits, dir, s, n, spare, done, k);
      SkillsCensusWith(s.below, admits, done, n);
      var q := CopySkill(live, admits, dir, n, spare, k).value;
      assert forall m <- names[1..] :: m in names && m != n;
      QuietSkillNames(live, w, admits, dir, s, names[1..], spare, done + {n}, q, tally);
      assert done + {n} + (set m | m in names[1..]) == done + (set m | m in names) by {
        assert names == [n] + names[1..];
      }
    }
  }

  lemma NoSkills(below: map<Name, Still>, admits: Name -> bool)
    ensures SkillsIn(below, admits, {}) == map[] && SkillsCensus(below, admits, {}) == NO_FILES
  {
    hide SkillCensus;
    NothingSummed(below, admits, PickFiles);
    NothingSummed(below, admits, PickBytes);
    NothingSummed(below, admits, PickSymlinks);
    NothingSummed(below, admits, PickOthers);
    NothingSummed(below, admits, PickHardLinks);
  }

  lemma NothingSummed(below: map<Name, Still>, admits: Name -> bool, pick: Tally -> nat)
    ensures SumOver(below, admits, {}, pick) == 0
  {
    hide SkillCensus;
    var none: set<Name> := {};
    assert (map n | n in below && n in none :: pick(SkillCensus(below[n], n, admits))) == map[];
  }

  /** From a bundle that nobody changes, with enough descriptors for its depth,
      exactly the admitted skills with a file to carry are carried, each whole but
      for what does not travel, and everything admitted is counted. */
  lemma SkillsAreComplete(live: Live, w: World, admits: Name -> bool, dir: ObjectId, s: Still, spare: nat, clock: Time, tally: Tally)
    requires Quiet(live, w) && Depicts(w, dir, s) && s.StillFolder? && Fits(s, spare)
    ensures
      var r := CopySkills(live, admits, dir, spare, clock, tally);
      && r.Some? && r.value.pass.out == SkillsIn(s.below, admits, s.below.Keys) && r.value.count == |r.value.pass.out.Keys|
      && r.value.pass.tally == Plus(tally, SkillsCensus(s.below, admits, s.below.Keys))
  {
    FolderObject(w, dir, s);
    assert spare > 0;
    assert Enumerates(live.lists(clock, dir), w[dir].entries.Keys);
    hide Depicts, Quiet, Fits, SkillsIn, SkillsCensus, CopySkillNames;
    var names := live.lists(clock, dir).value.names;
    NoSkills(s.below, admits);
    QuietSkillNames(live, w, admits, dir, s, names, spare - 1, {}, Skills(Pass(clock + 1, tally, map[]), 0), tally);
    assert {} + (set n | n in names) == s.below.Keys;
    SkillsAreCounted(live, admits, dir, spare, clock, tally);
  }

  // ------------------------------------------------------------- all bundles

  /** Where a source leads on an install that nobody changes. */
  function RootOf(w: World, install: ObjectId, source: Source): Option<ObjectId> {
    if Inside(source) then Follow(w, install, source.relative) else None
  }

  predicate Inside(source: Source) {
    source.relative != [] && source.relative[0] == Plain(SKILLS_FAMILY)
  }

  predicate IsAbsent(w: World, install: ObjectId, source: Source) {
    Inside(source) && SourceRoot.Absent(w, install, source.relative)
  }

  /** The trees below the sources that are there. */
  ghost predicate Laid(w: World, install: ObjectId, list: seq<Source>, trees: seq<Still>, spare: nat) {
    |trees| == |list| && forall k | 0 <= k < |list| && RootOf(w, install, list[k]).Some? ::
      trees[k].StillFolder? && Depicts(w, RootOf(w, install, list[k]).value, trees[k]) && spare >= 2 && Fits(trees[k], spare - 2)
  }

  ghost function SkillsFrom(source: Source, tree: Still): Contents {
    if tree.StillFolder? then SkillsIn(tree.below, source.admits, tree.below.Keys) else map[]
  }

  /** The source is there and has a skill to carry. */
  ghost predicate HasSkills(w: World, install: ObjectId, source: Source, tree: Still) {
    RootOf(w, install, source).Some? && SkillsFrom(source, tree) != map[]
  }

  ghost function CarriedBundles(w: World, install: ObjectId, list: seq<Source>, trees: seq<Still>): Contents
    requires |trees| == |list|
  {
    if list == [] then map[] else
      var n := |list| - 1;
      var before := CarriedBundles(w, install, list[..n], trees[..n]);
      if HasSkills(w, install, list[n], trees[n]) then before[list[n].alias := Branch(SkillsFrom(list[n], trees[n]))] else before
  }

  /** The aliases without content, in the order of the sources. */
  ghost function WithoutContent(w: World, install: ObjectId, list: seq<Source>, trees: seq<Still>): seq<Name>
    requires |trees| == |list|
  {
    if list == [] then [] else
      var n := |list| - 1;
      WithoutContent(w, install, list[..n], trees[..n]) + (if HasSkills(w, install, list[n], trees[n]) then [] else [list[n].alias])
  }

  function Roots(w: World, install: ObjectId, list: seq<Source>): seq<ObjectId> {
    if list == [] then [] else
      var n := |list| - 1;
      Roots(w, install, list[..n]) + (if RootOf(w, install, list[n]).Some? then [RootOf(w, install, list[n]).value] else [])
  }

  ghost function BundlesCensus(w: World, install: ObjectId, list: seq<Source>, trees: seq<Still>): Tally
    requires |trees| == |list|
  {
    if list == [] then NO_FILES else
      var n := |list| - 1;
      Plus(BundlesCensus(w, install, list[..n], trees[..n]), SourceCensus(w, install, list[n], trees[n]))
  }

  ghost function SourceCensus(w: World, install: ObjectId, source: Source, tree: Still): Tally {
    if RootOf(w, install, source).Some? && tree.StillFolder? then SkillsCensus(tree.below, source.admits, tree.below.Keys) else NO_FILES
  }

  lemma QuietIsUndisturbed(live: Live, w: World)
    requires Quiet(live, w)
    ensures Undisturbed(live, w)
  {
  }

  lemma NotBoth(w: World, dir: ObjectId, relative: seq<Component>)
    ensures !(Follow(w, dir, relative).Some? && SourceRoot.Absent(w, dir, relative))
    decreases |relative|
  {
  }

  /** What one source adds. */
  lemma QuietBundle(live: Live, w: World, install: ObjectId, source: Source, tree: Still, spare: nat, b: Bundles)
    requires Quiet(live, w) && spare > 0 && source.alias !in b.pass.out
    requires RootOf(w, install, source).Some? ==>
               tree.StillFolder? && Depicts(w, RootOf(w, install, source).value, tree) && spare >= 2 && Fits(tree, spare - 2)
    ensures
      var r := CopyBundle(live, install, source, spare, b);
      && (r.Some? <==> RootOf(w, install, source).Some? || IsAbsent(w, install, source))
      && (r.Some? ==>
            && r.value.pass.out == (if HasSkills(w, install, source, tree) then b.pass.out[source.alias := Branch(SkillsFrom(source, tree))] else b.pass.out)
            && r.value.without == b.without + (if HasSkills(w, install, source, tree) then [] else [source.alias])
            && r.value.count == b.count + (if HasSkills(w, install, source, tree) then 1 else 0)
            && r.value.sources == b.sources + (if RootOf(w, install, source).Some? then [RootOf(w, install, source).value] else [])
            && r.value.pass.tally == Plus(b.pass.tally, SourceCensus(w, install, source, tree)))
  {
    hide OpenAnchored, CopySkills, SkillsIn, SkillsCensus, Follow, SourceRoot.Absent, Depicts, Fits;
    QuietIsUndisturbed(live, w);
    AnchoredUndisturbed(live, w, install, source.relative, SKILLS_FAMILY, spare, b.pass.clock);
    NotBoth(w, install, source.relative);
    var walked := OpenAnchored(live, install, source.relative, SKILLS_FAMILY, spare, b.pass.clock);
    if RootOf(w, install, source).Some? {
      var h := RootOf(w, install, source).value;
      assert walked.root == Some(Opened(h));
      FolderObject(w, h, tree);
      QuietCalls(Job(live, p => true), w, walked.clock);
      SkillsAreComplete(live, w, source.admits, h, tree, spare - 2, walked.clock + 3, b.pass.tally);
      var s := CopySkills(live, source.admits, h, spare - 2, walked.clock + 3, b.pass.tally).value;
      QuietCalls(Job(live, p => true), w, s.pass.clock);
      assert s.count == 0 <==> s.pass.out == map[];
    }
  }

  ghost predicate DistinctAliases(list: seq<Source>) {
    forall i, k | 0 <= i < k < |list| :: list[i].alias != list[k].alias
  }

  lemma {:induction false} CarriedNames(w: World, install: ObjectId, list: seq<Source>, trees: seq<Still>, a: Name)
    requires |trees| == |list| && a in CarriedBundles(w, install, list, trees)
    ensures exists k :: 0 <= k < |list| && list[k].alias == a
  {
    hide HasSkills, SkillsFrom;
    var n := |list| - 1;
    if a == list[n].alias {
    } else {
      CarriedNames(w, install, list[..n], trees[..n], a);
      var k :| 0 <= k < n && list[..n][k].alias == a;
      assert list[k].alias == a;
    }
  }

  ghost predicate Opens(w: World, install: ObjectId, list: seq<Source>) {
    forall k | 0 <= k < |list| :: RootOf(w, install, list[k]).Some? || IsAbsent(w, install, list[k])
  }

  /** What the loop over these sources leaves, when it started with `start`. */
  ghost predicate AllCarried(w: World, install: ObjectId, list: seq<Source>, trees: seq<Still>, start: Bundles, b: Bundles)
    requires |trees| == |list|
  {
    && b.pass.out == CarriedBundles(w, install, list, trees) && b.count == start.count + |b.pass.out.Keys|
    && b.without == start.without + WithoutContent(w, install, list, trees)
    && b.sources == start.sources + Roots(w, install, list)
    && b.pass.tally == Plus(start.pass.tally, BundlesCensus(w, install, list, trees))
  }

  /** From an install that nobody changes: the loop over the sources goes through
      exactly when each is absent or leads through real directories in its family.
      Then the bundles carried are those with a skill to carry, each with all its
      skills, the others are listed as without content, in order, every root that
      was opened is reported, and everything admitted is counted. */
  lemma {:induction false} BundlesAreComplete(live: Live, w: World, install: ObjectId, list: seq<Source>, trees: seq<Still>, spare: nat, start: Bundles)
    requires Quiet(live, w) && spare > 0 && Laid(w, install, list, trees, spare) && DistinctAliases(list) && start.pass.out == map[]
    ensures
      var r := CopyBundleList(live, install, list, spare, start);
      (r.Some? <==> Opens(w, install, list)) && (r.Some? ==> AllCarried(w, install, list, trees, start, r.value))
    decreases |list|
  {
    hide Quiet, CopyBundle, RootOf, IsAbsent, HasSkills, SkillsFrom, SourceCensus;
    if list == [] {
      assert start.without + [] == start.without && start.sources + [] == start.sources;
    } else {
      var n := |list| - 1;
      var front := list[..n];
      LaidFront(w, install, list, trees, spare);
      BundlesAreComplete(live, w, install, front, trees[..n], spare, start);
      assert list == front + [list[n]];
      OneSourceMore(live, install, front, list[n], spare, start);
      var before := CopyBundleList(live, install, front, spare, start);
      OpensFront(w, install, list);
      if before.Some? {
        LastIsCarried(live, w, install, list, trees, spare, start, before.value);
      }
    }
  }

  lemma LaidFront(w: World, install: ObjectId, list: seq<Source>, trees: seq<Still>, spare: nat)
    requires list != [] && Laid(w, install, list, trees, spare) && DistinctAliases(list)
    ensures Laid(w, install, list[..|list|-1], trees[..|list|-1], spare) && DistinctAliases(list[..|list|-1])
  {
    hide RootOf, Depicts, Fits;
  }

  lemma OpensFront(w: World, install: ObjectId, list: seq<Source>)
    requires list != []
    ensures
      var n := |list| - 1;
      Opens(w, install, list) <==> Opens(w, install, list[..n]) && (RootOf(w, install, list[n]).Some? || IsAbsent(w, install, list[n]))
  {
    hide RootOf, IsAbsent;
  }

  lemma NewAlias(w: World, install: ObjectId, list: seq<Source>, trees: seq<Still>)
    requires list != [] && |trees| == |list| && DistinctAliases(list)
    ensures list[|list|-1].alias !in CarriedBundles(w, install, list[..|list|-1], trees[..|list|-1])
  {
    hide CarriedBundles;
    var n := |list| - 1;
    if list[n].alias in CarriedBundles(w, install, list[..n], trees[..n]) {
      CarriedNames(w, install, list[..n], trees[..n], list[n].alias);
    }
  }

  lemma OneListMore(w: World, install: ObjectId, list: seq<Source>, trees: seq<Still>)
    requires list != [] && |trees| == |list|
    ensures
      var n := |list| - 1;
      var last, front, below := list[n], list[..n], trees[..n];
      var added := HasSkills(w, install, last, trees[n]);
      var before := CarriedBundles(w, install, front, below);
      && CarriedBundles(w, install, list, trees) == (if added then before[last.alias := Branch(SkillsFrom(last, trees[n]))] else before)
      && WithoutContent(w, install, list, trees) == WithoutContent(w, install, front, below) + (if added then [] else [last.alias])
      && Roots(w, install, list) == Roots(w, install, front) + (if RootOf(w, install, last).Some? then [RootOf(w, install, last).value] else [])
      && BundlesCensus(w, install, list, trees) == Plus(BundlesCensus(w, install, front, below), SourceCensus(w, install, last, trees[n]))
  {
    hide HasSkills, SkillsFrom, RootOf, SourceCensus;
  }

  lemma LastIsCarried(live: Live, w: World, install: ObjectId, list: seq<Source>, trees: seq<Still>, spare: nat, start: Bundles, b: Bundles)
    requires Quiet(live, w) && spare > 0 && list != [] && Laid(w, install, list, trees, spare) && DistinctAliases(list)
    requires AllCarried(w, install, list[..|list|-1], trees[..|list|-1], start, b)
    ensures
      var n := |list| - 1;
      var r := CopyBundle(live, install, list[n], spare, b);
      && (r.Some? <==> RootOf(w, install, list[n]).Some? || IsAbsent(w, install, list[n]))
      && (r.Some? ==> AllCarried(w, install, list, trees, start, r.value))
  {
    hide Quiet, CopyBundle, RootOf, IsAbsent, HasSkills, SkillsFrom, SourceCensus, Depicts, Fits, DistinctAliases, CarriedBundles,
      WithoutContent, Roots, BundlesCensus, Plus, Laid;
    var n := |list| - 1;
    var last := list[n];
    LastIsLaid(w, install, list, trees, spare);
    NewAlias(w, install, list, trees);
    QuietBundle(live, w, install, last, trees[n], spare, b);
    OneListMore(w, install, list, trees);
    var r := CopyBundle(live, install, last, spare, b);
    if r.Some? {
      assert HasSkills(w, install, last, trees[n]) ==> r.value.pass.out.Keys == b.pass.out.Keys + {last.alias};
      Associative(start.without, WithoutContent(w, install, list[..n], trees[..n]),
        if HasSkills(w, install, last, trees[n]) then [] else [last.alias]);
      Associative(start.sources, Roots(w, install, list[..n]),
        if RootOf(w, install, last).Some? then [RootOf(w, install, last).value] else []);
      PlusIsAssociative(start.pass.tally, BundlesCensus(w, install, list[..n], trees[..n]), SourceCensus(w, install, last, trees[n]));
    }
  }

  lemma LastIsLaid(w: World, install: ObjectId, list: seq<Source>, trees: seq<Still>, spare: nat)
    requires list != [] && Laid(w, install, list, trees, spare)
    ensures
      var n := |list| - 1;
      && |trees| == |list|
      && (RootOf(w, install, list[n]).Some? ==>
            trees[n].StillFolder? && Depicts(w, RootOf(w, install, list[n]).value, trees[n]) && spare >= 2 && Fits(trees[n], spare - 2))
  {
    hide RootOf, Depicts, Fits;
  }

  lemma Associative<T>(a: seq<T>, b: seq<T>, c: seq<T>)
    ensures a + b + c == a + (b + c)
  {
  }

  lemma PlusIsAssociative(a: Tally, b: Tally, c: Tally)
    ensures Plus(Plus(a, b), c) == Plus(a, Plus(b, c))
  {
  }

  // ------------------------------------------------------------- the workspace

  /** Where the workspace is, when nobody changes the install. */
  function PlaceRoot(w: World, place: Place): Option<ObjectId> {
    match place
    case Anchored(install, relative) =>
      if relative != [] && relative[0] == Plain(WORKSPACE_FAMILY) then Follow(w, install, relative) else None
    case Configured(parent, name) =>
      if name.Some? then Follow(w, parent, [Plain(name.value)]) else None
  }

  predicate PlaceAbsent(w: World, place: Place) {
    match place
    case Anchored(install, relative) => relative != [] && relative[0] == Plain(WORKSPACE_FAMILY) && SourceRoot.Absent(w, install, relative)
    case Configured(parent, name) => name.Some? && SourceRoot.Absent(w, parent, [Plain(name.value)])
  }

  lemma WorkspaceUndisturbed(live: Live, w: World, place: Place, spare: nat, t: Time)
    requires Undisturbed(live, w) && spare > 0
    ensures
      var r := OpenWorkspace(live, place, spare, t).root;
      && (forall h: ObjectId :: r == Some(Opened(h)) <==> PlaceRoot(w, place) == Some(h))
      && (r == Some(Nothing) <==> PlaceAbsent(w, place))
  {
    hide OpenAnchored, OpenConfigured, Follow, SourceRoot.Absent;
    match place
    case Anchored(install, relative) => AnchoredUndisturbed(live, w, install, relative, WORKSPACE_FAMILY, spare, t);
    case Configured(parent, name) => ConfiguredUndisturbed(live, w, parent, name, spare, t);
  }

  /** From an install that nobody changes, with enough descriptors: a workspace
      that is there is taken, as the tree pruned, with its census; one that is
      absent is no error; anything else fails the export. */
  lemma WorkspaceIsComplete(live: Live, w: World, place: Place, tree: Still, filter: Path -> bool, spare: nat, t: Time)
    requires Quiet(live, w) && spare > 0
    requires PlaceRoot(w, place).Some? ==> tree.StillFolder? && Depicts(w, PlaceRoot(w, place).value, tree) && Fits(tree, spare)
    ensures
      match TakeWorkspace(live, place, filter, spare, t)
      case Failed => PlaceRoot(w, place).None? && !PlaceAbsent(w, place)
      case Absent(_) => PlaceAbsent(w, place)
      case Taken(h, p) =>
        && PlaceRoot(w, place) == Some(h) && Branch(p.out) == Pruned(tree, filter, [])
        && p.tally == Census(tree, filter, [])
  {
    hide OpenWorkspace, PlaceAbsent, PlaceRoot, CopyDir, Census, Pruned, Depicts, Fits;
    QuietIsUndisturbed(live, w);
    WorkspaceUndisturbed(live, w, place, spare, t);
    var walked := OpenWorkspace(live, place, spare, t);
    if PlaceRoot(w, place).Some? {
      var h := PlaceRoot(w, place).value;
      assert walked.root == Some(Opened(h));
      FolderObject(w, h, tree);
      QuietCalls(Job(live, filter), w, walked.clock);
      CopyIsPruned(Job(live, filter), w, h, tree, [], spare, walked.clock + 3, NO_FILES);
    }
  }
}
