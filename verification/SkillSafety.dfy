/** What the skill bundles of an export carry, and how they are counted. */
module SkillSafety {
  import opened Options
  import opened Filesystem
  import opened LiveTree
  import opened CopyTree
  import opened CopySafety
  import opened CopyCounts
  import opened SourceRoot
  import opened SkillBundles

  lemma {:induction false} NoFilesNoBytes(t: Tree)
    requires Weight(t, One()) == 0
    ensures Weight(t, Length()) == 0
  {
    if t.Branch? {
      var ones := map n | n in t.below :: Weight(t.below[n], One());
      var lengths := map n | n in t.below :: Weight(t.below[n], Length());
      forall n | n in t.below ensures lengths[n] == 0 {
        SumWithout(ones, n);
        NoFilesNoBytes(t.below[n]);
      }
      SumOfZeros(lengths);
    }
  }

  lemma {:induction false} SumOfZeros(m: map<Name, nat>)
    requires forall n <- m :: m[n] == 0
    ensures Sum(m) == 0
    decreases |m|
  {
    if m != map[] {
      var k :| k in m;
      SumWithout(m, k);
      SumOfZeros(m - {k});
    }
  }

  // ------------------------------------------------------------- one bundle

  /** Every skill that stays carries a file, each is counted once, and so are its
      files and bytes. */
  ghost predicate SkillsHold(s: Skills, start: Tally) {
    && (forall n <- s.pass.out :: s.pass.out[n].Branch? && Weight(s.pass.out[n], One()) > 0)
    && s.count == |s.pass.out.Keys|
    && s.pass.tally.files == start.files + Total(s.pass.out, One())
    && s.pass.tally.bytes == start.bytes + Total(s.pass.out, Length())
  }

  lemma SkillDirHolds(live: Live, handle: ObjectId, name: Name, spare: nat, s: Skills, start: Tally)
    requires SkillsHold(s, start) && CopySkillDir(live, handle, name, spare, s).Some?
    ensures SkillsHold(CopySkillDir(live, handle, name, spare, s).value, start)
  {
    hide CopyDir, Weight;
    var j := Job(live, p => true);
    var below := CopyDir(j, handle, [name], spare - 2, s.pass.clock + 2, s.pass.tally).value;
    CopyIsCounted(j, handle, [name], spare - 2, s.pass.clock + 2, s.pass.tally);
    if below.tally.files > s.pass.tally.files {
      TotalWith(s.pass.out, name, Branch(below.out), One());
      TotalWith(s.pass.out, name, Branch(below.out), Length());
      assert s.pass.out[name := Branch(below.out)].Keys == s.pass.out.Keys + {name};
    } else {
      NoFilesNoBytes(Branch(below.out));
    }
  }

  lemma SkillHolds(live: Live, admits: Name -> bool, dir: ObjectId, name: Name, spare: nat, s: Skills, start: Tally)
    requires SkillsHold(s, start) && CopySkill(live, admits, dir, name, spare, s).Some?
    ensures SkillsHold(CopySkill(live, admits, dir, name, spare, s).value, start)
  {
    hide CopySkillDir, Weight, Total, OpenDir, Fstat, Lstat;
    if admits(name) {
      var found := Lstat(live, s.pass.clock, dir, name).value;
      if found.what.Folder? && OpenDir(live, s.pass.clock + 1, dir, name, spare) == Some(found.id) {
        var at := Skills(Pass(s.pass.clock + 3, s.pass.tally, s.pass.out), s.count);
        SkillDirHolds(live, found.id, name, spare, at, start);
      }
    }
  }

  lemma {:induction false} SkillNamesHold(live: Live, admits: Name -> bool, dir: ObjectId, names: seq<Name>, spare: nat, s: Skills, start: Tally)
    requires SkillsHold(s, start) && CopySkillNames(live, admits, dir, names, spare, s).Some?
    ensures SkillsHold(CopySkillNames(live, admits, dir, names, spare, s).value, start)
    decreases |names|
  {
    hide CopySkill, SkillsHold;
    if names != [] {
      SkillHolds(live, admits, dir, names[0], spare, s, start);
      SkillNamesHold(live, admits, dir, names[1..], spare, CopySkill(live, admits, dir, names[0], spare, s).value, start);
    }
  }

  /** The number of skills is the number of directories left, each with a file,
      whatever is done to the bundle meanwhile. */
  lemma SkillsAreCounted(live: Live, admits: Name -> bool, dir: ObjectId, spare: nat, clock: Time, tally: Tally)
    requires CopySkills(live, admits, dir, spare, clock, tally).Some?
    ensures SkillsHold(CopySkills(live, admits, dir, spare, clock, tally).value, tally)
  {
    hide CopySkillNames;
    EmptyWeighs(One());
    EmptyWeighs(Length());
    var names := live.lists(clock, dir).value.names;
    SkillNamesHold(live, admits, dir, names, spare - 1, Skills(Pass(clock + 1, tally, map[]), 0), tally);
  }

  /** One bundle that is gone through: `copy_skills` with its arguments, the time,
      and the tally so far. */
  datatype Shelf = Shelf(admits: Name -> bool, dir: ObjectId, spare: nat, clock: Time, tally: Tally)

  function ShelfResult(live: Live, c: Shelf): Option<Skills> {
    CopySkills(live, c.admits, c.dir, c.spare, c.clock, c.tally)
  }

  function ShelfNames(live: Live, c: Shelf): seq<Name> {
    if live.lists(c.clock, c.dir).Some? then live.lists(c.clock, c.dir).value.names else []
  }

  /** Where the loop is just before it turns to entry `i`. */
  function BeforeSkill(live: Live, c: Shelf, i: nat): Option<Skills>
    requires i <= |ShelfNames(live, c)|
  {
    if c.spare == 0 then None
    else CopySkillNames(live, c.admits, c.dir, ShelfNames(live, c)[..i], c.spare - 1, Skills(Pass(c.clock + 1, c.tally, map[]), 0))
  }

  /** The copy of a skill whose directory was classified at the time `q.pass.clock`. */
  function SkillCall(c: Shelf, name: Name, id: ObjectId, q: Skills): Call {
    Call(id, [name], if c.spare < 3 then 0 else c.spare - 3, q.pass.clock + 5, q.pass.tally)
  }

  /** What is carried as the skill `name`: the bundle admits it, this loop
      classified it as a directory and opened it as that object by its next call,
      and every file below it is a genuine one of the copy of that directory. */
  ghost predicate GenuineSkill(live: Live, c: Shelf, name: Name, below: Contents, until: Time) {
    c.admits(name) && exists i, q :: SkillTurns(live, c, i, name, q) && SkillFrom(live, c, name, below, q, until)
  }

  ghost predicate SkillTurns(live: Live, c: Shelf, i: nat, name: Name, q: Skills) {
    i < |ShelfNames(live, c)| && ShelfNames(live, c)[i] == name && BeforeSkill(live, c, i) == Some(q)
  }

  ghost predicate SkillFrom(live: Live, c: Shelf, name: Name, below: Contents, q: Skills, until: Time) {
    var f := Lstat(live, q.pass.clock, c.dir, name);
    && f.Some? && f.value.what.Folder? && Wears(live, c.dir, name, f.value.id, q.pass.clock + 1)
    && AllGenuine(Job(live, p => true), SkillCall(c, name, f.value.id, q), below, until)
  }

  ghost predicate GenuineSkills(live: Live, c: Shelf, out: Contents, until: Time) {
    forall n <- out :: out[n].Branch? && GenuineSkill(live, c, n, out[n].below, until)
  }

  lemma SkillsLater(live: Live, c: Shelf, out: Contents, u: Time, v: Time)
    requires u <= v && GenuineSkills(live, c, out, u)
    ensures GenuineSkills(live, c, out, v)
  {
    hide SkillTurns, AllGenuine;
    forall n | n in out ensures GenuineSkill(live, c, n, out[n].below, v) {
      var i, q :| SkillTurns(live, c, i, n, q) && SkillFrom(live, c, n, out[n].below, q, u);
      AllLater(Job(live, p => true), SkillCall(c, n, Lstat(live, q.pass.clock, c.dir, n).value.id, q), out[n].below, u, v);
      assert SkillFrom(live, c, n, out[n].below, q, v);
    }
  }

  lemma SkillDirIsGenuine(live: Live, c: Shelf, i: nat, name: Name, q: Skills)
    requires c.spare > 0 && SkillTurns(live, c, i, name, q) && GenuineSkills(live, c, q.pass.out, q.pass.clock) && c.admits(name)
    requires var f := Lstat(live, q.pass.clock, c.dir, name); f.Some? && f.value.what.Folder? && Wears(live, c.dir, name, f.value.id, q.pass.clock + 1)
    requires
      var id := Lstat(live, q.pass.clock, c.dir, name).value.id;
      CopySkillDir(live, id, name, c.spare - 1, Skills(Pass(q.pass.clock + 3, q.pass.tally, q.pass.out), q.count)).Some?
    ensures
      var id := Lstat(live, q.pass.clock, c.dir, name).value.id;
      var r := CopySkillDir(live, id, name, c.spare - 1, Skills(Pass(q.pass.clock + 3, q.pass.tally, q.pass.out), q.count)).value;
      q.pass.clock < r.pass.clock && GenuineSkills(live, c, r.pass.out, r.pass.clock)
  {
    hide CopyDir, SkillTurns, AllGenuine, GenuineSkill, Wears;
    var id := Lstat(live, q.pass.clock, c.dir, name).value.id;
    var r := CopySkillDir(live, id, name, c.spare - 1, Skills(Pass(q.pass.clock + 3, q.pass.tally, q.pass.out), q.count)).value;
    var inner, j := SkillCall(c, name, id, q), Job(live, p => true);
    CopyIsGenuine(j, inner);
    var below := Result(j, inner).value;
    SkillsLater(live, c, q.pass.out, q.pass.clock, r.pass.clock);
    if r.pass.out != q.pass.out {
      AllLater(j, inner, below.out, below.clock, r.pass.clock);
      IsGenuineSkill(live, c, i, name, q, below.out, r.pass.clock);
    }
  }

  lemma IsGenuineSkill(live: Live, c: Shelf, i: nat, name: Name, q: Skills, below: Contents, until: Time)
    requires c.admits(name) && SkillTurns(live, c, i, name, q) && SkillFrom(live, c, name, below, q, until)
    ensures GenuineSkill(live, c, name, below, until)
  {
    hide SkillTurns, SkillFrom;
  }

  lemma SkillIsGenuine(live: Live, c: Shelf, i: nat, name: Name, q: Skills)
    requires c.spare > 0 && SkillTurns(live, c, i, name, q) && GenuineSkills(live, c, q.pass.out, q.pass.clock)
    requires CopySkill(live, c.admits, c.dir, name, c.spare - 1, q).Some?
    ensures
      var r := CopySkill(live, c.admits, c.dir, name, c.spare - 1, q).value;
      q.pass.clock <= r.pass.clock && GenuineSkills(live, c, r.pass.out, r.pass.clock)
  {
    hide CopySkillDir, GenuineSkills, SkillTurns;
    var r := CopySkill(live, c.admits, c.dir, name, c.spare - 1, q).value;
    if c.admits(name) {
      var found := Lstat(live, q.pass.clock, c.dir, name).value;
      if found.what.Folder? && OpenDir(live, q.pass.clock + 1, c.dir, name, c.spare - 1) == Some(found.id) {
        SkillDirIsGenuine(live, c, i, name, q);
      } else {
        SkillsLater(live, c, q.pass.out, q.pass.clock, r.pass.clock);
      }
    }
  }

  lemma {:induction false} OneSkillMore(live: Live, admits: Name -> bool, dir: ObjectId, names: seq<Name>, n: Name, spare: nat, s: Skills)
    ensures CopySkillNames(live, admits, dir, names + [n], spare, s) ==
            match CopySkillNames(live, admits, dir, names, spare, s)
            case None => None
            case Some(q) => CopySkill(live, admits, dir, n, spare, q)
    decreases |names|
  {
    hide CopySkill;
    var all := names + [n];
    if names == [] {
      assert all[1..] == [];
    } else {
      assert all[1..] == names[1..] + [n];
      var q := CopySkill(live, admits, dir, names[0], spare, s);
      if q.Some? {
        OneSkillMore(live, admits, dir, names[1..], n, spare, q.value);
      }
    }
  }

  lemma {:induction false} BeforeSkillIsGenuine(live: Live, c: Shelf, i: nat)
    requires i <= |ShelfNames(live, c)| && BeforeSkill(live, c, i).Some?
    ensures
      var q := BeforeSkill(live, c, i).value;
      c.clock < q.pass.clock && GenuineSkills(live, c, q.pass.out, q.pass.clock)
  {
    hide GenuineSkill, CopySkill;
    if i > 0 {
      var names := ShelfNames(live, c);
      assert names[..i] == names[..i-1] + [names[i-1]];
      OneSkillMore(live, c.admits, c.dir, names[..i-1], names[i-1], c.spare - 1, Skills(Pass(c.clock + 1, c.tally, map[]), 0));
      BeforeSkillIsGenuine(live, c, i - 1);
      SkillIsGenuine(live, c, i - 1, names[i-1], BeforeSkill(live, c, i - 1).value);
    }
  }

  /** Whatever is done to a bundle while it is copied: every skill carried is one
      the bundle admits, and every file of it is a genuine one of this copy. */
  lemma SkillsAreGenuine(live: Live, c: Shelf)
    requires ShelfResult(live, c).Some?
    ensures
      var s := ShelfResult(live, c).value;
      c.clock < s.pass.clock && GenuineSkills(live, c, s.pass.out, s.pass.clock)
  {
    hide CopySkillNames, GenuineSkills;
    var n := |ShelfNames(live, c)|;
    assert ShelfNames(live, c)[..n] == ShelfNames(live, c);
    BeforeSkillIsGenuine(live, c, n);
  }

  // ------------------------------------------------------------- all bundles

  /** The bundles that carry a file. */
  ghost function WithFiles(out: Contents): set<Name> {
    set a | a in out && Weight(out[a], One()) > 0
  }

  /** `n` sources are accounted for: counted when they carry a file, listed as
      without content otherwise. */
  ghost predicate BundlesHold(b: Bundles, n: nat) {
    b.count + |b.without| == n && b.count == |WithFiles(b.pass.out)| && forall a <- b.pass.out :: b.pass.out[a].Branch?
  }

  lemma BundleHolds(live: Live, install: ObjectId, source: Source, spare: nat, b: Bundles, n: nat)
    requires BundlesHold(b, n) && CopyBundle(live, install, source, spare, b).Some?
    ensures BundlesHold(CopyBundle(live, install, source, spare, b).value, n + 1)
  {
    hide OpenAnchored, CopySkills, Weight, Fstat;
    var q := CopyBundle(live, install, source, spare, b).value;
    var walked := OpenAnchored(live, install, source.relative, SKILLS_FAMILY, spare, b.pass.clock);
    if walked.root != Some(Nothing) {
      var h := walked.root.value.handle;
      SkillsAreCounted(live, source.admits, h, spare - 2, walked.clock + 3, b.pass.tally);
      var s := CopySkills(live, source.admits, h, spare - 2, walked.clock + 3, b.pass.tally).value;
      WeightOfSkills(s, b.pass.tally);
      FilesInOneMore(b.pass.out, source.alias, s);
    }
  }

  lemma WeightOfSkills(s: Skills, start: Tally)
    requires SkillsHold(s, start)
    ensures s.count > 0 <==> Weight(Branch(s.pass.out), One()) > 0
  {
    var ones := map n | n in s.pass.out :: Weight(s.pass.out[n], One());
    if s.count > 0 {
      var n :| n in s.pass.out;
      SumWithout(ones, n);
    } else {
      assert s.pass.out.Keys == {};
      assert ones == map[];
    }
  }

  lemma FilesInOneMore(out: Contents, alias: Name, s: Skills)
    requires alias !in out && (s.count > 0 <==> Weight(Branch(s.pass.out), One()) > 0)
    ensures WithFiles(out[alias := Branch(s.pass.out)]) == WithFiles(out) + if s.count > 0 then {alias} else {}
  {
    hide Weight;
  }

  lemma {:induction false} BundleListHolds(live: Live, install: ObjectId, list: seq<Source>, spare: nat, b: Bundles, n: nat)
    requires BundlesHold(b, n) && CopyBundleList(live, install, list, spare, b).Some?
    ensures BundlesHold(CopyBundleList(live, install, list, spare, b).value, n + |list|)
    decreases |list|
  {
    hide CopyBundle, BundlesHold;
    if list != [] {
      BundleHolds(live, install, list[0], spare, b, n);
      BundleListHolds(live, install, list[1..], spare, CopyBundle(live, install, list[0], spare, b).value, n + 1);
    }
  }

  /** Across the skill bundles: those counted and those without content are as
      many as the sources, and a bundle is counted exactly when it carries a file. */
  lemma BundlesAddUp(live: Live, install: ObjectId, list: seq<Source>, spare: nat, clock: Time, tally: Tally, before: seq<ObjectId>)
    requires CopyBundleList(live, install, list, spare, Bundles(Pass(clock, tally, map[]), 0, [], before)).Some?
    ensures
      var b := CopyBundleList(live, install, list, spare, Bundles(Pass(clock, tally, map[]), 0, [], before)).value;
      b.count + |b.without| == |list| && b.count == |WithFiles(b.pass.out)|
  {
    hide CopyBundleList;
    var start := Bundles(Pass(clock, tally, map[]), 0, [], before);
    assert WithFiles(start.pass.out) == {};
    BundleListHolds(live, install, list, spare, start, 0);
  }

  /** Where the loop over the sources is just before it turns to source `k`. */
  function BeforeBundle(live: Live, install: ObjectId, list: seq<Source>, spare: nat, start: Bundles, k: nat): Option<Bundles>
    requires k <= |list|
  {
    CopyBundleList(live, install, list[..k], spare, start)
  }

  /** The copy of the skills of `source`, whose root `h` was opened by a walk that
      started at the time `b.pass.clock`. */
  function ShelfOf(source: Source, h: ObjectId, spare: nat, b: Bundles): Shelf {
    Shelf(source.admits, h, if spare < 2 then 0 else spare - 2, b.pass.clock + 3 * |source.relative| + 5, b.pass.tally)
  }

  ghost predicate SourceTurns(live: Live, install: ObjectId, list: seq<Source>, spare: nat, start: Bundles, k: nat, b: Bundles) {
    k < |list| && BeforeBundle(live, install, list, spare, start, k) == Some(b)
  }

  /** The root `h` of `source` lies in the family and was reached by this export's
      own walk from the install root, and the skills are genuine ones of the copy
      of `h`. */
  ghost predicate SourcedFrom(live: Live, install: ObjectId, source: Source, spare: nat, b: Bundles, h: ObjectId, skills: Contents, until: Time) {
    && source.relative != [] && source.relative[0] == Plain(SKILLS_FAMILY)
    && Through(live, install, source.relative, h, b.pass.clock + 2)
    && GenuineSkills(live, ShelfOf(source, h, spare, b), skills, until)
  }

  /** A directory of the bundle's `skills` tree comes from a source of its name,
      read from the root `h`. */
  ghost predicate SourcedAt(live: Live, install: ObjectId, list: seq<Source>, spare: nat, start: Bundles, h: ObjectId,
    alias: Name, skills: Contents, until: Time)
  {
    exists k: nat, b :: SourceTurns(live, install, list, spare, start, k, b) && list[k].alias == alias
      && SourcedFrom(live, install, list[k], spare, b, h, skills, until)
  }

  /** That root is among the `sources` the export reports. */
  ghost predicate Sourced(live: Live, install: ObjectId, list: seq<Source>, spare: nat, start: Bundles, sources: seq<ObjectId>,
    alias: Name, skills: Contents, until: Time)
  {
    exists h :: h in sources && SourcedAt(live, install, list, spare, start, h, alias, skills, until)
  }

  ghost predicate AllSourced(live: Live, install: ObjectId, list: seq<Source>, spare: nat, start: Bundles, b: Bundles) {
    forall a <- b.pass.out :: b.pass.out[a].Branch? &&
      Sourced(live, install, list, spare, start, b.sources, a, b.pass.out[a].below, b.pass.clock)
  }

  lemma MoreSources(live: Live, install: ObjectId, list: seq<Source>, spare: nat, start: Bundles, fewer: seq<ObjectId>, more: seq<ObjectId>,
    a: Name, skills: Contents, u: Time, v: Time)
    requires fewer <= more && u <= v && Sourced(live, install, list, spare, start, fewer, a, skills, u)
    ensures Sourced(live, install, list, spare, start, more, a, skills, v)
  {
    hide Through, GenuineSkills, BeforeBundle;
    var h :| h in fewer && SourcedAt(live, install, list, spare, start, h, a, skills, u);
    var k: nat, b :| SourceTurns(live, install, list, spare, start, k, b) && list[k].alias == a
      && SourcedFrom(live, install, list[k], spare, b, h, skills, u);
    var i :| 0 <= i < |fewer| && fewer[i] == h;
    assert more[i] == h;
    SkillsLater(live, ShelfOf(list[k], h, spare, b), skills, u, v);
    assert SourcedFrom(live, install, list[k], spare, b, h, skills, v);
    assert SourcedAt(live, install, list, spare, start, h, a, skills, v);
  }

  lemma IsSourced(live: Live, install: ObjectId, list: seq<Source>, spare: nat, start: Bundles, sources: seq<ObjectId>,
    k: nat, b: Bundles, h: ObjectId, skills: Contents, until: Time)
    requires SourceTurns(live, install, list, spare, start, k, b) && h in sources
    requires SourcedFrom(live, install, list[k], spare, b, h, skills, until)
    ensures Sourced(live, install, list, spare, start, sources, list[k].alias, skills, until)
  {
    hide SourcedFrom, BeforeBundle;
    assert SourcedAt(live, install, list, spare, start, h, list[k].alias, skills, until);
  }

  /** What one source adds: nothing, or the skills of its root, which joins the sources. */
  lemma BundleAdds(live: Live, install: ObjectId, source: Source, spare: nat, b: Bundles)
    requires CopyBundle(live, install, source, spare, b).Some?
    ensures
      var q := CopyBundle(live, install, source, spare, b).value;
      && b.pass.clock <= q.pass.clock && b.sources <= q.sources
      && (q.pass.out != b.pass.out ==> exists h, skills ::
            && h in q.sources && q.pass.out == b.pass.out[source.alias := Branch(skills)]
            && SourcedFrom(live, install, source, spare, b, h, skills, q.pass.clock))
  {
    hide OpenAnchored, CopySkills, Through, GenuineSkills, Fstat;
    var q := CopyBundle(live, install, source, spare, b).value;
    var walked := OpenAnchored(live, install, source.relative, SKILLS_FAMILY, spare, b.pass.clock);
    if walked.root == Some(Nothing) {
      NothingLater(live, install, source.relative, SKILLS_FAMILY, spare, b.pass.clock);
    } else {
      var h := walked.root.value.handle;
      AnchoredIsTraced(live, install, source.relative, SKILLS_FAMILY, spare, b.pass.clock);
      var shelf := ShelfOf(source, h, spare, b);
      SkillsAreGenuine(live, shelf);
      var s := ShelfResult(live, shelf).value;
      SkillsLater(live, shelf, s.pass.out, s.pass.clock, q.pass.clock);
      assert h in q.sources && SourcedFrom(live, install, source, spare, b, h, s.pass.out, q.pass.clock);
    }
  }

  lemma NothingLater(live: Live, install: ObjectId, relative: seq<Component>, family: Name, spare: nat, t: Time)
    ensures OpenAnchored(live, install, relative, family, spare, t).clock >= t
  {
    hide Walk;
    WalkGoesOn(live, install, relative, spare, t + 2);
  }

  lemma {:induction false} WalkGoesOn(live: Live, dir: ObjectId, relative: seq<Component>, spare: nat, t: Time)
    ensures Walk(live, dir, relative, spare, t).clock >= t
    decreases |relative|
  {
    if relative != [] && relative[0].Plain? {
      var f := Lookup(live.at(t), dir, relative[0].name);
      if f.Some? {
        WalkGoesOn(live, f.value.id, relative[1..], spare, t + 3);
      }
    }
  }

  lemma BundleIsSourced(live: Live, install: ObjectId, list: seq<Source>, spare: nat, start: Bundles, k: nat, b: Bundles)
    requires SourceTurns(live, install, list, spare, start, k, b) && AllSourced(live, install, list, spare, start, b)
    requires CopyBundle(live, install, list[k], spare, b).Some?
    ensures AllSourced(live, install, list, spare, start, CopyBundle(live, install, list[k], spare, b).value)
  {
    hide CopyBundle, SourcedFrom, Sourced, BeforeBundle;
    var q := CopyBundle(live, install, list[k], spare, b).value;
    BundleAdds(live, install, list[k], spare, b);
    forall a | a in b.pass.out ensures Sourced(live, install, list, spare, start, q.sources, a, b.pass.out[a].below, q.pass.clock) {
      MoreSources(live, install, list, spare, start, b.sources, q.sources, a, b.pass.out[a].below, b.pass.clock, q.pass.clock);
    }
    if q.pass.out != b.pass.out {
      var h, skills :| h in q.sources && q.pass.out == b.pass.out[list[k].alias := Branch(skills)]
        && SourcedFrom(live, install, list[k], spare, b, h, skills, q.pass.clock);
      IsSourced(live, install, list, spare, start, q.sources, k, b, h, skills, q.pass.clock);
    }
  }

  lemma {:induction false} OneSourceMore(live: Live, install: ObjectId, list: seq<Source>, s: Source, spare: nat, b: Bundles)
    ensures CopyBundleList(live, install, list + [s], spare, b) ==
            match CopyBundleList(live, install, list, spare, b)
            case None => None
            case Some(q) => CopyBundle(live, install, s, spare, q)
    decreases |list|
  {
    hide CopyBundle;
    var all := list + [s];
    if list == [] {
      assert all[1..] == [];
    } else {
      assert all[1..] == list[1..] + [s];
      var q := CopyBundle(live, install, list[0], spare, b);
      if q.Some? {
        OneSourceMore(live, install, list[1..], s, spare, q.value);
      }
    }
  }

  lemma {:induction false} BeforeIsSourced(live: Live, install: ObjectId, list: seq<Source>, spare: nat, start: Bundles, k: nat)
    requires start.pass.out == map[] && k <= |list| && BeforeBundle(live, install, list, spare, start, k).Some?
    ensures AllSourced(live, install, list, spare, start, BeforeBundle(live, install, list, spare, start, k).value)
  {
    hide CopyBundle, Sourced;
    if k > 0 {
      assert list[..k] == list[..k-1] + [list[k-1]];
      OneSourceMore(live, install, list[..k-1], list[k-1], spare, start);
      BeforeIsSourced(live, install, list, spare, start, k - 1);
      BundleIsSourced(live, install, list, spare, start, k - 1, BeforeBundle(live, install, list, spare, start, k - 1).value);
    }
  }

  /** Whatever is done to the install while it is copied: every skill bundle
      carried comes from a source of its name, by this export's own walk through
      real directories of its family, every file of it is genuine, and the root
      it was read from is among the sources. */
  lemma BundlesAreSourced(live: Live, install: ObjectId, list: seq<Source>, spare: nat, start: Bundles)
    requires start.pass.out == map[] && CopyBundleList(live, install, list, spare, start).Some?
    ensures AllSourced(live, install, list, spare, start, CopyBundleList(live, install, list, spare, start).value)
  {
    hide CopyBundleList, AllSourced;
    assert list[..|list|] == list;
    BeforeIsSourced(live, install, list, spare, start, |list|);
  }

  // ------------------------------------------------------------- the workspace

  /** The directory `h` was reached by this export's own walk to the place, which
      took until the time `u`. */
  ghost predicate ReachedFrom(live: Live, place: Place, h: ObjectId, t: Time, u: Time) {
    match place
    case Anchored(install, relative) =>
      && relative != [] && relative[0] == Plain(WORKSPACE_FAMILY)
      && Through(live, install, relative, h, t + 2) && u == t + 2 + 3 * |relative|
    case Configured(parent, name) =>
      name.Some? && Through(live, parent, [Plain(name.value)], h, t + 1) && u == t + 4
  }

  lemma WorkspaceIsReached(live: Live, place: Place, spare: nat, t: Time)
    requires OpenWorkspace(live, place, spare, t).root.Some? && OpenWorkspace(live, place, spare, t).root.value.Opened?
    ensures
      var walked := OpenWorkspace(live, place, spare, t);
      ReachedFrom(live, place, walked.root.value.handle, t, walked.clock)
  {
    hide OpenAnchored, OpenConfigured, Through;
    match place
    case Anchored(install, relative) => AnchoredIsTraced(live, install, relative, WORKSPACE_FAMILY, spare, t);
    case Configured(parent, name) => ConfiguredIsTraced(live, parent, name, spare, t);
  }

  /** Whatever is done to the install while it is copied: the workspace that is
      carried was reached by this export's own walk, and every file of it is a
      genuine one of the copy that started there. */
  lemma WorkspaceIsSourced(live: Live, place: Place, filter: Path -> bool, spare: nat, t: Time)
    requires TakeWorkspace(live, place, filter, spare, t).Taken?
    ensures
      var w := TakeWorkspace(live, place, filter, spare, t);
      var u := OpenWorkspace(live, place, spare, t).clock;
      && ReachedFrom(live, place, w.source, t, u)
      && AllGenuine(Job(live, filter), Call(w.source, [], spare, u + 3, NO_FILES), w.pass.out, w.pass.clock)
  {
    hide OpenWorkspace, CopyDir, ReachedFrom, AllGenuine;
    WorkspaceIsReached(live, place, spare, t);
    var walked := OpenWorkspace(live, place, spare, t);
    CopyIsGenuine(Job(live, filter), Call(walked.root.value.handle, [], spare, walked.clock + 3, NO_FILES));
  }
}
