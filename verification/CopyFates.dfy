/** What becomes of every entry of a copy, whoever changes the tree meanwhile. */
module CopyFates {
  import opened Options
  import opened Filesystem
  import opened LiveTree
  import opened CopyTree
  import opened CopySafety
  import CopyCounts

  /** What becomes of one entry. The last is the one that leaves no trace. */
  datatype Fate = Excluded | Carried | Entered | IsLink | IsSpecial | HardLinked | Replaced | Unmentioned

  /** An entry that is classified as a file, by what its handle turns out to be. */
  function FileFate(j: Job, dir: ObjectId, name: Name, id: ObjectId, spare: nat, t: Time): Fate {
    var handle := OpenFile(j.live, t, dir, name, spare);
    var what := if handle.Some? then Fstat(j.live, t + 1, handle.value) else None;
    if what.None? || !what.value.File? then Unmentioned
    else if what.value.links > 1 then HardLinked
    else if handle.value != id then Replaced
    else Carried
  }

  /** What the answers the system gives, from the time `t` on, make of an entry. */
  function FateOf(j: Job, c: Call, name: Name, t: Time): Fate {
    var found := Lstat(j.live, t, c.dir, name);
    if !j.filter(c.rel + [name]) then Excluded
    else match found
      case None => Unmentioned
      case Some(Found(_, Link)) => IsLink
      case Some(Found(_, Special)) => IsSpecial
      case Some(Found(id, Folder(_))) =>
        if c.spare > 0 && OpenDir(j.live, t + 1, c.dir, name, c.spare - 1) == Some(id) then Entered else Replaced
      case Some(Found(id, File(_, _, _))) => FileFate(j, c.dir, name, id, if c.spare > 0 then c.spare - 1 else 0, t + 1)
  }

  /** The fates of the first `i` entries, and of all below them. */
  ghost function Fates(j: Job, c: Call, i: nat): multiset<Fate>
    requires i <= |Names(j, c)|
    decreases c.spare, 1, i
  {
    if i == 0 || Before(j, c, i - 1).None? then multiset{} else
      var name, q := Names(j, c)[i-1], Before(j, c, i - 1).value;
      Fates(j, c, i - 1) + multiset{FateOf(j, c, name, q.clock)} + Inner(j, c, name, q)
  }

  /** The fates below one entry: those of the directory that is entered. */
  ghost function Inner(j: Job, c: Call, name: Name, q: Pass): multiset<Fate>
    decreases c.spare, 0, 0
  {
    if c.spare > 0 && FateOf(j, c, name, q.clock).Entered? then
      AllFates(j, Below(c, name, Lstat(j.live, q.clock, c.dir, name).value.id, q))
    else multiset{}
  }

  ghost function AllFates(j: Job, c: Call): multiset<Fate>
    decreases c.spare, 2
  {
    Fates(j, c, |Names(j, c)|)
  }

  /** How many of the first `i` entries the filter admits, and of all below them. */
  ghost function Admitted(j: Job, c: Call, i: nat): nat
    requires i <= |Names(j, c)|
    decreases c.spare, 1, i
  {
    if i == 0 || Before(j, c, i - 1).None? then 0 else
      var name, q := Names(j, c)[i-1], Before(j, c, i - 1).value;
      Admitted(j, c, i - 1) + (if j.filter(c.rel + [name]) then 1 else 0) + InnerAdmitted(j, c, name, q)
  }

  ghost function InnerAdmitted(j: Job, c: Call, name: Name, q: Pass): nat
    decreases c.spare, 0, 0
  {
    if c.spare > 0 && FateOf(j, c, name, q.clock).Entered? then
      AllAdmitted(j, Below(c, name, Lstat(j.live, q.clock, c.dir, name).value.id, q))
    else 0
  }

  ghost function AllAdmitted(j: Job, c: Call): nat
    decreases c.spare, 2
  {
    Admitted(j, c, |Names(j, c)|)
  }

  function Known(f: multiset<Fate>): nat {
    f[Carried] + f[Entered] + f[IsLink] + f[IsSpecial] + f[HardLinked] + f[Replaced] + f[Unmentioned]
  }

  /** The counts go up by these fates. */
  ghost predicate Accounted(before: Tally, after: Tally, fates: multiset<Fate>) {
    && after.files == before.files + fates[Carried]
    && after.symlinks == before.symlinks + fates[IsLink]
    && after.others == before.others + fates[IsSpecial]
    && after.hardLinks == before.hardLinks + fates[HardLinked]
    && after.replaced == before.replaced + fates[Replaced]
  }

  lemma FileAccounts(j: Job, c: Call, name: Name, id: ObjectId, p: Pass)
    requires c.spare > 0 && CopyFile(j, c.dir, name, id, c.spare - 1, p).Some?
    ensures Accounted(p.tally, CopyFile(j, c.dir, name, id, c.spare - 1, p).value.tally,
                      multiset{FileFate(j, c.dir, name, id, c.spare - 1, p.clock)})
  {
  }

  lemma {:induction false} EntryAccounts(j: Job, c: Call, name: Name, q: Pass)
    requires c.spare > 0 && CopyEntry(j, c.dir, c.rel, name, c.spare - 1, q).Some?
    ensures Accounted(q.tally, CopyEntry(j, c.dir, c.rel, name, c.spare - 1, q).value.tally,
                      multiset{FateOf(j, c, name, q.clock)} + Inner(j, c, name, q))
    decreases c.spare, 0
  {
    hide CopyDir, CopyFile, AllFates, FileFate, OpenFile, OpenDir, Fstat;
    if j.filter(c.rel + [name]) {
      var found := Lstat(j.live, q.clock, c.dir, name).value;
      if found.what.File? {
        FileAccounts(j, c, name, found.id, q.(clock := q.clock + 1));
        assert !FateOf(j, c, name, q.clock).Entered? by { FilesAreNotEntered(j, c.dir, name, found.id, c.spare - 1, q.clock + 1); }
      } else if FateOf(j, c, name, q.clock).Entered? {
        AllAccounted(j, Below(c, name, found.id, q));
      }
    }
  }

  lemma FilesAreNotEntered(j: Job, dir: ObjectId, name: Name, id: ObjectId, spare: nat, t: Time)
    ensures !FileFate(j, dir, name, id, spare, t).Entered?
  {
  }

  lemma {:induction false} BeforeAccounts(j: Job, c: Call, i: nat)
    requires i <= |Names(j, c)| && Before(j, c, i).Some?
    ensures Accounted(c.tally, Before(j, c, i).value.tally, Fates(j, c, i))
    decreases c.spare, 1, i
  {
    hide CopyEntry, FateOf, Inner, Below;
    if i > 0 {
      var names := Names(j, c);
      assert names[..i] == names[..i-1] + [names[i-1]];
      OneEntryMore(j, c.dir, c.rel, names[..i-1], names[i-1], c.spare - 1, Pass(c.clock + 1, c.tally, map[]));
      BeforeAccounts(j, c, i - 1);
      var q := Before(j, c, i - 1).value;
      EntryAccounts(j, c, names[i-1], q);
    }
  }

  lemma {:induction false} AdmittedHaveFates(j: Job, c: Call, i: nat)
    requires i <= |Names(j, c)|
    ensures Admitted(j, c, i) == Known(Fates(j, c, i))
    decreases c.spare, 1, i
  {
    hide FateOf, Inner, InnerAdmitted, Before, Known;
    if i == 0 || Before(j, c, i - 1).None? {
      NothingKnown();
    } else {
      var name, q := Names(j, c)[i-1], Before(j, c, i - 1).value;
      AdmittedHaveFates(j, c, i - 1);
      InnerHaveFates(j, c, name, q);
      ExcludedMeans(j, c, name, q.clock);
      OneKnown(Fates(j, c, i - 1), FateOf(j, c, name, q.clock), Inner(j, c, name, q));
    }
  }

  lemma NothingKnown()
    ensures Known(multiset{}) == 0
  {
  }

  lemma OneKnown(a: multiset<Fate>, f: Fate, b: multiset<Fate>)
    ensures Known(a + multiset{f} + b) == Known(a) + (if f.Excluded? then 0 else 1) + Known(b)
  {
  }

  lemma ExcludedMeans(j: Job, c: Call, name: Name, t: Time)
    ensures FateOf(j, c, name, t).Excluded? <==> !j.filter(c.rel + [name])
  {
  }

  lemma {:induction false} InnerHaveFates(j: Job, c: Call, name: Name, q: Pass)
    ensures InnerAdmitted(j, c, name, q) == Known(Inner(j, c, name, q))
    decreases c.spare, 0
  {
    if c.spare > 0 && FateOf(j, c, name, q.clock).Entered? {
      var below := Below(c, name, Lstat(j.live, q.clock, c.dir, name).value.id, q);
      AdmittedHaveFates(j, below, |Names(j, below)|);
    }
  }

  lemma {:induction false} AllAccounted(j: Job, c: Call)
    requires Result(j, c).Some?
    ensures Accounted(c.tally, Result(j, c).value.tally, AllFates(j, c))
    decreases c.spare, 2
  {
    hide CopyEntries, Fates;
    var n := |Names(j, c)|;
    assert Names(j, c)[..n] == Names(j, c);
    BeforeAccounts(j, c, n);
  }

  /** Whatever is done to the tree meanwhile: over a whole copy, each count goes
      up by the entries that met its fate, the bundle gets one file for each that
      was carried, and the entries that the filter admits are those that were
      carried, entered or counted, and the unmentioned ones. */
  lemma CopyAccounts(j: Job, c: Call)
    requires Result(j, c).Some?
    ensures
      var p, fates := Result(j, c).value, AllFates(j, c);
      && Accounted(c.tally, p.tally, fates) && CopyCounts.Total(p.out, CopyCounts.One()) == fates[Carried]
      && AllAdmitted(j, c) ==
           (p.tally.files - c.tally.files) + (p.tally.symlinks - c.tally.symlinks) + (p.tally.others - c.tally.others)
           + (p.tally.hardLinks - c.tally.hardLinks) + (p.tally.replaced - c.tally.replaced)
           + fates[Entered] + fates[Unmentioned]
  {
    hide CopyDir, Fates, Admitted, CopyCounts.Total;
    AllAccounted(j, c);
    AdmittedHaveFates(j, c, |Names(j, c)|);
    CopyCounts.CopyIsCounted(j, c.dir, c.rel, c.spare, c.clock, c.tally);
  }

  /** An entry is unmentioned exactly when it was classified as a file and what
      was opened is none. */
  lemma UnmentionedMeans(j: Job, c: Call, name: Name, q: Pass)
    requires c.spare > 0 && CopyEntry(j, c.dir, c.rel, name, c.spare - 1, q).Some?
    ensures FateOf(j, c, name, q.clock).Unmentioned? <==>
              j.filter(c.rel + [name]) && Lstat(j.live, q.clock, c.dir, name).value.what.File?
              && !Fstat(j.live, q.clock + 2, OpenFile(j.live, q.clock + 1, c.dir, name, c.spare - 1).value).value.File?
  {
  }
}
