/** What a copy counts, and what it is on a tree that nobody changes. */
module CopyCounts {
  import opened Options
  import opened Filesystem
  import opened LiveTree
  import opened CopyTree

  // ------------------------------------------------------------- sums

  ghost function Sum(m: map<Name, nat>): nat {
    if m == map[] then 0 else
      var k :| k in m;
      m[k] + Sum(m - {k})
  }

  lemma {:induction false} SumWithout(m: map<Name, nat>, n: Name)
    requires n in m
    ensures Sum(m) == m[n] + Sum(m - {n})
    decreases |m|
  {
    var k :| k in m && Sum(m) == m[k] + Sum(m - {k});
    if k != n {
      SumWithout(m - {k}, n);
      SumWithout(m - {n}, k);
      assert m - {k} - {n} == m - {n} - {k};
    }
  }

  lemma SumWith(m: map<Name, nat>, n: Name, v: nat)
    requires n !in m
    ensures Sum(m[n := v]) == Sum(m) + v
  {
    SumWithout(m[n := v], n);
    assert m[n := v] - {n} == m;
  }

  lemma {:induction false} SumOfBoth(a: map<Name, nat>, b: map<Name, nat>, c: map<Name, nat>)
    requires a.Keys == b.Keys == c.Keys && forall n <- c :: c[n] == a[n] + b[n]
    ensures Sum(c) == Sum(a) + Sum(b)
    decreases |c|
  {
    if c != map[] {
      var k :| k in c;
      SumWithout(a, k);
      SumWithout(b, k);
      SumWithout(c, k);
      SumOfBoth(a - {k}, b - {k}, c - {k});
    } else {
      assert a == map[] && b == map[];
    }
  }

  // ------------------------------------------------------------- the bundle and the tally

  ghost function Weight(t: Tree, weigh: seq<int> -> nat): nat {
    match t
    case Leaf(bytes, _) => weigh(bytes)
    case Branch(below) => Sum(map n | n in below :: Weight(below[n], weigh))
  }

  /** The files of a directory of the bundle, each with its weight. */
  ghost function Total(out: Contents, weigh: seq<int> -> nat): nat {
    Weight(Branch(out), weigh)
  }

  function One(): seq<int> -> nat {
    bytes => 1
  }

  function Length(): seq<int> -> nat {
    bytes => |bytes|
  }

  lemma TotalWith(out: Contents, name: Name, t: Tree, weigh: seq<int> -> nat)
    requires name !in out
    ensures Total(out[name := t], weigh) == Total(out, weigh) + Weight(t, weigh)
  {
    var before := map n | n in out :: Weight(out[n], weigh);
    var more := out[name := t];
    var after := map n | n in more :: Weight(more[n], weigh);
    assert after == before[name := Weight(t, weigh)];
    SumWith(before, name, Weight(t, weigh));
    assert Weight(Branch(out), weigh) == Sum(before) && Weight(Branch(more), weigh) == Sum(after);
  }

  /** The tally counts up by the files and the bytes that the bundle gains. */
  ghost predicate CountsUp(before: Tally, out: Contents, after: Tally, more: Contents) {
    && after.files - before.files == Total(more, One()) - Total(out, One())
    && after.bytes - before.bytes == Total(more, Length()) - Total(out, Length())
  }

  lemma FileIsCounted(j: Job, dir: ObjectId, name: Name, id: ObjectId, spare: nat, p: Pass)
    requires CopyFile(j, dir, name, id, spare, p).Some?
    ensures var q := CopyFile(j, dir, name, id, spare, p).value; CountsUp(p.tally, p.out, q.tally, q.out)
  {
    hide Weight;
    var q := CopyFile(j, dir, name, id, spare, p).value;
    if q.out != p.out {
      var t := q.out[name];
      assert name !in p.out && t.Leaf? && q.out == p.out[name := t];
      LeafWeighs(t);
      TotalWith(p.out, name, t, One());
      TotalWith(p.out, name, t, Length());
    } else {
      assert q.tally.files == p.tally.files || name in q.out;
    }
  }

  lemma LeafWeighs(t: Tree)
    requires t.Leaf?
    ensures Weight(t, One()) == 1 && Weight(t, Length()) == |t.bytes|
  {
  }

  lemma EmptyWeighs(weigh: seq<int> -> nat)
    ensures Total(map[], weigh) == 0
  {
    var none: Contents := map[];
    assert (map n | n in none :: Weight(none[n], weigh)) == map[];
  }

  lemma {:induction false} FolderIsCounted(j: Job, dir: ObjectId, rel: Path, name: Name, id: ObjectId, spare: nat, p: Pass)
    requires CopyFolder(j, dir, rel, name, id, spare, p).Some?
    ensures var q := CopyFolder(j, dir, rel, name, id, spare, p).value; CountsUp(p.tally, p.out, q.tally, q.out)
    decreases spare, 0, 0
  {
    hide Weight, CopyDir;
    var handle := OpenDir(j.live, p.clock, dir, name, spare).value;
    EmptyWeighs(One());
    EmptyWeighs(Length());
    var below: Contents := map[];
    if handle == id {
      CopyIsCounted(j, handle, rel + [name], spare - 2, p.clock + 4, p.tally);
      below := CopyDir(j, handle, rel + [name], spare - 2, p.clock + 4, p.tally).value.out;
    }
    TotalWith(p.out, name, Branch(below), One());
    TotalWith(p.out, name, Branch(below), Length());
    assert p.out[name := Branch(map[])][name := Branch(below)] == p.out[name := Branch(below)];
  }

  lemma {:induction false} EntryIsCounted(j: Job, dir: ObjectId, rel: Path, name: Name, spare: nat, p: Pass)
    requires CopyEntry(j, dir, rel, name, spare, p).Some?
    ensures var q := CopyEntry(j, dir, rel, name, spare, p).value; CountsUp(p.tally, p.out, q.tally, q.out)
    decreases spare, 0, 1
  {
    hide CopyFile, CopyFolder, Total;
    if j.filter(rel + [name]) {
      var found := Lstat(j.live, p.clock, dir, name).value;
      var seen := p.(clock := p.clock + 1);
      if found.what.Folder? {
        FolderIsCounted(j, dir, rel, name, found.id, spare, seen);
      } else if found.what.File? {
        FileIsCounted(j, dir, name, found.id, spare, seen);
      }
    }
  }

  lemma {:induction false} EntriesAreCounted(j: Job, dir: ObjectId, rel: Path, names: seq<Name>, spare: nat, p: Pass)
    requires CopyEntries(j, dir, rel, names, spare, p).Some?
    ensures var q := CopyEntries(j, dir, rel, names, spare, p).value; CountsUp(p.tally, p.out, q.tally, q.out)
    decreases spare, 1, |names|
  {
    hide CopyEntry, Total;
    if names != [] {
      EntryIsCounted(j, dir, rel, names[0], spare, p);
      EntriesAreCounted(j, dir, rel, names[1..], spare, CopyEntry(j, dir, rel, names[0], spare, p).value);
    }
  }

  /** The file and byte counts are those of the copy, whatever is done to the
      tree meanwhile. */
  lemma {:induction false} CopyIsCounted(j: Job, dir: ObjectId, rel: Path, spare: nat, clock: Time, tally: Tally)
    requires CopyDir(j, dir, rel, spare, clock, tally).Some?
    ensures
      var p := CopyDir(j, dir, rel, spare, clock, tally).value;
      p.tally.files == tally.files + Total(p.out, One()) && p.tally.bytes == tally.bytes + Total(p.out, Length())
    decreases spare, 2, 0
  {
    hide CopyEntries, Total;
    EmptyWeighs(One());
    EmptyWeighs(Length());
    var names := j.live.lists(clock, dir).value.names;
    EntriesAreCounted(j, dir, rel, names, spare - 1, Pass(clock + 1, tally, map[]));
  }

  // ------------------------------------------------------------- an unchanging tree

  /** A tree that nobody changes. */
  datatype Still =
    | StillFile(bytes: seq<int>, mode: nat, links: nat)
    | StillFolder(below: map<Name, Still>)
    | StillLink
    | StillSpecial

  /** The object `id` of the world is the root of the tree `s`. */
  ghost predicate Depicts(w: World, id: ObjectId, s: Still)
    decreases s
  {
    id in w && match s
    case StillFile(bytes, mode, links) => w[id] == File(bytes, mode, links)
    case StillFolder(below) =>
      && w[id].Folder? && w[id].entries.Keys == below.Keys
      && forall n | n in below :: Depicts(w, w[id].entries[n], below[n])
    case StillLink => w[id].Link?
    case StillSpecial => w[id].Special?
  }

  /** A folder takes an iterator, and each one below it two handles more; a file
      two handles. */
  ghost predicate Fits(s: Still, spare: nat)
    decreases s
  {
    match s
    case StillFolder(below) => spare > 0 && forall n | n in below :: spare >= 3 && (below[n].StillFolder? ==> Fits(below[n], spare - 3))
    case _ => true
  }

  ghost predicate Enumerates(listing: Option<Listing>, names: set<Name>) {
    && listing.Some? && !listing.value.breaks && (forall n :: n in listing.value.names <==> n in names)
    && forall i, k | 0 <= i < k < |listing.value.names| :: listing.value.names[i] != listing.value.names[k]
  }

  /** Nobody changes anything, no call fails, and a listing gives every name once,
      in whatever order. */
  ghost predicate Quiet(live: Live, w: World) {
    && (forall t :: live.at(t) == w && !live.fails(t))
    && forall t, d | d in w && w[d].Folder? :: Enumerates(live.lists(t, d), w[d].entries.Keys)
  }

  predicate Carried(s: Still) {
    s.StillFile? && s.links <= 1
  }

  predicate Travels(s: Still) {
    s.StillFolder? || Carried(s)
  }

  /** The tree without what is not admitted and what does not travel. */
  function Pruned(s: Still, filter: Path -> bool, rel: Path): Tree
    requires Travels(s)
  {
    match s
    case StillFile(bytes, mode, _) => Leaf(bytes, mode)
    case StillFolder(below) => Branch(map n | n in below && filter(rel + [n]) && Travels(below[n]) :: Pruned(below[n], filter, rel + [n]))
  }

  /** The sum of weights over every admitted entry below a folder. */
  ghost function Count(s: Still, filter: Path -> bool, rel: Path, weigh: Still -> nat): nat {
    match s
    case StillFolder(below) =>
      Sum(map n | n in below && filter(rel + [n]) :: weigh(below[n]) + Count(below[n], filter, rel + [n], weigh))
    case _ => 0
  }

  function Files(s: Still): nat {
    if Carried(s) then 1 else 0
  }

  function HardLinks(s: Still): nat {
    if s.StillFile? && s.links > 1 then 1 else 0
  }

  function Symlinks(s: Still): nat {
    if s.StillLink? then 1 else 0
  }

  function Others(s: Still): nat {
    if s.StillSpecial? then 1 else 0
  }

  function Folders(s: Still): nat {
    if s.StillFolder? then 1 else 0
  }

  function Every(s: Still): nat {
    1
  }

  function Size(s: Still): nat {
    if Carried(s) then |s.bytes| else 0
  }

  /** How many of each kind are admitted. */
  ghost function Census(s: Still, filter: Path -> bool, rel: Path): Tally {
    Tally(Count(s, filter, rel, Files), Count(s, filter, rel, Size), Count(s, filter, rel, Symlinks),
          Count(s, filter, rel, Others), Count(s, filter, rel, HardLinks), 0)
  }

  function Plus(a: Tally, b: Tally): Tally {
    Tally(a.files + b.files, a.bytes + b.bytes, a.symlinks + b.symlinks, a.others + b.others, a.hardLinks + b.hardLinks,
          a.replaced + b.replaced)
  }

  // ------------------------------------------------------------- name by name

  /** What the names `done` contribute. */
  ghost function CountIn(below: map<Name, Still>, filter: Path -> bool, rel: Path, weigh: Still -> nat, done: set<Name>): nat {
    Sum(map n | n in below && n in done && filter(rel + [n]) :: weigh(below[n]) + Count(below[n], filter, rel + [n], weigh))
  }

  function PrunedIn(below: map<Name, Still>, filter: Path -> bool, rel: Path, done: set<Name>): Contents {
    map n | n in below && n in done && filter(rel + [n]) && Travels(below[n]) :: Pruned(below[n], filter, rel + [n])
  }

  ghost function CensusIn(below: map<Name, Still>, filter: Path -> bool, rel: Path, done: set<Name>): Tally {
    Tally(CountIn(below, filter, rel, Files, done), CountIn(below, filter, rel, Size, done),
          CountIn(below, filter, rel, Symlinks, done), CountIn(below, filter, rel, Others, done),
          CountIn(below, filter, rel, HardLinks, done), 0)
  }

  /** What one admitted entry adds. */
  ghost function EntryCensus(s: Still, filter: Path -> bool, rel: Path): Tally {
    match s
    case StillFile(bytes, _, links) => if links > 1 then NO_FILES.(hardLinks := 1) else NO_FILES.(files := 1, bytes := |bytes|)
    case StillFolder(_) => Census(s, filter, rel)
    case StillLink => NO_FILES.(symlinks := 1)
    case StillSpecial => NO_FILES.(others := 1)
  }

  lemma CountWith(below: map<Name, Still>, filter: Path -> bool, rel: Path, weigh: Still -> nat, done: set<Name>, n: Name)
    requires n in below && n !in done
    ensures CountIn(below, filter, rel, weigh, done + {n}) ==
              CountIn(below, filter, rel, weigh, done)
              + if filter(rel + [n]) then weigh(below[n]) + Count(below[n], filter, rel + [n], weigh) else 0
  {
    hide Count, Sum;
    var before := map k | k in below && k in done && filter(rel + [k]) :: weigh(below[k]) + Count(below[k], filter, rel + [k], weigh);
    var after := map k | k in below && k in done + {n} && filter(rel + [k]) :: weigh(below[k]) + Count(below[k], filter, rel + [k], weigh);
    assert CountIn(below, filter, rel, weigh, done) == Sum(before) && CountIn(below, filter, rel, weigh, done + {n}) == Sum(after);
    if filter(rel + [n]) {
      var v := weigh(below[n]) + Count(below[n], filter, rel + [n], weigh);
      assert after == before[n := v];
      SumWith(before, n, v);
    } else {
      assert after == before;
    }
  }

  lemma NothingBelow(s: Still, filter: Path -> bool, rel: Path, weigh: Still -> nat)
    requires !s.StillFolder?
    ensures Count(s, filter, rel, weigh) == 0
  {
  }

  lemma EntryCounted(s: Still, filter: Path -> bool, rel: Path)
    ensures
      var c := EntryCensus(s, filter, rel);
      && c.files == Files(s) + Count(s, filter, rel, Files) && c.bytes == Size(s) + Count(s, filter, rel, Size)
      && c.symlinks == Symlinks(s) + Count(s, filter, rel, Symlinks)
      && c.others == Others(s) + Count(s, filter, rel, Others)
      && c.hardLinks == HardLinks(s) + Count(s, filter, rel, HardLinks) && c.replaced == 0
  {
    hide Count;
    if !s.StillFolder? {
      NothingBelow(s, filter, rel, Files);
      NothingBelow(s, filter, rel, Size);
      NothingBelow(s, filter, rel, Symlinks);
      NothingBelow(s, filter, rel, Others);
      NothingBelow(s, filter, rel, HardLinks);
    }
  }

  lemma CensusWith(below: map<Name, Still>, filter: Path -> bool, rel: Path, done: set<Name>, n: Name)
    requires n in below && n !in done
    ensures CensusIn(below, filter, rel, done + {n}) ==
              Plus(CensusIn(below, filter, rel, done), if filter(rel + [n]) then EntryCensus(below[n], filter, rel + [n]) else NO_FILES)
  {
    hide Count, CountIn, EntryCensus, Files, Size, Symlinks, Others, HardLinks;
    CountWith(below, filter, rel, Files, done, n);
    CountWith(below, filter, rel, Size, done, n);
    CountWith(below, filter, rel, Symlinks, done, n);
    CountWith(below, filter, rel, Others, done, n);
    CountWith(below, filter, rel, HardLinks, done, n);
    EntryCounted(below[n], filter, rel + [n]);
  }

  lemma PrunedWith(below: map<Name, Still>, filter: Path -> bool, rel: Path, done: set<Name>, n: Name)
    requires n in below && n !in done
    ensures
      var before := PrunedIn(below, filter, rel, done);
      PrunedIn(below, filter, rel, done + {n}) ==
        if filter(rel + [n]) && Travels(below[n]) then before[n := Pruned(below[n], filter, rel + [n])] else before
    ensures n !in PrunedIn(below, filter, rel, done)
  {
    hide Pruned, Travels;
  }

  lemma AllDone(below: map<Name, Still>, filter: Path -> bool, rel: Path)
    ensures Census(StillFolder(below), filter, rel) == CensusIn(below, filter, rel, below.Keys)
    ensures Pruned(StillFolder(below), filter, rel) == Branch(PrunedIn(below, filter, rel, below.Keys))
  {
    hide Sum;
    AllCounted(below, filter, rel, Files);
    AllCounted(below, filter, rel, Size);
    AllCounted(below, filter, rel, Symlinks);
    AllCounted(below, filter, rel, Others);
    AllCounted(below, filter, rel, HardLinks);
    hide CountIn, Count;
    assert Pruned(StillFolder(below), filter, rel).below == PrunedIn(below, filter, rel, below.Keys);
  }

  lemma AllCounted(below: map<Name, Still>, filter: Path -> bool, rel: Path, weigh: Still -> nat)
    ensures Count(StillFolder(below), filter, rel, weigh) == CountIn(below, filter, rel, weigh, below.Keys)
  {
    hide Sum;
    var all := map n | n in below && filter(rel + [n]) :: weigh(below[n]) + Count(below[n], filter, rel + [n], weigh);
    var done := map n | n in below && n in below.Keys && filter(rel + [n]) :: weigh(below[n]) + Count(below[n], filter, rel + [n], weigh);
    assert all == done;
    assert Count(StillFolder(below), filter, rel, weigh) == Sum(all);
  }

  lemma NoneDone(below: map<Name, Still>, filter: Path -> bool, rel: Path)
    ensures CensusIn(below, filter, rel, {}) == NO_FILES && PrunedIn(below, filter, rel, {}) == map[]
  {
    hide Count;
    NoneCounted(below, filter, rel, Files);
    NoneCounted(below, filter, rel, Size);
    NoneCounted(below, filter, rel, Symlinks);
    NoneCounted(below, filter, rel, Others);
    NoneCounted(below, filter, rel, HardLinks);
  }

  lemma NoneCounted(below: map<Name, Still>, filter: Path -> bool, rel: Path, weigh: Still -> nat)
    ensures CountIn(below, filter, rel, weigh, {}) == 0
  {
    hide Count;
    var none: set<Name> := {};
    var m := map n | n in below && n in none && filter(rel + [n]) :: weigh(below[n]) + Count(below[n], filter, rel + [n], weigh);
    assert m == map[];
  }

  // ------------------------------------------------------------- the copy of an unchanging tree

  lemma QuietLookup(j: Job, w: World, dir: ObjectId, s: Still, n: Name, t: Time)
    requires Quiet(j.live, w) && Depicts(w, dir, s) && s.StillFolder? && n in s.below
    ensures
      var f := Lstat(j.live, t, dir, n);
      && f.Some? && f == Lookup(j.live.at(t), dir, n) && Depicts(w, f.value.id, s.below[n]) && f.value.what == w[f.value.id]
      && f.value.id == w[dir].entries[n]
  {
  }

  lemma QuietFile(j: Job, w: World, dir: ObjectId, s: Still, rel: Path, n: Name, spare: nat, p: Pass)
    requires Quiet(j.live, w) && Depicts(w, dir, s) && s.StillFolder? && n in s.below && s.below[n].StillFile?
    requires n !in p.out && spare >= 2
    ensures
      var f, r := s.below[n], CopyFile(j, dir, n, w[dir].entries[n], spare, p);
      && r.Some? && r.value.tally == Plus(p.tally, EntryCensus(f, j.filter, rel + [n]))
      && r.value.out == if Travels(f) then p.out[n := Pruned(f, j.filter, rel + [n])] else p.out
  {
    hide Depicts, Quiet;
    QuietLookup(j, w, dir, s, n, p.clock);
    QuietCalls(j, w, p.clock);
    QuietObject(w, w[dir].entries[n], s.below[n]);
  }

  lemma QuietCalls(j: Job, w: World, t: Time)
    requires Quiet(j.live, w)
    ensures forall u | t <= u <= t + 4 :: j.live.at(u) == w && !j.live.fails(u)
  {
  }

  lemma QuietObject(w: World, id: ObjectId, s: Still)
    requires Depicts(w, id, s) && s.StillFile?
    ensures id in w && w[id] == File(s.bytes, s.mode, s.links)
  {
  }

  lemma {:induction false} QuietFolder(j: Job, w: World, dir: ObjectId, s: Still, rel: Path, n: Name, spare: nat, p: Pass)
    requires Quiet(j.live, w) && Depicts(w, dir, s) && s.StillFolder? && n in s.below && s.below[n].StillFolder?
    requires n !in p.out && spare >= 2 && Fits(s.below[n], spare - 2)
    ensures
      var f, r := s.below[n], CopyFolder(j, dir, rel, n, w[dir].entries[n], spare, p);
      && r.Some? && r.value.tally == Plus(p.tally, EntryCensus(f, j.filter, rel + [n]))
      && r.value.out == p.out[n := Pruned(f, j.filter, rel + [n])]
    decreases spare, 0, 0
  {
    hide Depicts, Quiet, CopyDir, Census, Pruned;
    QuietLookup(j, w, dir, s, n, p.clock);
    QuietCalls(j, w, p.clock);
    var id := w[dir].entries[n];
    FolderObject(w, id, s.below[n]);
    CopyIsPruned(j, w, id, s.below[n], rel + [n], spare - 2, p.clock + 4, p.tally);
    var below := CopyDir(j, id, rel + [n], spare - 2, p.clock + 4, p.tally).value.out;
    assert p.out[n := Branch(map[])][n := Branch(below)] == p.out[n := Branch(below)];
  }

  lemma FolderObject(w: World, id: ObjectId, s: Still)
    requires Depicts(w, id, s)
    ensures id in w && (s.StillFolder? <==> w[id].Folder?) && (s.StillFile? <==> w[id].File?)
    ensures (s.StillLink? <==> w[id].Link?) && (s.StillSpecial? <==> w[id].Special?)
    ensures s.StillFolder? ==> w[id].entries.Keys == s.below.Keys
  {
  }

  lemma {:induction false} QuietEntry(j: Job, w: World, dir: ObjectId, s: Still, rel: Path, n: Name, spare: nat, done: set<Name>, p: Pass)
    requires Quiet(j.live, w) && Depicts(w, dir, s) && s.StillFolder? && Fits(s, spare + 1) && n in s.below && n !in done
    requires p.out == PrunedIn(s.below, j.filter, rel, done)
    ensures
      var r := CopyEntry(j, dir, rel, n, spare, p);
      && r.Some? && r.value.out == PrunedIn(s.below, j.filter, rel, done + {n})
      && r.value.tally == Plus(p.tally, if j.filter(rel + [n]) then EntryCensus(s.below[n], j.filter, rel + [n]) else NO_FILES)
    decreases spare, 0, 1
  {
    hide Depicts, Quiet, PrunedIn, Pruned, Census, CopyFile, CopyFolder, CopyDir;
    PrunedWith(s.below, j.filter, rel, done, n);
    if j.filter(rel + [n]) {
      QuietLookup(j, w, dir, s, n, p.clock);
      FolderObject(w, dir, s);
      var f, seen := s.below[n], p.(clock := p.clock + 1);
      FolderObject(w, w[dir].entries[n], f);
      if f.StillFolder? {
        QuietFolder(j, w, dir, s, rel, n, spare, seen);
      } else if f.StillFile? {
        QuietFile(j, w, dir, s, rel, n, spare, seen);
      }
    }
  }

  lemma {:induction false} QuietEntries(j: Job, w: World, dir: ObjectId, s: Still, rel: Path, names: seq<Name>, spare: nat,
    done: set<Name>, p: Pass, tally: Tally)
    requires Quiet(j.live, w) && Depicts(w, dir, s) && s.StillFolder? && Fits(s, spare + 1)
    requires (forall n <- names :: n in s.below && n !in done) && (forall i, k | 0 <= i < k < |names| :: names[i] != names[k])
    requires p.out == PrunedIn(s.below, j.filter, rel, done) && p.tally == Plus(tally, CensusIn(s.below, j.filter, rel, done))
    ensures
      var all, r := done + (set n | n in names), CopyEntries(j, dir, rel, names, spare, p);
      && r.Some? && r.value.out == PrunedIn(s.below, j.filter, rel, all)
      && r.value.tally == Plus(tally, CensusIn(s.below, j.filter, rel, all))
    decreases spare, 1, |names|
  {
    hide Depicts, Quiet, PrunedIn, CensusIn, EntryCensus, CopyEntry, Fits;
    if names == [] {
      assert done + (set n | n in names) == done;
    } else {
      var n := names[0];
      QuietEntry(j, w, dir, s, rel, n, spare, done, p);
      CensusWith(s.below, j.filter, rel, done, n);
      var q := CopyEntry(j, dir, rel, n, spare, p).value;
      assert forall m <- names[1..] :: m in names && m != n;
      QuietEntries(j, w, dir, s, rel, names[1..], spare, done + {n}, q, tally);
      assert done + {n} + (set m | m in names[1..]) == done + (set m | m in names) by {
        assert names == [n] + names[1..];
      }
    }
  }

  /** On a tree that nobody changes, and with enough descriptors for its depth,
      the copy is the tree pruned, and the tally is its census. */
  lemma {:induction false} CopyIsPruned(j: Job, w: World, dir: ObjectId, s: Still, rel: Path, spare: nat, clock: Time, tally: Tally)
    requires Quiet(j.live, w) && Depicts(w, dir, s) && s.StillFolder? && Fits(s, spare)
    ensures
      var r := CopyDir(j, dir, rel, spare, clock, tally);
      && r.Some? && Branch(r.value.out) == Pruned(s, j.filter, rel)
      && r.value.tally == Plus(tally, Census(s, j.filter, rel))
    decreases spare, 2, 0
  {
    hide Depicts, PrunedIn, CensusIn, Census, Pruned, CopyEntries;
    FolderObject(w, dir, s);
    assert spare > 0;
    assert Enumerates(j.live.lists(clock, dir), w[dir].entries.Keys);
    hide Quiet, Fits;
    var names := j.live.lists(clock, dir).value.names;
    NoneDone(s.below, j.filter, rel);
    QuietEntries(j, w, dir, s, rel, names, spare - 1, {}, Pass(clock + 1, tally, map[]), tally);
    assert {} + (set n | n in names) == s.below.Keys;
    AllDone(s.below, j.filter, rel);
  }

  // ------------------------------------------------------------- each entry is exactly one thing

  lemma {:induction false} CountOfBoth(s: Still, filter: Path -> bool, rel: Path, a: Still -> nat, b: Still -> nat, c: Still -> nat)
    requires forall x :: c(x) == a(x) + b(x)
    ensures Count(s, filter, rel, c) == Count(s, filter, rel, a) + Count(s, filter, rel, b)
  {
    if s.StillFolder? {
      var ma := map n | n in s.below && filter(rel + [n]) :: a(s.below[n]) + Count(s.below[n], filter, rel + [n], a);
      var mb := map n | n in s.below && filter(rel + [n]) :: b(s.below[n]) + Count(s.below[n], filter, rel + [n], b);
      var mc := map n | n in s.below && filter(rel + [n]) :: c(s.below[n]) + Count(s.below[n], filter, rel + [n], c);
      forall n | n in mc ensures mc[n] == ma[n] + mb[n] {
        CountOfBoth(s.below[n], filter, rel + [n], a, b, c);
      }
      SumOfBoth(ma, mb, mc);
    }
  }

  /** Every admitted entry is carried, a directory, a symlink, another special
      entry or a hard link, and only one of these. */
  lemma EveryEntryIsOneThing(s: Still, filter: Path -> bool, rel: Path)
    ensures
      var c := Census(s, filter, rel);
      Count(s, filter, rel, Every) ==
        c.files + Count(s, filter, rel, Folders) + c.symlinks + c.others + c.hardLinks
  {
    hide Count;
    var ab: Still -> nat := x => Files(x) + Folders(x);
    var abc: Still -> nat := x => Files(x) + Folders(x) + Symlinks(x);
    var abcd: Still -> nat := x => Files(x) + Folders(x) + Symlinks(x) + Others(x);
    CountOfBoth(s, filter, rel, Files, Folders, ab);
    CountOfBoth(s, filter, rel, ab, Symlinks, abc);
    CountOfBoth(s, filter, rel, abc, Others, abcd);
    CountOfBoth(s, filter, rel, abcd, HardLinks, Every);
  }
}
