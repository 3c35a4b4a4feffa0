/** What a copy of a live tree may carry, whoever changes the tree meanwhile. */
module CopySafety {
  import opened Options
  import opened Filesystem
  import opened LiveTree
  import opened CopyTree

  // ------------------------------------------------------------- where a file comes from

  /** What the bundle side holds at a path. */
  function At(out: Contents, p: Path): Option<Tree>
    decreases |p|
  {
    if p == [] || p[0] !in out then None
    else if |p| == 1 then Some(out[p[0]])
    else match out[p[0]]
      case Leaf(_, _) => None
      case Branch(below) => At(below, p[1..])
  }

  /** One directory that the copy goes through: `copy_tree` with its arguments,
      the time, and the tally so far. */
  datatype Call = Call(dir: ObjectId, rel: Path, spare: nat, clock: Time, tally: Tally)

  function Result(j: Job, c: Call): Option<Pass> {
    CopyDir(j, c.dir, c.rel, c.spare, c.clock, c.tally)
  }

  /** The entries this call is given. */
  function Names(j: Job, c: Call): seq<Name> {
    if j.live.lists(c.clock, c.dir).Some? then j.live.lists(c.clock, c.dir).value.names else []
  }

  /** Where this call is just before it turns to its entry `i`. */
  function Before(j: Job, c: Call, i: nat): Option<Pass>
    requires i <= |Names(j, c)|
  {
    if c.spare == 0 then None else CopyEntries(j, c.dir, c.rel, Names(j, c)[..i], c.spare - 1, Pass(c.clock + 1, c.tally, map[]))
  }

  ghost predicate Turns(j: Job, c: Call, i: nat, name: Name, q: Pass) {
    i < |Names(j, c)| && Names(j, c)[i] == name && Before(j, c, i) == Some(q)
  }

  /** What this call makes of a directory it finds at its entry: the same again, below. */
  function Below(c: Call, name: Name, id: ObjectId, q: Pass): Call {
    Call(id, c.rel + [name], if c.spare < 3 then 0 else c.spare - 3, q.clock + 5, q.tally)
  }

  /** The name leads to that object. */
  ghost predicate Wears(live: Live, dir: ObjectId, name: Name, id: ObjectId, u: Time) {
    var f := Lookup(live.at(u), dir, name);
    f.Some? && f.value.id == id
  }

  /** The object is a file of one name and of this mode. */
  ghost predicate Single(live: Live, id: ObjectId, mode: nat, t: Time) {
    id in live.at(t) && live.at(t)[id].File? && live.at(t)[id].links <= 1 && live.at(t)[id].mode == mode
  }

  ghost predicate Reads(live: Live, id: ObjectId, bytes: seq<int>, u: Time) {
    id in live.at(u) && live.at(u)[id].File? && live.at(u)[id].bytes == bytes
  }

  /** What this call may leave at its entry `p[0]`, having classified it at the
      time `q.clock` as the object `f`: the file itself, opened one call later
      under the same name, found to be a regular file of one name when its handle
      is looked at, and read through that handle; a directory, opened as the
      object that was classified, or an empty one. Below a directory the same
      holds of the call that went through it. */
  ghost predicate Yields(j: Job, c: Call, p: Path, tree: Tree, q: Pass, f: Found, until: Time)
    requires p != []
    decreases |p|, 0, 0
  {
    if |p| == 1 then
      match tree
      case Leaf(bytes, mode) =>
        && f.what.File? && Wears(j.live, c.dir, p[0], f.id, q.clock + 1)
        && Single(j.live, f.id, mode, q.clock + 2) && Reads(j.live, f.id, bytes, q.clock + 4) && q.clock + 5 < until
      case Branch(below) =>
        f.what.Folder? && (below == map[] || Wears(j.live, c.dir, p[0], f.id, q.clock + 1)) && q.clock + 3 < until
    else
      f.what.Folder? && Wears(j.live, c.dir, p[0], f.id, q.clock + 1) && Genuine(j, Below(c, p[0], f.id, q), p[1..], tree, until)
  }

  /** What stands at `p` in the bundle was listed to this call, is admitted by the
      filter, and is what the call's own classification of that entry may yield,
      all of it before `until`. */
  ghost predicate Genuine(j: Job, c: Call, p: Path, tree: Tree, until: Time)
    requires p != []
    decreases |p|, 1
  {
    j.filter(c.rel + [p[0]]) && exists i, q :: Turns(j, c, i, p[0], q) && Classifies(j, c, p, tree, q, until)
  }

  ghost predicate Classifies(j: Job, c: Call, p: Path, tree: Tree, q: Pass, until: Time)
    requires p != []
    decreases |p|, 0, 1
  {
    var f := Lstat(j.live, q.clock, c.dir, p[0]);
    f.Some? && Yields(j, c, p, tree, q, f.value, until)
  }

  ghost predicate AllGenuine(j: Job, c: Call, out: Contents, until: Time) {
    forall p | At(out, p).Some? :: Genuine(j, c, p, At(out, p).value, until)
  }

  lemma {:induction false} Later(j: Job, c: Call, p: Path, tree: Tree, u: Time, v: Time)
    requires p != [] && u <= v && Genuine(j, c, p, tree, u)
    ensures Genuine(j, c, p, tree, v)
    decreases |p|
  {
    hide Turns, Wears, Single, Reads;
    var i, q :| Turns(j, c, i, p[0], q) && Classifies(j, c, p, tree, q, u);
    var f := Lstat(j.live, q.clock, c.dir, p[0]).value;
    assert Yields(j, c, p, tree, q, f, u);
    if |p| > 1 {
      Later(j, Below(c, p[0], f.id, q), p[1..], tree, u, v);
    }
    assert Yields(j, c, p, tree, q, f, v);
    assert Classifies(j, c, p, tree, q, v);
  }

  lemma AllLater(j: Job, c: Call, out: Contents, u: Time, v: Time)
    requires u <= v && AllGenuine(j, c, out, u)
    ensures AllGenuine(j, c, out, v)
  {
    hide Genuine;
    forall p | At(out, p).Some? ensures Genuine(j, c, p, At(out, p).value, v) {
      Later(j, c, p, At(out, p).value, u, v);
    }
  }

  /** An entry is added: what was there stays genuine, and so must be what is new. */
  lemma Added(j: Job, c: Call, out: Contents, name: Name, tree: Tree, until: Time)
    requires AllGenuine(j, c, out, until) && Genuine(j, c, [name], tree, until)
    requires tree.Branch? ==> forall p | At(tree.below, p).Some? :: Genuine(j, c, [name] + p, At(tree.below, p).value, until)
    ensures AllGenuine(j, c, out[name := tree], until)
  {
    hide Genuine;
    var more := out[name := tree];
    forall p | At(more, p).Some? ensures Genuine(j, c, p, At(more, p).value, until) {
      if p[0] != name {
        assert At(more, p) == At(out, p);
      } else if |p| == 1 {
        assert p == [name];
      } else {
        assert At(more, p) == At(tree.below, p[1..]);
        assert p == [name] + p[1..];
      }
    }
  }

  lemma AddedLeaf(j: Job, c: Call, i: nat, name: Name, q: Pass, bytes: seq<int>, mode: nat, until: Time)
    requires Turns(j, c, i, name, q) && AllGenuine(j, c, q.out, until) && j.filter(c.rel + [name])
    requires
      var f := Lstat(j.live, q.clock, c.dir, name);
      && f.Some? && f.value.what.File? && Wears(j.live, c.dir, name, f.value.id, q.clock + 1)
      && Single(j.live, f.value.id, mode, q.clock + 2) && Reads(j.live, f.value.id, bytes, q.clock + 4) && q.clock + 5 < until
    ensures AllGenuine(j, c, q.out[name := Leaf(bytes, mode)], until)
  {
    hide AllGenuine, Turns, Wears, Single, Reads;
    assert Classifies(j, c, [name], Leaf(bytes, mode), q, until);
    Added(j, c, q.out, name, Leaf(bytes, mode), until);
  }

  lemma AddedEmpty(j: Job, c: Call, i: nat, name: Name, q: Pass, until: Time)
    requires Turns(j, c, i, name, q) && AllGenuine(j, c, q.out, until) && j.filter(c.rel + [name])
    requires var f := Lstat(j.live, q.clock, c.dir, name); f.Some? && f.value.what.Folder? && q.clock + 3 < until
    ensures AllGenuine(j, c, q.out[name := Branch(map[])], until)
  {
    hide AllGenuine, Turns, Wears, Single, Reads;
    assert Classifies(j, c, [name], Branch(map[]), q, until);
    Added(j, c, q.out, name, Branch(map[]), until);
  }

  lemma AddedBranch(j: Job, c: Call, i: nat, name: Name, q: Pass, below: Contents, until: Time)
    requires Turns(j, c, i, name, q) && AllGenuine(j, c, q.out, until) && j.filter(c.rel + [name])
    requires
      var f := Lstat(j.live, q.clock, c.dir, name);
      && f.Some? && f.value.what.Folder? && Wears(j.live, c.dir, name, f.value.id, q.clock + 1) && q.clock + 3 < until
      && AllGenuine(j, Below(c, name, f.value.id, q), below, until)
    ensures AllGenuine(j, c, q.out[name := Branch(below)], until)
  {
    hide Turns, Wears, Single, Reads, Below;
    var f := Lstat(j.live, q.clock, c.dir, name).value;
    assert Classifies(j, c, [name], Branch(below), q, until);
    forall p | At(below, p).Some? ensures Genuine(j, c, [name] + p, At(below, p).value, until) {
      var path := [name] + p;
      assert path[1..] == p && path[0] == name;
      assert Genuine(j, Below(c, name, f.id, q), p, At(below, p).value, until);
      assert Classifies(j, c, path, At(below, p).value, q, until);
    }
    Added(j, c, q.out, name, Branch(below), until);
  }

  lemma FileIsGenuine(j: Job, c: Call, i: nat, name: Name, q: Pass)
    requires c.spare > 0 && Turns(j, c, i, name, q) && AllGenuine(j, c, q.out, q.clock) && j.filter(c.rel + [name])
    requires var f := Lstat(j.live, q.clock, c.dir, name); f.Some? && f.value.what.File?
    requires CopyFile(j, c.dir, name, Lstat(j.live, q.clock, c.dir, name).value.id, c.spare - 1, q.(clock := q.clock + 1)).Some?
    ensures
      var r := CopyFile(j, c.dir, name, Lstat(j.live, q.clock, c.dir, name).value.id, c.spare - 1, q.(clock := q.clock + 1)).value;
      q.clock < r.clock && AllGenuine(j, c, r.out, r.clock)
  {
    hide AllGenuine, Turns, Genuine;
    var id := Lstat(j.live, q.clock, c.dir, name).value.id;
    var r := CopyFile(j, c.dir, name, id, c.spare - 1, q.(clock := q.clock + 1)).value;
    AllLater(j, c, q.out, q.clock, r.clock);
    if r.out != q.out {
      assert Wears(j.live, c.dir, name, id, q.clock + 1);
      var mode := Fstat(j.live, q.clock + 2, id).value.mode;
      var bytes := Read(j.live, q.clock + 4, id).value;
      AddedLeaf(j, c, i, name, q, bytes, mode, r.clock);
    }
  }

  lemma {:induction false} FolderIsGenuine(j: Job, c: Call, i: nat, name: Name, q: Pass)
    requires c.spare > 0 && Turns(j, c, i, name, q) && AllGenuine(j, c, q.out, q.clock) && j.filter(c.rel + [name])
    requires var f := Lstat(j.live, q.clock, c.dir, name); f.Some? && f.value.what.Folder?
    requires CopyFolder(j, c.dir, c.rel, name, Lstat(j.live, q.clock, c.dir, name).value.id, c.spare - 1, q.(clock := q.clock + 1)).Some?
    ensures
      var r := CopyFolder(j, c.dir, c.rel, name, Lstat(j.live, q.clock, c.dir, name).value.id, c.spare - 1, q.(clock := q.clock + 1)).value;
      q.clock < r.clock && AllGenuine(j, c, r.out, r.clock)
    decreases c.spare, 0
  {
    hide AllGenuine, Turns, Genuine, CopyDir;
    var id := Lstat(j.live, q.clock, c.dir, name).value.id;
    var r := CopyFolder(j, c.dir, c.rel, name, id, c.spare - 1, q.(clock := q.clock + 1)).value;
    if OpenDir(j.live, q.clock + 1, c.dir, name, c.spare - 1) != Some(id) {
      AllLater(j, c, q.out, q.clock, r.clock);
      AddedEmpty(j, c, i, name, q, r.clock);
    } else {
      var inner := Below(c, name, id, q);
      assert Wears(j.live, c.dir, name, id, q.clock + 1);
      CopyIsGenuine(j, inner);
      var below := Result(j, inner).value;
      AllLater(j, c, q.out, q.clock, r.clock);
      AddedBranch(j, c, i, name, q, below.out, r.clock);
      assert q.out[name := Branch(map[])][name := Branch(below.out)] == q.out[name := Branch(below.out)];
    }
  }

  lemma {:induction false} EntryIsGenuine(j: Job, c: Call, i: nat, name: Name, q: Pass)
    requires c.spare > 0 && Turns(j, c, i, name, q) && AllGenuine(j, c, q.out, q.clock)
    requires CopyEntry(j, c.dir, c.rel, name, c.spare - 1, q).Some?
    ensures
      var r := CopyEntry(j, c.dir, c.rel, name, c.spare - 1, q).value;
      q.clock <= r.clock && AllGenuine(j, c, r.out, r.clock)
    decreases c.spare, 1
  {
    hide AllGenuine, Turns, CopyFile, CopyFolder;
    if j.filter(c.rel + [name]) {
      var found := Lstat(j.live, q.clock, c.dir, name).value;
      AllLater(j, c, q.out, q.clock, q.clock + 1);
      if found.what.Folder? {
        FolderIsGenuine(j, c, i, name, q);
      } else if found.what.File? {
        FileIsGenuine(j, c, i, name, q);
      }
    }
  }

  lemma {:induction false} OneEntryMore(j: Job, dir: ObjectId, rel: Path, names: seq<Name>, n: Name, spare: nat, p: Pass)
    ensures CopyEntries(j, dir, rel, names + [n], spare, p) ==
            match CopyEntries(j, dir, rel, names, spare, p)
            case None => None
            case Some(q) => CopyEntry(j, dir, rel, n, spare, q)
    decreases |names|
  {
    hide CopyEntry;
    var all := names + [n];
    if names == [] {
      assert all[1..] == [];
    } else {
      assert all[1..] == names[1..] + [n];
      var q := CopyEntry(j, dir, rel, names[0], spare, p);
      if q.Some? {
        OneEntryMore(j, dir, rel, names[1..], n, spare, q.value);
      }
    }
  }

  lemma {:induction false} BeforeIsGenuine(j: Job, c: Call, i: nat)
    requires i <= |Names(j, c)| && Before(j, c, i).Some?
    ensures c.clock < Before(j, c, i).value.clock && AllGenuine(j, c, Before(j, c, i).value.out, Before(j, c, i).value.clock)
    decreases c.spare, 2, i
  {
    hide AllGenuine, CopyEntry;
    if i == 0 {
      NothingThere(j, c, c.clock + 1);
    } else {
      var names := Names(j, c);
      assert names[..i] == names[..i-1] + [names[i-1]];
      OneEntryMore(j, c.dir, c.rel, names[..i-1], names[i-1], c.spare - 1, Pass(c.clock + 1, c.tally, map[]));
      BeforeIsGenuine(j, c, i - 1);
      EntryIsGenuine(j, c, i - 1, names[i-1], Before(j, c, i - 1).value);
    }
  }

  lemma NothingThere(j: Job, c: Call, until: Time)
    ensures AllGenuine(j, c, map[], until)
  {
  }

  /** Whatever is done to the tree while it is copied: every file in the bundle is
      the object this copy classified at its path, opened by the next call, a
      regular file of one name when its handle was looked at, read through that
      handle, reached only through directories classified and opened by this copy
      one inside the other, and admitted by the filter at every step; and all of
      it happened between the start of the copy and its end. */
  lemma {:induction false} CopyIsGenuine(j: Job, c: Call)
    requires Result(j, c).Some?
    ensures c.clock < Result(j, c).value.clock && AllGenuine(j, c, Result(j, c).value.out, Result(j, c).value.clock)
    decreases c.spare, 3
  {
    hide CopyEntries, AllGenuine;
    var n := |Names(j, c)|;
    assert Names(j, c)[..n] == Names(j, c);
    BeforeIsGenuine(j, c, n);
  }

  /** The calls that carry a file all lie between the start of the call that lists
      it and `until`, a directory's before those of what is in it. */
  lemma TurnsWithin(j: Job, c: Call, i: nat, name: Name, q: Pass)
    requires Turns(j, c, i, name, q)
    ensures c.clock < q.clock < Below(c, name, 0, q).clock
  {
    BeforeIsGenuine(j, c, i);
  }

  lemma {:induction false} AdmittedAtEveryPrefix(j: Job, c: Call, p: Path, tree: Tree, until: Time, k: nat)
    requires p != [] && Genuine(j, c, p, tree, until) && 0 < k <= |p|
    ensures j.filter(c.rel + p[..k])
    decreases |p|
  {
    hide Turns, Wears, Single, Reads;
    if k == 1 {
      assert p[..1] == [p[0]];
    } else {
      var i, q :| Turns(j, c, i, p[0], q) && Classifies(j, c, p, tree, q, until);
      var f := Lstat(j.live, q.clock, c.dir, p[0]).value;
      assert Yields(j, c, p, tree, q, f, until);
      AdmittedAtEveryPrefix(j, Below(c, p[0], f.id, q), p[1..], tree, until, k - 1);
      assert c.rel + [p[0]] + p[1..][..k-1] == c.rel + p[..k];
    }
  }

  // ------------------------------------------------------------- what leaves no trace

  /** An admitted entry leaves no trace, in the bundle or in the counts, exactly
      when it was classified as a file and what was opened is none. */
  lemma NoTraceMeans(j: Job, dir: ObjectId, rel: Path, name: Name, spare: nat, p: Pass)
    requires j.filter(rel + [name]) && CopyEntry(j, dir, rel, name, spare, p).Some?
    ensures
      var q := CopyEntry(j, dir, rel, name, spare, p).value;
      q.tally == p.tally && q.out == p.out <==>
        && Lstat(j.live, p.clock, dir, name).value.what.File?
        && Fstat(j.live, p.clock + 2, OpenFile(j.live, p.clock + 1, dir, name, spare).value).Some?
        && !Fstat(j.live, p.clock + 2, OpenFile(j.live, p.clock + 1, dir, name, spare).value).value.File?
  {
    hide CopyDir;
    var found := Lstat(j.live, p.clock, dir, name).value;
    if found.what.Folder? {
      assert name !in p.out && name in CopyEntry(j, dir, rel, name, spare, p).value.out;
    }
  }

  const BEFORE: World := map[0 := Folder(map["notes" := 1]), 1 := File([7], 420, 1)]

  /** What is at the name from the second call on. */
  function After(late: Object): World {
    map[0 := Folder(map["notes" := 2]), 2 := late]
  }

  /** A file that is replaced by another object just after it was looked at. */
  function Swapped(late: Object): Job {
    Job(Live(t => if t <= 1 then BEFORE else After(late), (t, d) => Some(Listing(["notes"], false)), t => false), p => true)
  }

  const WHOLE := Call(0, [], 8, 0, NO_FILES)

  lemma SwappedTurns(late: Object, i: nat, q: Pass)
    requires Turns(Swapped(late), WHOLE, i, "notes", q)
    ensures q == Pass(1, NO_FILES, map[])
    ensures Lstat(Swapped(late).live, 1, 0, "notes") == Some(Found(1, File([7], 420, 1)))
    ensures !Wears(Swapped(late).live, 0, "notes", 1, 2)
  {
    assert Names(Swapped(late), WHOLE) == ["notes"];
    assert ["notes"][..0] == [];
    assert Lookup(BEFORE, 0, "notes") == Some(Found(1, File([7], 420, 1)));
    assert Lookup(After(late), 0, "notes") == Some(Found(2, late));
  }

  /** Whatever replaces the file, no bundle in which the name holds bytes is
      genuine: not the object that came, and not the one that went. */
  lemma SwappedIsNotGenuine(late: Object, bytes: seq<int>, mode: nat, until: Time)
    ensures !Genuine(Swapped(late), WHOLE, ["notes"], Leaf(bytes, mode), until)
  {
    var j := Swapped(late);
    if Genuine(j, WHOLE, ["notes"], Leaf(bytes, mode), until) {
      var i, q :| Turns(j, WHOLE, i, "notes", q) && Classifies(j, WHOLE, ["notes"], Leaf(bytes, mode), q, until);
      SwappedTurns(late, i, q);
      assert false;
    }
  }

  /** When a directory replaces it, it is left out and nothing says so. */
  lemma SkippedWithoutCount()
    ensures Result(Swapped(Folder(map[])), WHOLE) == Some(Pass(4, NO_FILES, map[]))
  {
    var j, p := Swapped(Folder(map[])), Pass(1, NO_FILES, map[]);
    assert Lookup(BEFORE, 0, "notes") == Some(Found(1, File([7], 420, 1)));
    assert Lookup(After(Folder(map[])), 0, "notes") == Some(Found(2, Folder(map[])));
    assert CopyEntry(j, 0, [], "notes", 7, p) == Some(Pass(4, NO_FILES, map[]));
    assert ["notes"][1..] == [];
  }
}
