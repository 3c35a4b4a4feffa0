/** Copying a live directory into the bundle, entry by entry, through handles. */
module CopyTree {
  import opened Options
  import opened Filesystem
  import opened LiveTree

  datatype Tally = Tally(files: nat, bytes: nat, symlinks: nat, others: nat, hardLinks: nat, replaced: nat)

  const NO_FILES := Tally(0, 0, 0, 0, 0, 0)

  /** What is read, and which entries, named from the root of the copy, are carried. */
  datatype Job = Job(live: Live, filter: Path -> bool)

  /** A copy under way: the time, the counts, and the bundle side of one directory. */
  datatype Pass = Pass(clock: Time, tally: Tally, out: Contents)

  /** An entry classified as a file; nothing when the export is to fail. */
  function CopyFile(j: Job, dir: ObjectId, name: Name, classified: ObjectId, spare: nat, p: Pass): Option<Pass> {
    match OpenFile(j.live, p.clock, dir, name, spare)
    case None => None
    case Some(handle) =>
      match Fstat(j.live, p.clock + 1, handle)
      case None => None
      case Some(what) =>
        var read := p.(clock := p.clock + 2);
        if !what.File? then Some(read)
        else if what.links > 1 then Some(read.(tally := p.tally.(hardLinks := p.tally.hardLinks + 1)))
        else if handle != classified then Some(read.(tally := p.tally.(replaced := p.tally.replaced + 1)))
        else if name in p.out || spare < 2 || j.live.fails(p.clock + 2) || j.live.fails(p.clock + 4) then None
        else match Read(j.live, p.clock + 3, handle)
          case None => None
          case Some(bytes) =>
            Some(Pass(p.clock + 5, p.tally.(files := p.tally.files + 1, bytes := p.tally.bytes + |bytes|),
                      p.out[name := Leaf(bytes, what.mode)]))
  }

  /** An entry classified as a directory. */
  function CopyFolder(j: Job, dir: ObjectId, rel: Path, name: Name, classified: ObjectId, spare: nat, p: Pass): Option<Pass>
    decreases spare, 0, 0
  {
    match OpenDir(j.live, p.clock, dir, name, spare)
    case None => None
    case Some(handle) =>
      if name in p.out || j.live.fails(p.clock + 1) || Fstat(j.live, p.clock + 2, handle).None? then None else
        var made := p.out[name := Branch(map[])];
        if handle != classified then
          Some(Pass(p.clock + 3, p.tally.(replaced := p.tally.replaced + 1), made))
        else if spare < 2 || j.live.fails(p.clock + 3) then None
        else match CopyDir(j, handle, rel + [name], spare - 2, p.clock + 4, p.tally)
          case None => None
          case Some(below) => Some(Pass(below.clock, below.tally, made[name := Branch(below.out)]))
  }

  /** One round of the loop of `copy_tree`. */
  function CopyEntry(j: Job, dir: ObjectId, rel: Path, name: Name, spare: nat, p: Pass): Option<Pass>
    decreases spare, 0, 1
  {
    if !j.filter(rel + [name]) then Some(p) else
      match Lstat(j.live, p.clock, dir, name)
      case None => None
      case Some(found) =>
        var seen := p.(clock := p.clock + 1);
        match found.what
        case Link => Some(seen.(tally := p.tally.(symlinks := p.tally.symlinks + 1)))
        case Special => Some(seen.(tally := p.tally.(others := p.tally.others + 1)))
        case Folder(_) => CopyFolder(j, dir, rel, name, found.id, spare, seen)
        case File(_, _, _) => CopyFile(j, dir, name, found.id, spare, seen)
  }

  function CopyEntries(j: Job, dir: ObjectId, rel: Path, names: seq<Name>, spare: nat, p: Pass): Option<Pass>
    decreases spare, 1, |names|
  {
    if names == [] then Some(p) else
      match CopyEntry(j, dir, rel, names[0], spare, p)
      case None => None
      case Some(q) => CopyEntries(j, dir, rel, names[1..], spare, q)
  }

  /** `copy_tree`: the directory iterator takes a descriptor itself. */
  function CopyDir(j: Job, dir: ObjectId, rel: Path, spare: nat, clock: Time, tally: Tally): Option<Pass>
    decreases spare, 2, 0
  {
    if spare == 0 then None else
      match j.live.lists(clock, dir)
      case None => None
      case Some(listing) =>
        match CopyEntries(j, dir, rel, listing.names, spare - 1, Pass(clock + 1, tally, map[]))
        case None => None
        case Some(p) => if listing.breaks then None else Some(p)
  }

  // ------------------------------------------------------------- the program

  /** The export while it copies: the clock ticks with every system call, and
      the tally of the running pass is counted up in place. */
  class Copier {
    const live: Live
    var clock: Time
    var tally: Tally

    constructor (live: Live)
      ensures this.live == live && clock == 0 && tally == NO_FILES
    {
      this.live := live;
      clock, tally := 0, NO_FILES;
    }

    ghost predicate Is(p: Option<Pass>, r: Option<Contents>)
      reads this
    {
      (p.None? <==> r.None?) && (p.Some? ==> p.value == Pass(clock, tally, r.value))
    }

    /** The branch of `copy_tree` for files. */
    method CarryFile(j: Job, dir: ObjectId, name: Name, classified: ObjectId, spare: nat, into: Contents)
      returns (r: Option<Contents>)
      requires j.live == live
      modifies this
      ensures Is(CopyFile(j, dir, name, classified, spare, Pass(old(clock), old(tally), into)), r)
    {
      var reader := OpenFile(live, clock, dir, name, spare);
      clock := clock + 1;
      if reader.None? {
        return None;
      }
      var handle := Fstat(live, clock, reader.value);
      clock := clock + 1;
      if handle.None? {
        return None;
      }
      if !handle.value.File? {
        return Some(into);
      }
      if handle.value.links > 1 {
        tally := tally.(hardLinks := tally.hardLinks + 1);
        return Some(into);
      }
      if reader.value != classified {
        tally := tally.(replaced := tally.replaced + 1);
        return Some(into);
      }
      if name in into || spare < 2 || live.fails(clock) {
        return None;
      }
      clock := clock + 1;
      var bytes := Read(live, clock, reader.value);
      clock := clock + 1;
      if bytes.None? || live.fails(clock) {
        return None;
      }
      clock := clock + 1;
      tally := tally.(files := tally.files + 1, bytes := tally.bytes + |bytes.value|);
      return Some(into[name := Leaf(bytes.value, handle.value.mode)]);
    }

    /** The branch of `copy_tree` for directories. */
    method CarryFolder(j: Job, dir: ObjectId, rel: Path, name: Name, classified: ObjectId, spare: nat, into: Contents)
      returns (r: Option<Contents>)
      requires j.live == live
      modifies this
      ensures Is(CopyFolder(j, dir, rel, name, classified, spare, Pass(old(clock), old(tally), into)), r)
      decreases spare, 0
    {
      var source := OpenDir(live, clock, dir, name, spare);
      clock := clock + 1;
      if source.None? {
        return None;
      }
      if name in into || live.fails(clock) {
        return None;
      }
      clock := clock + 1;
      var made := into[name := Branch(map[])];
      var handle := Fstat(live, clock, source.value);
      clock := clock + 1;
      if handle.None? {
        return None;
      }
      if source.value != classified {
        tally := tally.(replaced := tally.replaced + 1);
        return Some(made);
      }
      if spare < 2 || live.fails(clock) {
        return None;
      }
      clock := clock + 1;
      var below := CarryTree(j, source.value, rel + [name], spare - 2);
      if below.None? {
        return None;
      }
      return Some(made[name := Branch(below.value)]);
    }

    /** `copy_tree`. */
    method CarryTree(j: Job, dir: ObjectId, rel: Path, spare: nat) returns (r: Option<Contents>)
      requires j.live == live
      modifies this
      ensures Is(CopyDir(j, dir, rel, spare, old(clock), old(tally)), r)
      decreases spare, 1
    {
      hide CopyFile, CopyFolder;
      if spare == 0 {
        return None;
      }
      var listing := live.lists(clock, dir);
      clock := clock + 1;
      if listing.None? {
        return None;
      }
      var names, into: Contents := listing.value.names, map[];
      ghost var start := Pass(clock, tally, into);
      for i := 0 to |names|
        invariant CopyEntries(j, dir, rel, names, spare - 1, start) == CopyEntries(j, dir, rel, names[i..], spare - 1, Pass(clock, tally, into))
      {
        var name := names[i];
        assert names[i..][0] == name && names[i..][1..] == names[i+1..];
        if !j.filter(rel + [name]) {
          continue;
        }
        var found := Lstat(live, clock, dir, name);
        clock := clock + 1;
        if found.None? {
          return None;
        }
        match found.value.what {
          case Link =>
            tally := tally.(symlinks := tally.symlinks + 1);
          case Special =>
            tally := tally.(others := tally.others + 1);
          case Folder(_) =>
            var done := CarryFolder(j, dir, rel, name, found.value.id, spare - 1, into);
            if done.None? {
              return None;
            }
            into := done.value;
          case File(_, _, _) =>
            var done := CarryFile(j, dir, name, found.value.id, spare - 1, into);
            if done.None? {
              return None;
            }
            into := done.value;
        }
      }
      if listing.value.breaks {
        return None;
      }
      return Some(into);
    }
  }
}
