/** Copying the workspace and the skills an agent's bundles admit. */
module SkillBundles {
  import opened Options
  import opened Filesystem
  import opened LiveTree
  import opened CopyTree
  import opened SourceRoot

  const SKILLS_FAMILY := "shared"

  const WORKSPACE_FAMILY := "agents"

  /** One skill bundle: its alias, where it lies, and which skills it admits. */
  datatype Source = Source(alias: Name, relative: seq<Component>, admits: Name -> bool)

  /** The skills of one bundle, under way. */
  datatype Skills = Skills(pass: Pass, count: nat)

  /** A skill through its own handle: kept when a file was carried, removed otherwise. */
  function CopySkillDir(live: Live, handle: ObjectId, name: Name, spare: nat, s: Skills): Option<Skills> {
    var clock, tally := s.pass.clock, s.pass.tally;
    if name in s.pass.out || spare < 2 || live.fails(clock) || live.fails(clock + 1) then None
    else match CopyDir(Job(live, p => true), handle, [name], spare - 2, clock + 2, tally)
      case None => None
      case Some(below) =>
        if below.tally.files > tally.files then
          Some(Skills(Pass(below.clock, below.tally, s.pass.out[name := Branch(below.out)]), s.count + 1))
        else if live.fails(below.clock) then None
        else Some(s.(pass := Pass(below.clock + 1, below.tally, s.pass.out)))
  }

  /** One round of the loop of `copy_skills`. */
  function CopySkill(live: Live, admits: Name -> bool, dir: ObjectId, name: Name, spare: nat, s: Skills): Option<Skills> {
    if !admits(name) then Some(s) else
      match Lstat(live, s.pass.clock, dir, name)
      case None => None
      case Some(found) =>
        var tally := s.pass.tally;
        var clock := s.pass.clock + 1;
        if found.what.Link? then Some(Skills(Pass(clock, tally.(symlinks := tally.symlinks + 1), s.pass.out), s.count))
        else if !found.what.Folder? then Some(Skills(Pass(clock, tally, s.pass.out), s.count))
        else match OpenDir(live, clock, dir, name, spare)
          case None => None
          case Some(handle) =>
            if Fstat(live, clock + 1, handle).None? then None
            else if handle != found.id then
              Some(Skills(Pass(clock + 2, tally.(replaced := tally.replaced + 1), s.pass.out), s.count))
            else CopySkillDir(live, handle, name, spare, Skills(Pass(clock + 2, tally, s.pass.out), s.count))
  }

  function CopySkillNames(live: Live, admits: Name -> bool, dir: ObjectId, names: seq<Name>, spare: nat, s: Skills): Option<Skills>
    decreases |names|
  {
    if names == [] then Some(s) else
      match CopySkill(live, admits, dir, names[0], spare, s)
      case None => None
      case Some(next) => CopySkillNames(live, admits, dir, names[1..], spare, next)
  }

  /** `copy_skills`. */
  function CopySkills(live: Live, admits: Name -> bool, dir: ObjectId, spare: nat, clock: Time, tally: Tally): Option<Skills> {
    if spare == 0 then None else
      match live.lists(clock, dir)
      case None => None
      case Some(listing) =>
        match CopySkillNames(live, admits, dir, listing.names, spare - 1, Skills(Pass(clock + 1, tally, map[]), 0))
        case None => None
        case Some(s) => if listing.breaks then None else Some(s)
  }

  /** The skill bundles under way: what is carried so far, the bundles that were
      counted, those without content, and the roots that were opened. */
  datatype Bundles = Bundles(pass: Pass, count: nat, without: seq<Name>, sources: seq<ObjectId>)

  /** One round of the loop of `copy_skill_bundles`. */
  function CopyBundle(live: Live, install: ObjectId, source: Source, spare: nat, b: Bundles): Option<Bundles> {
    var walked := OpenAnchored(live, install, source.relative, SKILLS_FAMILY, spare, b.pass.clock);
    var clock := walked.clock;
    if walked.root == Some(Nothing) then Some(b.(pass := b.pass.(clock := clock), without := b.without + [source.alias]))
    else if walked.root.None? || !walked.root.value.Opened? then None
    else
      var handle := walked.root.value.handle;
      if Fstat(live, clock, handle).None? || source.alias in b.pass.out || spare < 2 || live.fails(clock + 1) || live.fails(clock + 2) then None
      else
        match CopySkills(live, source.admits, handle, spare - 2, clock + 3, b.pass.tally)
        case None => None
        case Some(s) =>
          var sources := b.sources + [handle];
          if s.count == 0 then
            var left := if live.fails(s.pass.clock) then b.pass.out[source.alias := Branch(s.pass.out)] else b.pass.out;
            Some(Bundles(Pass(s.pass.clock + 1, s.pass.tally, left), b.count, b.without + [source.alias], sources))
          else
            Some(Bundles(Pass(s.pass.clock, s.pass.tally, b.pass.out[source.alias := Branch(s.pass.out)]), b.count + 1, b.without, sources))
  }

  function CopyBundleList(live: Live, install: ObjectId, sources: seq<Source>, spare: nat, b: Bundles): Option<Bundles>
    decreases |sources|
  {
    if sources == [] then Some(b) else
      match CopyBundle(live, install, sources[0], spare, b)
      case None => None
      case Some(next) => CopyBundleList(live, install, sources[1..], spare, next)
  }

  /** Where the workspace of an agent lies: below the install root, or where the
      operator configured it. */
  datatype Place = Anchored(install: ObjectId, relative: seq<Component>) | Configured(parent: ObjectId, name: Option<Name>)

  function OpenWorkspace(live: Live, place: Place, spare: nat, t: Time): Walked {
    match place
    case Anchored(install, relative) => OpenAnchored(live, install, relative, WORKSPACE_FAMILY, spare, t)
    case Configured(parent, name) => OpenConfigured(live, parent, name, spare, t)
  }

  /** The workspace of an export: the directory it was read from, and its copy. */
  datatype Workspace = Failed | Absent(clock: Time) | Taken(source: ObjectId, pass: Pass)

  /** `copy_workspace`. */
  function TakeWorkspace(live: Live, place: Place, filter: Path -> bool, spare: nat, t: Time): Workspace {
    var walked := OpenWorkspace(live, place, spare, t);
    var clock := walked.clock;
    if walked.root == Some(Nothing) then Absent(clock)
    else if walked.root.None? || !walked.root.value.Opened? then Failed
    else
      var handle := walked.root.value.handle;
      if Fstat(live, clock, handle).None? || live.fails(clock + 1) || live.fails(clock + 2) then Failed
      else match CopyDir(Job(live, filter), handle, [], spare, clock + 3, NO_FILES)
        case None => Failed
        case Some(p) => Taken(handle, p)
  }

  // ------------------------------------------------------------- the program

  /** What an export has copied so far, counted up in place. */
  class Exporter {
    const live: Live
    var clock: Time
    var workspace: Tally
    var skills: Tally
    var bundles: nat
    var without: seq<Name>
    var sources: seq<ObjectId>

    constructor (live: Live)
      ensures this.live == live && clock == 0 && workspace == skills == NO_FILES
      ensures bundles == 0 && without == [] && sources == []
    {
      this.live := live;
      clock, workspace, skills := 0, NO_FILES, NO_FILES;
      bundles, without, sources := 0, [], [];
    }

    /** `copy_tree` with the tally of one pass. */
    method CopyInto(j: Job, dir: ObjectId, rel: Path, spare: nat, tally: Tally) returns (r: Option<Pass>)
      requires j.live == live
      modifies this`clock
      ensures r == CopyDir(j, dir, rel, spare, old(clock), tally)
      ensures r.Some? ==> clock == r.value.clock
    {
      hide CopyDir;
      var copier := new Copier(live);
      copier.clock, copier.tally := clock, tally;
      var out := copier.CarryTree(j, dir, rel, spare);
      clock := copier.clock;
      if out.None? {
        return None;
      }
      return Some(Pass(copier.clock, copier.tally, out.value));
    }

    method CarrySkillDir(handle: ObjectId, name: Name, spare: nat, into: Contents, carried: nat)
      returns (ok: bool, out: Contents, count: nat)
      modifies this`clock, this`skills
      ensures
        var s := CopySkillDir(live, handle, name, spare, Skills(Pass(old(clock), old(skills), into), carried));
        (s.Some? <==> ok) && (ok ==> s.value == Skills(Pass(clock, skills, out), count))
    {
      hide CopyDir;
      out, count := into, carried;
      if name in out || spare < 2 || live.fails(clock) || live.fails(clock + 1) {
        return false, out, count;
      }
      clock := clock + 2;
      var before := skills.files;
      var below := CopyInto(Job(live, p => true), handle, [name], spare - 2, skills);
      if below.None? {
        return false, out, count;
      }
      skills := below.value.tally;
      if skills.files > before {
        return true, out[name := Branch(below.value.out)], count + 1;
      }
      if live.fails(clock) {
        return false, out, count;
      }
      clock := clock + 1;
      return true, out, count;
    }

    /** One skill. */
    method CarrySkill(admits: Name -> bool, dir: ObjectId, name: Name, spare: nat, into: Contents, carried: nat)
      returns (ok: bool, out: Contents, count: nat)
      modifies this`clock, this`skills
      ensures
        var s := CopySkill(live, admits, dir, name, spare, Skills(Pass(old(clock), old(skills), into), carried));
        (s.Some? <==> ok) && (ok ==> s.value == Skills(Pass(clock, skills, out), count))
    {
      hide CopySkillDir, Lstat, OpenDir, Fstat;
      out, count := into, carried;
      if !admits(name) {
        return true, out, count;
      }
      var found := Lstat(live, clock, dir, name);
      clock := clock + 1;
      if found.None? {
        return false, out, count;
      }
      if found.value.what.Link? {
        skills := skills.(symlinks := skills.symlinks + 1);
        return true, out, count;
      }
      if !found.value.what.Folder? {
        return true, out, count;
      }
      var child := OpenDir(live, clock, dir, name, spare);
      if child.None? {
        return false, out, count;
      }
      var handle := Fstat(live, clock + 1, child.value);
      clock := clock + 2;
      if handle.None? {
        return false, out, count;
      }
      if child.value != found.value.id {
        skills := skills.(replaced := skills.replaced + 1);
        return true, out, count;
      }
      ok, out, count := CarrySkillDir(child.value, name, spare, out, count);
    }

    /** `copy_skills`. */
    method CopyAdmitted(admits: Name -> bool, dir: ObjectId, spare: nat) returns (ok: bool, out: Contents, count: nat)
      modifies this`clock, this`skills
      ensures
        var s := CopySkills(live, admits, dir, spare, old(clock), old(skills));
        (s.Some? <==> ok) && (ok ==> s.value == Skills(Pass(clock, skills, out), count))
    {
      hide CopySkill;
      out, count := map[], 0;
      if spare == 0 {
        return false, out, count;
      }
      var listing := live.lists(clock, dir);
      clock := clock + 1;
      if listing.None? {
        return false, out, count;
      }
      var names := listing.value.names;
      ghost var start := Skills(Pass(clock, skills, out), count);
      for i := 0 to |names|
        invariant CopySkillNames(live, admits, dir, names, spare - 1, start) ==
                  CopySkillNames(live, admits, dir, names[i..], spare - 1, Skills(Pass(clock, skills, out), count))
      {
        assert names[i..][0] == names[i] && names[i..][1..] == names[i+1..];
        ok, out, count := CarrySkill(admits, dir, names[i], spare - 1, out, count);
        if !ok {
          return;
        }
      }
      ok := !listing.value.breaks;
    }

    /** One skill bundle. */
    method CarryBundle(install: ObjectId, source: Source, spare: nat, into: Contents) returns (ok: bool, out: Contents)
      modifies this
      ensures workspace == old(workspace)
      ensures
        var b := CopyBundle(live, install, source, spare, old(State(into)));
        (b.Some? <==> ok) && (ok ==> b.value == State(out))
    {
      hide CopySkills, OpenAnchored;
      out := into;
      var root, t := OpenAnchoredRoot(live, install, source.relative, SKILLS_FAMILY, spare, clock);
      clock := t;
      if root == Some(Nothing) {
        without := without + [source.alias];
        return true, out;
      }
      if root.None? || !root.value.Opened? {
        return false, out;
      }
      var handle := root.value.handle;
      if Fstat(live, clock, handle).None? || source.alias in out || spare < 2 || live.fails(clock + 1) || live.fails(clock + 2) {
        return false, out;
      }
      sources := sources + [handle];
      clock := clock + 3;
      var carried, skill, count := CopyAdmitted(source.admits, handle, spare - 2);
      if !carried {
        return false, out;
      }
      if count == 0 {
        if live.fails(clock) {
          out := out[source.alias := Branch(skill)];
        }
        clock := clock + 1;
        without := without + [source.alias];
      } else {
        out := out[source.alias := Branch(skill)];
        bundles := bundles + 1;
      }
      return true, out;
    }

    ghost function State(out: Contents): Bundles
      reads this
    {
      Bundles(Pass(clock, skills, out), bundles, without, sources)
    }

    /** `copy_skill_bundles`: the `skills` directory of the bundle, if it gets one. */
    method CopySkillBundles(install: ObjectId, list: seq<Source>, spare: nat) returns (ok: bool, made: Option<Contents>)
      modifies this
      ensures workspace == old(workspace)
      ensures list == [] ==> ok && made == None && State(map[]) == old(State(map[]))
      ensures list != [] && ok ==>
                var b := CopyBundleList(live, install, list, spare, old(State(map[])).(pass := Pass(old(clock) + 2, old(skills), map[])));
                && b.Some? && b.value == State(b.value.pass.out)
                && made == if bundles == 0 && !live.fails(clock) then None else Some(b.value.pass.out)
    {
      hide CopyBundle;
      if list == [] {
        return true, None;
      }
      if live.fails(clock) || live.fails(clock + 1) {
        return false, None;
      }
      clock := clock + 2;
      var out: Contents := map[];
      ghost var start := State(out);
      for i := 0 to |list|
        invariant workspace == old(workspace)
        invariant CopyBundleList(live, install, list, spare, start) == CopyBundleList(live, install, list[i..], spare, State(out))
      {
        assert list[i..][0] == list[i] && list[i..][1..] == list[i+1..];
        ok, out := CarryBundle(install, list[i], spare, out);
        if !ok {
          return false, None;
        }
      }
      if bundles == 0 && !live.fails(clock) {
        return true, None;
      }
      return true, Some(out);
    }

    /** `copy_workspace`: the workspace of the bundle, if it gets one. */
    method CopyWorkspace(place: Place, filter: Path -> bool, spare: nat) returns (ok: bool, made: Option<Contents>)
      modifies this`clock, this`workspace, this`sources
      ensures match TakeWorkspace(live, place, filter, spare, old(clock))
              case Failed => !ok
              case Absent(t) => ok && made == None && clock == t && workspace == NO_FILES && sources == old(sources)
              case Taken(h, p) => ok && made == Some(p.out) && clock == p.clock && workspace == p.tally && sources == old(sources) + [h]
    {
      hide CopyDir, OpenAnchored, OpenConfigured;
      workspace := NO_FILES;
      var root, t := OpenPlace(place, spare);
      clock := t;
      if root == Some(Nothing) {
        return true, None;
      }
      if root.None? || !root.value.Opened? {
        return false, None;
      }
      var handle := root.value.handle;
      if Fstat(live, clock, handle).None? || live.fails(clock + 1) || live.fails(clock + 2) {
        return false, None;
      }
      sources := sources + [handle];
      clock := clock + 3;
      var copied := CopyInto(Job(live, filter), handle, [], spare, NO_FILES);
      if copied.None? {
        return false, None;
      }
      workspace := copied.value.tally;
      return true, Some(copied.value.out);
    }

    method OpenPlace(place: Place, spare: nat) returns (root: Option<Root>, t: Time)
      ensures Walked(root, t) == OpenWorkspace(live, place, spare, clock)
    {
      match place {
        case Anchored(install, relative) =>
          root, t := OpenAnchoredRoot(live, install, relative, WORKSPACE_FAMILY, spare, clock);
        case Configured(parent, name) =>
          root, t := OpenConfiguredRoot(live, parent, name, spare, clock);
      }
    }
  }
}
