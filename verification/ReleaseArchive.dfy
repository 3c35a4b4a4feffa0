/** Checking a release archive against its manifest, and unpacking it. */
module ReleaseArchive {
  import opened Options
  import Splitting

  type Byte = n: int | 0 <= n < 256

  /** A path below the scratch directory, component by component. */
  type Path = seq<string>

  datatype Record = Record(bytes: nat, digest: string)

  /** The inventory of the evidence manifest. */
  datatype Manifest = Manifest(files: map<string, Record>, main: string, directories: seq<string>)

  /** An entry of the archive: what its type says, what it claims to hold, and
      what reading it gives (nothing when it cannot be read). */
  datatype Entry = Entry(name: string, kind: Kind, size: nat, payload: Option<seq<Byte>>)

  datatype Kind = RegularFile | Directory | OtherKind

  datatype Error =
    | UnsafePath | InvalidFile | MainAbsent | Collision
    | Duplicate | NonRegular
    | MissingFiles | UnexpectedFiles | MissingDirectories | UnexpectedDirectory | SizeDiffers
    | NotEmpty
    | Unwritable | Unreadable | PayloadSizeDiffers | DigestDiffers

  datatype Result<T> = Ok(value: T) | Err(error: Error)

  // ------------------------------------------------------------- names

  function Split(name: string): Path {
    Splitting.Split(name, '/')
  }

  function Join(p: Path): string
    requires p != []
  {
    Splitting.Join(p, '/')
  }

  /** `s.rstrip("/")`. */
  function Trim(s: string): (r: string)
    ensures r <= s
    ensures r != "" ==> r[|r|-1] != '/'
  {
    if s != "" && s[|s|-1] == '/' then Trim(s[..|s|-1]) else s
  }

  /** `member_path`. */
  function MemberPath(name: string): Option<string> {
    if name == "" || name[0] == '/' || exists i :: 0 <= i < |name| && name[i] in "\\:\0" then None
    else
      var normal := Trim(name);
      var parts := Split(normal);
      if exists i :: 0 <= i < |parts| && parts[i] in {"", ".", ".."} then None else Some(normal)
  }

  lemma JoinSplits(s: string)
    ensures Split(s) != [] && Join(Split(s)) == s
  {
    Splitting.JoinSplits(s, '/');
  }

  /** Different member names are different paths. */
  lemma SplitIsInjective(s: string, t: string)
    requires Split(s) == Split(t)
    ensures s == t
  {
    JoinSplits(s);
    JoinSplits(t);
  }

  // ------------------------------------------------------------- what the manifest allows

  /** `q` is a directory above `p`, or `p` itself. */
  predicate Above(q: Path, p: Path) {
    q != [] && q <= p
  }

  function UpTo(p: Path): (r: set<Path>)
    ensures forall q :: q in r <==> Above(q, p)
  {
    var r := set i | 0 < i <= |p| :: p[..i];
    assert forall q :: Above(q, p) ==> 0 < |q| <= |p| && q == p[..|q|];
    r
  }

  /** The directories above a path, the path itself not included. */
  function Parents(p: Path): set<Path> {
    UpTo(p) - {p}
  }

  function AllParents(paths: set<Path>): (r: set<Path>)
    ensures forall q :: q in r <==> exists p <- paths :: q in Parents(p)
  {
    set p, q | p in paths && q in Parents(p) :: q
  }

  ghost predicate AncestorClosed(paths: set<Path>) {
    AllParents(paths) <= paths
  }

  /** The digest is 64 lower-case hexadecimal digits. */
  predicate Sha256Text(d: string) {
    |d| == 64 && forall i | 0 <= i < |d| :: '0' <= d[i] <= '9' || 'a' <= d[i] <= 'f'
  }

  /** What is expected: the record of each file, and the directories allowed. */
  datatype Plan = Plan(files: map<Path, Record>, allowed: set<Path>)

  predicate SafeName(n: string) {
    MemberPath(n) == Some(n)
  }

  function FilesByPath(files: map<string, Record>): map<Path, Record>
    requires forall n <- files :: SafeName(n)
  {
    map p | p in (set n | n in files :: Split(n)) && Join(p) in files :: files[Join(p)]
  }

  function ListedDirectories(directories: seq<string>): set<Path>
    requires forall i | 0 <= i < |directories| :: MemberPath(directories[i]).Some?
  {
    set i | 0 <= i < |directories| :: Split(MemberPath(directories[i]).value)
  }

  /** The part of `read_manifest` that judges the inventory. */
  function ReadManifest(m: Manifest): Result<Plan> {
    if exists n <- m.files :: !SafeName(n) || !Sha256Text(m.files[n].digest) then Err(InvalidFile)
    else if m.main !in m.files then Err(MainAbsent)
    else if exists i :: 0 <= i < |m.directories| && MemberPath(m.directories[i]).None? then Err(UnsafePath)
    else
      var files := FilesByPath(m.files);
      var allowed := ListedDirectories(m.directories) + AllParents(files.Keys);
      if files.Keys * allowed != {} then Err(Collision) else Ok(Plan(files, allowed))
  }

  /** The files of a manifest keep their records under their paths. */
  lemma FilesKeepRecords(m: Manifest, n: string)
    requires ReadManifest(m).Ok? && n in m.files
    ensures Split(n) in ReadManifest(m).value.files && ReadManifest(m).value.files[Split(n)] == m.files[n]
  {
    JoinSplits(n);
  }

  // ------------------------------------------------------------- the members of the archive

  datatype Member = Member(path: Path, directory: bool, size: nat, payload: Option<seq<Byte>>)

  /** One round of `archive_members`. */
  function MemberOf(e: Entry, seen: set<Path>): Result<Member> {
    match MemberPath(e.name)
    case None => Err(UnsafePath)
    case Some(n) =>
      if Split(n) in seen then Err(Duplicate)
      else if e.kind.OtherKind? then Err(NonRegular)
      else Ok(Member(Split(n), e.kind.Directory?, e.size, e.payload))
  }

  function Members(entries: seq<Entry>): Result<seq<Member>> {
    if entries == [] then Ok([]) else
      match Members(entries[..|entries|-1])
      case Err(e) => Err(e)
      case Ok(before) =>
        match MemberOf(entries[|entries|-1], Paths(before))
        case Err(e) => Err(e)
        case Ok(m) => Ok(before + [m])
  }

  function Paths(ms: seq<Member>): set<Path> {
    set m | m in ms :: m.path
  }

  function FilePaths(ms: seq<Member>): set<Path> {
    set m | m in ms && !m.directory :: m.path
  }

  function DirectoryPaths(ms: seq<Member>): set<Path> {
    set m | m in ms && m.directory :: m.path
  }

  /** The directories the archive holds or implies. */
  function ImpliedDirectories(ms: seq<Member>): set<Path> {
    DirectoryPaths(ms) + AllParents(Paths(ms))
  }

  /** What each member is checked for before anything is written. */
  function CheckMember(plan: Plan, m: Member): Option<Error> {
    if m.directory && m.path !in plan.allowed then Some(UnexpectedDirectory)
    else if !m.directory && (m.path !in plan.files || m.size != plan.files[m.path].bytes) then Some(SizeDiffers)
    else None
  }

  function CheckMembers(plan: Plan, ms: seq<Member>): Option<Error> {
    if ms == [] then None
    else if CheckMember(plan, ms[0]).Some? then CheckMember(plan, ms[0])
    else CheckMembers(plan, ms[1..])
  }

  /** Everything `verify` checks before it touches the scratch directory. */
  function Inventory(m: Manifest, entries: seq<Entry>): Result<(Plan, seq<Member>)> {
    match ReadManifest(m)
    case Err(e) => Err(e)
    case Ok(plan) =>
      match Members(entries)
      case Err(e) => Err(e)
      case Ok(ms) =>
        if !(plan.files.Keys <= FilePaths(ms)) then Err(MissingFiles)
        else if !(FilePaths(ms) <= plan.files.Keys) then Err(UnexpectedFiles)
        else if !(plan.allowed <= ImpliedDirectories(ms)) then Err(MissingDirectories)
        else match CheckMembers(plan, ms)
          case Some(e) => Err(e)
          case None => Ok((plan, ms))
  }

  // ------------------------------------------------------------- the unpacked tree

  datatype Node = Folder | File(content: seq<Byte>)

  type Tree = map<Path, Node>

  /** A file member stands where another needs a directory. */
  predicate Clash(a: Member, b: Member) {
    !a.directory && a.path != b.path && Above(a.path, b.path)
  }

  predicate NoClash(ms: seq<Member>) {
    forall i, j | 0 <= i < |ms| && 0 <= j < |ms| :: !Clash(ms[i], ms[j])
  }

  /** What unpacking the members gives. */
  ghost predicate Unpacked(tree: Tree, ms: seq<Member>) {
    && tree.Keys == Paths(ms) + AllParents(Paths(ms))
    && (forall m <- ms | !m.directory :: m.payload.Some? && tree[m.path] == File(m.payload.value))
    && (forall q | q in tree && q !in FilePaths(ms) :: tree[q] == Folder)
  }

  ghost predicate Distinct(ms: seq<Member>) {
    forall i, j | 0 <= i < j < |ms| :: ms[i].path != ms[j].path
  }

  /** The payload of a file is there, as long as recorded, with the recorded digest. */
  ghost predicate Genuine(plan: Plan, digest: seq<Byte> -> string, m: Member) {
    !m.directory ==>
      && m.path in plan.files && m.payload.Some?
      && |m.payload.value| == plan.files[m.path].bytes && digest(m.payload.value) == plan.files[m.path].digest
  }

  // ------------------------------------------------------------- the program

  const CHUNK := 1024 * 1024

  /** The loop over `parents`. */
  method AddParents(into: set<Path>, p: Path) returns (r: set<Path>)
    ensures r == into + Parents(p)
  {
    r := into;
    if p == [] {
      return;
    }
    OneDeeper(p, 0);
    assert Parents(p[..1]) == {};
    for i := 1 to |p|
      invariant r == into + Parents(p[..i])
    {
      r := r + {p[..i]};
      OneDeeper(p, i);
      assert p[..i+1] !in UpTo(p[..i]);
    }
    assert p[..|p|] == p;
  }

  function SplitAll(names: set<string>): set<Path> {
    set n | n in names :: Split(n)
  }

  lemma SplitNone()
    ensures SplitAll({}) == {}
  {
  }

  lemma SplitOneMore(names: set<string>, n: string)
    ensures SplitAll(names + {n}) == SplitAll(names) + {Split(n)}
  {
  }

  lemma {:induction false} FilesAtTheirPaths(files: map<string, Record>)
    requires forall n <- files :: SafeName(n)
    ensures FilesByPath(files).Keys == SplitAll(files.Keys)
  {
    forall n | n in files ensures Join(Split(n)) == n {
      JoinSplits(n);
    }
  }

  /** The loop of `read_manifest` over the recorded files. */
  method FilesAreRecorded(files: map<string, Record>) returns (ok: bool)
    ensures ok <==> forall n <- files :: SafeName(n) && Sha256Text(files[n].digest)
  {
    hide MemberPath, Sha256Text;
    var names := files.Keys;
    while names != {}
      invariant names <= files.Keys
      invariant forall n <- files | n !in names :: SafeName(n) && Sha256Text(files[n].digest)
      decreases |names|
    {
      var n :| n in names;
      if !SafeName(n) || !Sha256Text(files[n].digest) {
        return false;
      }
      names := names - {n};
    }
    return true;
  }

  /** The comprehension of `read_manifest` over the listed directories. */
  method ReadDirectories(directories: seq<string>) returns (r: Option<set<Path>>)
    ensures r.Some? <==> forall i | 0 <= i < |directories| :: MemberPath(directories[i]).Some?
    ensures r.Some? ==> r.value == ListedDirectories(directories)
  {
    hide MemberPath, Split;
    var allowed: set<Path> := {};
    for i := 0 to |directories|
      invariant forall j | 0 <= j < i :: MemberPath(directories[j]).Some?
      invariant allowed == set j | 0 <= j < i :: Split(MemberPath(directories[j]).value)
    {
      var path := MemberPath(directories[i]);
      if path.None? {
        return None;
      }
      allowed := allowed + {Split(path.value)};
    }
    return Some(allowed);
  }

  /** The loop of `read_manifest` over the directories above each file. */
  method AddAllParents(listed: set<Path>, files: map<string, Record>) returns (allowed: set<Path>)
    requires forall n <- files :: SafeName(n)
    ensures allowed == listed + AllParents(FilesByPath(files).Keys)
  {
    hide MemberPath, Split, FilesByPath, Parents, AllParents, SplitAll;
    assert SplitAll({}) == {} by { SplitNone(); }
    allowed := listed;
    ghost var read: set<Path> := {};
    assert AllParents({}) == {} by { NoParentsOfNone(); }
    var names := files.Keys;
    assert files.Keys - names == {};
    while names != {}
      invariant names <= files.Keys
      invariant read == SplitAll(files.Keys - names)
      invariant allowed == listed + AllParents(read)
      decreases |names|
    {
      var n :| n in names;
      allowed := AddParents(allowed, Split(n));
      ParentsOfOneMore(read, Split(n));
      SplitOneMore(files.Keys - names, n);
      assert files.Keys - (names - {n}) == files.Keys - names + {n};
      read := read + {Split(n)};
      names := names - {n};
    }
    assert files.Keys - names == files.Keys;
    FilesAtTheirPaths(files);
    assert read == FilesByPath(files).Keys;
  }

  lemma NoParentsOfNone()
    ensures AllParents({}) == {}
  {
  }

  /** `read_manifest`. */
  method ReadEvidence(m: Manifest) returns (r: Result<Plan>)
    ensures r == ReadManifest(m)
  {
    hide MemberPath, Sha256Text, FilesByPath, Parents, AllParents, Split;
    var recorded := FilesAreRecorded(m.files);
    if !recorded {
      return Err(InvalidFile);
    }
    if m.main !in m.files {
      return Err(MainAbsent);
    }
    var listed := ReadDirectories(m.directories);
    if listed.None? {
      return Err(UnsafePath);
    }
    var allowed := AddAllParents(listed.value, m.files);
    var files := FilesByPath(m.files);
    if files.Keys * allowed != {} {
      return Err(Collision);
    }
    return Ok(Plan(files, allowed));
  }

  lemma ParentsOfOneMore(paths: set<Path>, p: Path)
    ensures AllParents(paths + {p}) == AllParents(paths) + Parents(p)
  {
  }

  /** `archive_members`. */
  method ArchiveMembers(entries: seq<Entry>) returns (r: Result<seq<Member>>)
    ensures r == Members(entries)
  {
    hide MemberPath, Split;
    var seen: set<Path>, members := {}, [];
    for i := 0 to |entries|
      invariant Members(entries[..i]) == Ok(members) && seen == Paths(members)
    {
      assert entries[..i+1][..i] == entries[..i];
      var name := MemberPath(entries[i].name);
      if name.None? {
        FailureStays(entries, i + 1);
        return Err(UnsafePath);
      }
      if Split(name.value) in seen {
        FailureStays(entries, i + 1);
        return Err(Duplicate);
      }
      seen := seen + {Split(name.value)};
      if entries[i].kind.OtherKind? {
        FailureStays(entries, i + 1);
        return Err(NonRegular);
      }
      members := members + [Member(Split(name.value), entries[i].kind.Directory?, entries[i].size, entries[i].payload)];
    }
    assert entries[..|entries|] == entries;
    return Ok(members);
  }

  lemma {:induction false} FailureStays(entries: seq<Entry>, i: nat)
    requires i <= |entries| && Members(entries[..i]).Err?
    ensures Members(entries) == Members(entries[..i])
  {
    if i == |entries| {
      assert entries[..i] == entries;
    } else {
      assert entries[..|entries|-1][..i] == entries[..i];
      FailureStays(entries[..|entries|-1], i);
    }
  }

  /** The directories the archive holds, and those above a member. */
  method ActualDirectories(ms: seq<Member>) returns (r: set<Path>)
    ensures r == ImpliedDirectories(ms)
  {
    hide Parents;
    r := DirectoryPaths(ms);
    for i := 0 to |ms|
      invariant r == DirectoryPaths(ms) + AllParents(Paths(ms[..i]))
    {
      r := AddParents(r, ms[i].path);
      ParentsOfOneMore(Paths(ms[..i]), ms[i].path);
      assert Paths(ms[..i+1]) == Paths(ms[..i]) + {ms[i].path};
    }
    assert ms[..|ms|] == ms;
  }

  /** The last loop before the scratch directory is touched. */
  method FirstBadMember(plan: Plan, ms: seq<Member>) returns (r: Option<Error>)
    ensures r == CheckMembers(plan, ms)
  {
    for i := 0 to |ms|
      invariant CheckMembers(plan, ms) == CheckMembers(plan, ms[i..])
    {
      if CheckMember(plan, ms[i]).Some? {
        return CheckMember(plan, ms[i]);
      }
    }
    return None;
  }

  /** The scratch directory of the caller. */
  class Scratch {
    var tree: Tree

    constructor (tree: Tree)
      ensures this.tree == tree
    {
      this.tree := tree;
    }

    /** `mkdir(parents=True, exist_ok=True)`. */
    method MakeDirs(p: Path) returns (ok: bool)
      modifies this
      ensures ok <==> FreeFor(old(tree), p)
      ensures ok ==> tree == old(tree) + Folders(UpTo(p))
    {
      hide Folders, UpTo, Above;
      ghost var before := tree;
      NothingMade(tree);
      for i := 0 to |p|
        invariant FreeFor(before, p[..i])
        invariant tree == before + Folders(UpTo(p[..i]))
      {
        var q := p[..i+1];
        MadeOneMore(before, p, i);
        if q in tree && tree[q].File? {
          return false;
        }
        tree := tree[q := Folder];
      }
      assert p[..|p|] == p;
      return true;
    }

    /** Open a file for writing and copy the payload into it, a chunk at a time;
        `false` when it is a directory or holds more than `expected`. */
    method CopyPayload(p: Path, payload: seq<Byte>, expected: nat) returns (opens: bool, written: nat)
      modifies this
      ensures opens <==> !(p in old(tree) && old(tree)[p].Folder?)
      ensures opens && written == expected ==> |payload| == expected && tree == old(tree)[p := File(payload)]
      ensures opens && |payload| == expected ==> written == expected
    {
      opens, written := true, 0;
      if p in tree && tree[p].Folder? {
        return false, 0;
      }
      tree := tree[p := File([])];
      while written < |payload|
        invariant written <= |payload| && written <= expected
        invariant tree == old(tree)[p := File(payload[..written])]
      {
        var next := if written + CHUNK <= |payload| then written + CHUNK else |payload|;
        if next > expected {
          return true, next;
        }
        written := next;
        tree := tree[p := File(payload[..written])];
      }
      assert payload[..|payload|] == payload;
    }

    /** The extraction loop: it goes through exactly when no file stands in the
        way of another member and every payload is genuine. */
    method Unpack(plan: Plan, ms: seq<Member>, digest: seq<Byte> -> string) returns (r: Result<()>)
      requires tree == map[] && Distinct(ms)
      requires forall m <- ms :: m.path != [] && (!m.directory ==> m.path in plan.files)
      modifies this
      ensures r.Ok? <==> NoClash(ms) && forall m <- ms :: Genuine(plan, digest, m)
      ensures r.Ok? ==> Unpacked(tree, ms)
    {
      hide Unpacked, NoClash;
      NothingUnpacked();
      for i := 0 to |ms|
        invariant Unpacked(tree, ms[..i]) && NoClash(ms[..i])
        invariant forall m <- ms[..i] :: Genuine(plan, digest, m)
      {
        var m := ms[i];
        ghost var done := ms[..i];
        assert ms[..i+1] == done + [m];
        if !NoClash(done + [m]) {
          ClashStays(ms, i + 1);
        }
        if m.directory {
          DirectoryStep(tree, done, m);
          var made := MakeDirs(m.path);
          if !made {
            return Err(Unwritable);
          }
        } else {
          FileStep(tree, done, m);
          var made := MakeDirs(m.path[..|m.path|-1]);
          if !made {
            return Err(Unwritable);
          }
          if m.payload.None? {
            assert m in ms && !Genuine(plan, digest, m);
            return Err(Unreadable);
          }
          var expected := plan.files[m.path];
          var opens, written := CopyPayload(m.path, m.payload.value, expected.bytes);
          if !opens {
            return Err(Unwritable);
          }
          if written != expected.bytes {
            assert m in ms && !Genuine(plan, digest, m);
            return Err(PayloadSizeDiffers);
          }
          if digest(m.payload.value) != expected.digest {
            assert m in ms && !Genuine(plan, digest, m);
            return Err(DigestDiffers);
          }
        }
      }
      assert ms[..|ms|] == ms;
      return Ok(());
    }

    /** `verify`: nothing is written unless the whole inventory holds and the
        scratch directory is empty. */
    method Verify(m: Manifest, entries: seq<Entry>, digest: seq<Byte> -> string) returns (r: Result<()>)
      modifies this
      ensures Inventory(m, entries).Err? || old(tree) != map[] ==> r.Err? && tree == old(tree)
      ensures r.Ok? <==> old(tree) == map[] && Passes(m, entries, digest)
      ensures r.Ok? ==> Unpacked(tree, Inventory(m, entries).value.1)
    {
      hide ReadManifest, Members, CheckMembers, Unpacked, NoClash;
      var manifest := ReadEvidence(m);
      if manifest.Err? {
        return Err(manifest.error);
      }
      var plan := manifest.value;
      var members := ArchiveMembers(entries);
      if members.Err? {
        return Err(members.error);
      }
      var ms := members.value;
      NothingLeft(plan.files.Keys, FilePaths(ms));
      NothingLeft(FilePaths(ms), plan.files.Keys);
      if plan.files.Keys - FilePaths(ms) != {} {
        return Err(MissingFiles);
      }
      if FilePaths(ms) - plan.files.Keys != {} {
        return Err(UnexpectedFiles);
      }
      var actual := ActualDirectories(ms);
      NothingLeft(plan.allowed, actual);
      if plan.allowed - actual != {} {
        return Err(MissingDirectories);
      }
      var bad := FirstBadMember(plan, ms);
      if bad.Some? {
        return Err(bad.value);
      }
      if tree != map[] {
        return Err(NotEmpty);
      }
      InventoryHolds(m, entries);
      r := Unpack(plan, ms, digest);
    }
  }

  /** What a verdict of PASS rests on. */
  ghost predicate Passes(m: Manifest, entries: seq<Entry>, digest: seq<Byte> -> string) {
    Inventory(m, entries).Ok? &&
    var (plan, ms) := Inventory(m, entries).value;
    NoClash(ms) && forall x <- ms :: Genuine(plan, digest, x)
  }

  lemma NothingLeft(a: set<Path>, b: set<Path>)
    ensures a - b == {} <==> a <= b
  {
    if a - b == {} {
      forall p | p in a ensures p in b {
        assert p !in a - b;
      }
    }
  }

  lemma NothingUnpacked()
    ensures Unpacked(map[], []) && NoClash([])
  {
  }

  lemma ClashStays(ms: seq<Member>, i: nat)
    requires i <= |ms| && !NoClash(ms[..i])
    ensures !NoClash(ms)
  {
  }

  function Folders(s: set<Path>): Tree {
    map q | q in s :: Folder
  }

  lemma OneDeeper(p: Path, i: nat)
    requires i < |p|
    ensures UpTo(p[..i+1]) == UpTo(p[..i]) + {p[..i+1]}
  {
    var q := p[..i+1];
    assert q[..i] == p[..i];
    forall r ensures Above(r, q) <==> Above(r, p[..i]) || r == q {
      if Above(r, q) && |r| <= i {
        assert r == q[..|r|] == p[..i][..|r|];
      }
      if Above(r, p[..i]) {
        assert r == p[..i][..|r|] == q[..|r|];
      }
    }
  }

  lemma NothingMade(tree: Tree)
    ensures UpTo([]) == {} && FreeFor(tree, []) && tree + Folders(UpTo([])) == tree
  {
    assert forall q :: !Above(q, []);
  }

  lemma MadeOneMore(tree: Tree, p: Path, i: nat)
    requires i < |p| && FreeFor(tree, p[..i])
    ensures
      var q, made := p[..i+1], tree + Folders(UpTo(p[..i]));
      && (q in made <==> q in tree) && (q in tree ==> made[q] == tree[q])
      && (q in tree && tree[q].File? ==> !FreeFor(tree, p))
      && (!(q in tree && tree[q].File?) ==> FreeFor(tree, p[..i+1]))
      && made[q := Folder] == tree + Folders(UpTo(p[..i+1]))
  {
    OneDeeper(p, i);
    var q := p[..i+1];
    assert q !in UpTo(p[..i]);
    assert Above(q, p);
    forall r | Above(r, q) && r != q ensures Above(r, p[..i]) {
      assert r in UpTo(q);
    }
  }

  ghost predicate FreeFor(tree: Tree, p: Path) {
    forall q | Above(q, p) && q in tree :: tree[q].Folder?
  }

  lemma OneMore(done: seq<Member>, m: Member)
    ensures Paths(done + [m]) == Paths(done) + {m.path}
    ensures AllParents(Paths(done + [m])) == AllParents(Paths(done)) + Parents(m.path)
    ensures FilePaths(done + [m]) == FilePaths(done) + (if m.directory then {} else {m.path})
    ensures NoClash(done + [m]) <==> NoClash(done) && forall d <- done :: !Clash(d, m) && !Clash(m, d)
  {
    var all := done + [m];
    forall x ensures x in all <==> x in done || x == m {
    }
    if NoClash(all) {
      forall d | d in done ensures !Clash(d, m) && !Clash(m, d) {
        var i :| 0 <= i < |done| && done[i] == d;
        assert all[i] == d && all[|done|] == m;
      }
      assert forall i | 0 <= i < |done| :: all[i] == done[i];
    }
  }

  lemma DirectoryStep(tree: Tree, done: seq<Member>, m: Member)
    requires Unpacked(tree, done) && NoClash(done) && Distinct(done + [m]) && m.directory && m.path != []
    ensures FreeFor(tree, m.path) <==> NoClash(done + [m])
    ensures FreeFor(tree, m.path) ==> Unpacked(tree + Folders(UpTo(m.path)), done + [m])
  {
    hide Unpacked, NoClash, FreeFor, Clash;
    OneMore(done, m);
    NewPath(done, m);
    FreeMeansNoClash(tree, done, m, m.path);
    if FreeFor(tree, m.path) {
      DirectoryUnpacked(tree, done, m);
    }
    DirectoryNeverClashes(m);
  }

  lemma DirectoryNeverClashes(m: Member)
    requires m.directory
    ensures forall d :: !Clash(m, d)
  {
  }

  lemma DirectoryUnpacked(tree: Tree, done: seq<Member>, m: Member)
    requires Unpacked(tree, done) && m.directory && m.path != [] && FreeFor(tree, m.path)
    ensures Unpacked(tree + Folders(UpTo(m.path)), done + [m])
  {
    hide AllParents, Paths, NoClash, Clash;
    OneMore(done, m);
    KeysGrow(tree.Keys, done, m);
    InPaths(done);
    var made := tree + Folders(UpTo(m.path));
    forall d | d in done + [m] && !d.directory ensures d.payload.Some? && made[d.path] == File(d.payload.value) {
      assert d in done && d.path in tree;
    }
  }

  lemma InPaths(ms: seq<Member>)
    ensures forall x <- ms :: x.path in Paths(ms)
  {
  }

  lemma KeysGrow(keys: set<Path>, done: seq<Member>, m: Member)
    requires keys == Paths(done) + AllParents(Paths(done)) && m.path != []
    ensures keys + UpTo(m.path) == Paths(done + [m]) + AllParents(Paths(done + [m]))
  {
    hide Paths, AllParents;
    OneMore(done, m);
    assert Above(m.path, m.path);
  }

  lemma NewPath(done: seq<Member>, m: Member)
    requires Distinct(done + [m])
    ensures forall d <- done :: d.path != m.path
  {
    forall d | d in done ensures d.path != m.path {
      var i :| 0 <= i < |done| && done[i] == d;
      assert (done + [m])[i] == d && (done + [m])[|done|] == m;
    }
  }

  lemma FreeMeansNoClash(tree: Tree, done: seq<Member>, m: Member, p: Path)
    requires Unpacked(tree, done) && (forall d <- done :: d.path != m.path)
    requires forall q :: Above(q, p) ==> Above(q, m.path)
    requires forall q :: Above(q, m.path) && q != m.path ==> Above(q, p)
    ensures FreeFor(tree, p) <==> forall d <- done :: !Clash(d, m)
  {
    if FreeFor(tree, p) {
      forall d | d in done ensures !Clash(d, m) {
      }
    } else {
      var q :| Above(q, p) && q in tree && tree[q].File?;
      var d :| d in done && !d.directory && d.path == q;
      assert Clash(d, m);
    }
  }

  lemma FileStep(tree: Tree, done: seq<Member>, m: Member)
    requires Unpacked(tree, done) && NoClash(done) && Distinct(done + [m]) && !m.directory && m.path != []
    ensures
      var p := m.path[..|m.path|-1];
      var made := tree + Folders(UpTo(p));
      && (FreeFor(tree, p) && !(m.path in made && made[m.path].Folder?) <==> NoClash(done + [m]))
      && (NoClash(done + [m]) && m.payload.Some? ==> Unpacked(made[m.path := File(m.payload.value)], done + [m]))
  {
    hide FreeFor, NoClash, Unpacked, Clash;
    OneMore(done, m);
    NewPath(done, m);
    var p := m.path[..|m.path|-1];
    ParentsUpTo(m.path);
    FreeMeansNoClash(tree, done, m, p);
    BelowMeansClash(tree, done, m);
    assert m.path !in UpTo(p);
    if NoClash(done + [m]) && m.payload.Some? {
      FileUnpacked(tree, done, m);
    }
  }

  lemma ParentsUpTo(path: Path)
    requires path != []
    ensures UpTo(path[..|path|-1]) == Parents(path)
    ensures forall q :: Above(q, path[..|path|-1]) <==> Above(q, path) && q != path
  {
    assert path[..|path|] == path;
    OneDeeper(path, |path| - 1);
    forall q ensures Above(q, path[..|path|-1]) <==> Above(q, path) && q != path {
      assert q in UpTo(path[..|path|-1]) <==> q in UpTo(path) && q != path by {
        assert path !in UpTo(path[..|path|-1]);
      }
    }
  }

  lemma KeysMade(tree: Tree, done: seq<Member>, m: Member)
    requires tree.Keys == Paths(done) + AllParents(Paths(done)) && m.path != [] && m.payload.Some?
    ensures (tree + Folders(Parents(m.path)))[m.path := File(m.payload.value)].Keys == Paths(done + [m]) + AllParents(Paths(done + [m]))
  {
    OneMore(done, m);
  }

  lemma FileUnpacked(tree: Tree, done: seq<Member>, m: Member)
    requires Unpacked(tree, done) && NoClash(done + [m]) && Distinct(done + [m]) && !m.directory && m.path != [] && m.payload.Some?
    ensures Unpacked((tree + Folders(UpTo(m.path[..|m.path|-1])))[m.path := File(m.payload.value)], done + [m])
  {
    hide NoClash, AllParents, Parents, UpTo;
    OneMore(done, m);
    NewPath(done, m);
    ParentsUpTo(m.path);
    BelowMeansClash(tree, done, m);
    var made := (tree + Folders(Parents(m.path)))[m.path := File(m.payload.value)];
    KeysMade(tree, done, m);
    forall d | d in done + [m] && !d.directory ensures d.payload.Some? && made[d.path] == File(d.payload.value) {
      if d != m {
        assert d in done && !Clash(d, m);
        assert d.path !in Parents(m.path);
      }
    }
  }

  lemma BelowMeansClash(tree: Tree, done: seq<Member>, m: Member)
    requires Unpacked(tree, done) && (forall d <- done :: d.path != m.path) && !m.directory && m.path != []
    ensures m.path in tree <==> exists d <- done :: Clash(m, d)
    ensures m.path in tree ==> tree[m.path].Folder?
  {
    if m.path in tree {
      var q :| q in Paths(done) && m.path in Parents(q);
      var d :| d in done && d.path == q;
      assert Clash(m, d);
    }
    if d :| d in done && Clash(m, d) {
      assert m.path in Parents(d.path);
    }
  }

  // ------------------------------------------------------------- what the inventory means

  /** An entry that `archive_members` takes, whatever came before it. */
  predicate Regular(e: Entry) {
    MemberPath(e.name).Some? && !e.kind.OtherKind?
  }

  function PathOf(e: Entry): Path
    requires Regular(e)
  {
    Split(MemberPath(e.name).value)
  }

  function AsMember(e: Entry): Member
    requires Regular(e)
  {
    Member(PathOf(e), e.kind.Directory?, e.size, e.payload)
  }

  ghost predicate AllRegular(entries: seq<Entry>) {
    && (forall e <- entries :: Regular(e))
    && forall i, j | 0 <= i < j < |entries| :: PathOf(entries[i]) != PathOf(entries[j])
  }

  lemma {:induction false} MembersMean(entries: seq<Entry>)
    ensures Members(entries).Ok? <==> AllRegular(entries)
    ensures Members(entries).Ok? ==>
              && |Members(entries).value| == |entries|
              && forall i | 0 <= i < |entries| :: Members(entries).value[i] == AsMember(entries[i])
  {
    hide MemberPath;
    if entries != [] {
      var front, last := entries[..|entries|-1], entries[|entries|-1];
      MembersMean(front);
      assert entries == front + [last];
      if Members(front).Ok? {
        var ms := Members(front).value;
        if Regular(last) {
          SeenMeans(front, ms, PathOf(last));
        } else {
          assert last in entries;
        }
      } else {
        RegularFront(entries);
      }
    }
  }

  lemma SeenMeans(front: seq<Entry>, ms: seq<Member>, p: Path)
    requires AllRegular(front) && |ms| == |front| && forall i | 0 <= i < |front| :: ms[i] == AsMember(front[i])
    ensures p in Paths(ms) <==> exists i :: 0 <= i < |front| && PathOf(front[i]) == p
  {
    hide MemberPath;
    if i :| 0 <= i < |front| && PathOf(front[i]) == p {
      assert ms[i] in ms && ms[i].path == p;
    }
    if p in Paths(ms) {
      var m :| m in ms && m.path == p;
      var i :| 0 <= i < |ms| && ms[i] == m;
      assert PathOf(front[i]) == p;
    }
  }

  lemma RegularFront(entries: seq<Entry>)
    requires entries != []
    ensures AllRegular(entries) ==> AllRegular(entries[..|entries|-1])
  {
    var front := entries[..|entries|-1];
    assert forall i | 0 <= i < |front| :: front[i] == entries[i];
  }

  lemma {:induction false} CheckMembersMean(plan: Plan, ms: seq<Member>)
    ensures CheckMembers(plan, ms).None? <==> forall m <- ms :: CheckMember(plan, m).None?
  {
    if ms != [] {
      CheckMembersMean(plan, ms[1..]);
      assert ms == [ms[0]] + ms[1..];
    }
  }

  lemma InventoryHolds(m: Manifest, entries: seq<Entry>)
    requires Inventory(m, entries).Ok?
    ensures
      var (plan, ms) := Inventory(m, entries).value;
      && Distinct(ms) && Members(entries) == Ok(ms) && ReadManifest(m) == Ok(plan)
      && forall x <- ms :: x.path != [] && CheckMember(plan, x).None? && (!x.directory ==> x.path in plan.files)
  {
    hide ReadManifest, MemberPath;
    var (plan, ms) := Inventory(m, entries).value;
    MembersMean(entries);
    CheckMembersMean(plan, ms);
    forall x | x in ms ensures x.path != [] {
      var i :| 0 <= i < |ms| && ms[i] == x;
      assert x == AsMember(entries[i]);
    }
  }

  /** PASS: the files unpacked are exactly the manifest's, each of the recorded
      length and digest; the directories are those allowed and the ones above
      them, so exactly those allowed when the manifest lists every directory it
      needs; and no file is above another member. */
  lemma PassMeans(m: Manifest, entries: seq<Entry>, digest: seq<Byte> -> string, tree: Tree)
    requires Passes(m, entries, digest) && Unpacked(tree, Inventory(m, entries).value.1)
    ensures
      var plan := Inventory(m, entries).value.0;
      && (forall p :: p in tree && tree[p].File? <==> p in plan.files)
      && (forall p <- plan.files :: |tree[p].content| == plan.files[p].bytes && digest(tree[p].content) == plan.files[p].digest)
      && (forall n <- m.files :: Arrives(tree, Split(n), m.files[n], digest))
      && (forall p :: p in tree && tree[p].Folder? <==> p in plan.allowed + AllParents(plan.allowed))
      && (AncestorClosed(plan.allowed) ==> forall p :: p in tree && tree[p].Folder? <==> p in plan.allowed)
  {
    hide ReadManifest, Members, CheckMembers;
    var (plan, ms) := Inventory(m, entries).value;
    InventoryHolds(m, entries);
    PlanHolds(m);
    FilesMatch(plan, ms, digest, tree);
    FoldersMatch(plan, ms, tree);
    forall n | n in m.files ensures Arrives(tree, Split(n), m.files[n], digest) {
      FilesKeepRecords(m, n);
    }
  }

  /** The file at `p` is as long as recorded and has the recorded digest. */
  predicate Arrives(tree: Tree, p: Path, record: Record, digest: seq<Byte> -> string) {
    p in tree && tree[p].File? && |tree[p].content| == record.bytes && digest(tree[p].content) == record.digest
  }

  lemma FilesMatch(plan: Plan, ms: seq<Member>, digest: seq<Byte> -> string, tree: Tree)
    requires Unpacked(tree, ms) && plan.files.Keys == FilePaths(ms) && forall x <- ms :: Genuine(plan, digest, x)
    ensures forall p :: p in tree && tree[p].File? <==> p in plan.files
    ensures forall p <- plan.files :: |tree[p].content| == plan.files[p].bytes && digest(tree[p].content) == plan.files[p].digest
  {
    forall p | p in plan.files
      ensures p in tree && tree[p].File? && |tree[p].content| == plan.files[p].bytes && digest(tree[p].content) == plan.files[p].digest
    {
      var x :| x in ms && !x.directory && x.path == p;
      assert x.path in Paths(ms);
    }
  }

  lemma FoldersMatch(plan: Plan, ms: seq<Member>, tree: Tree)
    requires Unpacked(tree, ms) && NoClash(ms) && plan.files.Keys == FilePaths(ms)
    requires plan.allowed <= ImpliedDirectories(ms) && AllParents(plan.files.Keys) <= plan.allowed && plan.files.Keys !! plan.allowed
    requires forall x <- ms :: x.directory ==> x.path in plan.allowed
    ensures forall p :: p in tree && tree[p].Folder? <==> p in plan.allowed + AllParents(plan.allowed)
  {
    forall p ensures p in tree && tree[p].Folder? <==> p in plan.allowed + AllParents(plan.allowed) {
      if p in plan.allowed + AllParents(plan.allowed) {
        AllowedIsImplied(plan, ms, p);
        NoFileAbove(plan, ms, p);
      }
      if p in tree && tree[p].Folder? {
        FolderIsAllowed(plan, ms, tree, p);
      }
    }
  }

  lemma AllowedIsImplied(plan: Plan, ms: seq<Member>, p: Path)
    requires plan.allowed <= ImpliedDirectories(ms) && p in plan.allowed + AllParents(plan.allowed)
    ensures p in Paths(ms) + AllParents(Paths(ms))
  {
    if p !in plan.allowed {
      var q :| q in plan.allowed && p in Parents(q);
      var y := MemberBelow(ms, q);
      ParentIsAbove(p, q, y.path);
      assert y.path in Paths(ms);
    }
  }

  lemma FolderIsAllowed(plan: Plan, ms: seq<Member>, tree: Tree, p: Path)
    requires Unpacked(tree, ms) && plan.files.Keys == FilePaths(ms) && AllParents(plan.files.Keys) <= plan.allowed
    requires forall x <- ms :: x.directory ==> x.path in plan.allowed
    requires p in tree && tree[p].Folder?
    ensures p in plan.allowed + AllParents(plan.allowed)
  {
    if p in Paths(ms) {
      var x :| x in ms && x.path == p;
    } else {
      var q :| q in Paths(ms) && p in Parents(q);
      var x :| x in ms && x.path == q;
      if x.directory {
        assert q in plan.allowed;
      } else {
        assert q in plan.files.Keys;
      }
    }
  }

  lemma PlanHolds(m: Manifest)
    requires ReadManifest(m).Ok?
    ensures
      var plan := ReadManifest(m).value;
      AllParents(plan.files.Keys) <= plan.allowed && plan.files.Keys !! plan.allowed
  {
    hide MemberPath, Sha256Text, FilesByPath;
    var plan := ReadManifest(m).value;
    assert forall p :: p in plan.files.Keys && p in plan.allowed ==> p in plan.files.Keys * plan.allowed;
  }

  lemma NoFileAbove(plan: Plan, ms: seq<Member>, p: Path)
    requires NoClash(ms) && plan.allowed <= ImpliedDirectories(ms) && plan.files.Keys == FilePaths(ms) && plan.files.Keys !! plan.allowed
    requires p in plan.allowed + AllParents(plan.allowed)
    ensures p !in FilePaths(ms)
  {
    if p in AllParents(plan.allowed) {
      var q :| q in plan.allowed && p in Parents(q);
      var y := MemberBelow(ms, q);
      ParentIsAbove(p, q, y.path);
      forall x | x in ms && !x.directory ensures x.path != p {
        NeverClash(ms, x, y);
      }
    }
  }

  lemma ParentIsAbove(p: Path, q: Path, y: Path)
    requires p in Parents(q) && Above(q, y)
    ensures p in Parents(y)
  {
    assert Above(p, q) && p == q[..|p|] && q == y[..|q|];
    assert p == y[..|p|];
    assert q[..|q|] == q;
  }

  lemma NeverClash(ms: seq<Member>, x: Member, y: Member)
    requires NoClash(ms) && x in ms && y in ms
    ensures !Clash(x, y)
  {
    var i :| 0 <= i < |ms| && ms[i] == x;
    var j :| 0 <= j < |ms| && ms[j] == y;
  }

  lemma MemberBelow(ms: seq<Member>, q: Path) returns (y: Member)
    requires q in ImpliedDirectories(ms) && q != []
    ensures y in ms && Above(q, y.path)
  {
    if q in DirectoryPaths(ms) {
      y :| y in ms && y.directory && y.path == q;
    } else {
      var r :| r in Paths(ms) && q in Parents(r);
      y :| y in ms && y.path == r;
    }
  }

  /** A manifest that lists every directory above its directories never lets a
      file stand in the way: then PASS depends on the payloads alone. */
  lemma ClosedManifestNeverClashes(m: Manifest, entries: seq<Entry>)
    requires Inventory(m, entries).Ok? && AncestorClosed(Inventory(m, entries).value.0.allowed)
    ensures NoClash(Inventory(m, entries).value.1)
  {
    hide ReadManifest, Members, CheckMembers;
    var (plan, ms) := Inventory(m, entries).value;
    InventoryHolds(m, entries);
    PlanHolds(m);
    forall i, j | 0 <= i < |ms| && 0 <= j < |ms| ensures !Clash(ms[i], ms[j]) {
      ParentsAreAllowed(plan, ms, ms[j]);
      assert ms[i] in ms;
      assert !ms[i].directory ==> ms[i].path in plan.files.Keys;
    }
  }

  lemma ParentsAreAllowed(plan: Plan, ms: seq<Member>, x: Member)
    requires AncestorClosed(plan.allowed) && AllParents(plan.files.Keys) <= plan.allowed
    requires x in ms && if x.directory then x.path in plan.allowed else x.path in plan.files
    ensures Parents(x.path) <= plan.allowed
  {
    forall q | q in Parents(x.path) ensures q in plan.allowed {
      if x.directory {
        assert q in AllParents(plan.allowed);
      } else {
        assert q in AllParents(plan.files.Keys);
      }
    }
  }

  // ------------------------------------------------------------- the order of the members

  lemma {:induction false} TwoPlaces(s: seq<Entry>, e: Entry) returns (i: nat, j: nat)
    requires multiset(s)[e] >= 2
    ensures i < j < |s| && s[i] == e && s[j] == e
  {
    var front, last := s[..|s|-1], s[|s|-1];
    assert s == front + [last];
    if last == e {
      assert e in multiset(front);
      i :| 0 <= i < |front| && front[i] == e;
      j := |front|;
    } else {
      i, j := TwoPlaces(front, e);
    }
  }

  lemma {:induction false} TwoCopies(s: seq<Entry>, i: nat, j: nat)
    requires i < j < |s| && s[i] == s[j]
    ensures multiset(s)[s[i]] >= 2
  {
    var front, last := s[..|s|-1], s[|s|-1];
    assert s == front + [last];
    if j == |s| - 1 {
      assert s[i] == front[i] && front[i] in front;
    } else {
      TwoCopies(front, i, j);
    }
  }

  lemma ReorderedAreRegular(a: seq<Entry>, b: seq<Entry>)
    requires multiset(a) == multiset(b) && AllRegular(a)
    ensures AllRegular(b)
  {
    forall e | e in b ensures e in a {
      assert e in multiset(b);
    }
    forall i, j | 0 <= i < j < |b| ensures PathOf(b[i]) != PathOf(b[j]) {
      if b[i] == b[j] {
        TwoCopies(b, i, j);
        var k, l := TwoPlaces(a, b[i]);
      } else {
        assert b[i] in a && b[j] in a;
        var k :| 0 <= k < |a| && a[k] == b[i];
        var l :| 0 <= l < |a| && a[l] == b[j];
      }
    }
  }

  /** The members are the same, whatever the order of the archive. */
  lemma ReorderedMembers(a: seq<Entry>, b: seq<Entry>)
    requires multiset(a) == multiset(b) && Members(a).Ok? && Members(b).Ok?
    ensures forall x :: x in Members(a).value <==> x in Members(b).value
  {
    MembersMean(a);
    MembersMean(b);
    forall x ensures x in Members(a).value <==> x in Members(b).value {
      if x in Members(a).value {
        MemberFromEntry(a, b, x);
      }
      if x in Members(b).value {
        MemberFromEntry(b, a, x);
      }
    }
  }

  lemma MemberFromEntry(a: seq<Entry>, b: seq<Entry>, x: Member)
    requires multiset(a) == multiset(b) && Members(a).Ok? && Members(b).Ok? && x in Members(a).value
    ensures x in Members(b).value
  {
    MembersMean(a);
    MembersMean(b);
    var i :| 0 <= i < |a| && Members(a).value[i] == x;
    assert a[i] in multiset(a);
    var j :| 0 <= j < |b| && b[j] == a[i];
    assert Members(b).value[j] == x;
  }

  lemma SameMembersSameSets(a: seq<Member>, b: seq<Member>)
    requires forall x :: x in a <==> x in b
    ensures Paths(a) == Paths(b) && FilePaths(a) == FilePaths(b) && DirectoryPaths(a) == DirectoryPaths(b)
    ensures NoClash(a) ==> NoClash(b)
  {
    if NoClash(a) {
      forall i, j | 0 <= i < |b| && 0 <= j < |b| ensures !Clash(b[i], b[j]) {
        NeverClash(a, b[i], b[j]);
      }
    }
  }

  /** The verdict and the unpacked tree do not depend on the order of the members. */
  lemma OrderIsIrrelevant(m: Manifest, a: seq<Entry>, b: seq<Entry>, digest: seq<Byte> -> string)
    requires multiset(a) == multiset(b) && Passes(m, a, digest)
    ensures Passes(m, b, digest)
    ensures forall tree | Unpacked(tree, Inventory(m, a).value.1) :: Unpacked(tree, Inventory(m, b).value.1)
  {
    hide ReadManifest, MemberPath;
    InventoryHolds(m, a);
    MembersMean(a);
    MembersMean(b);
    ReorderedAreRegular(a, b);
    ReorderedMembers(a, b);
    var (plan, before) := Inventory(m, a).value;
    var after := Members(b).value;
    SameMembersSameSets(before, after);
    CheckMembersMean(plan, before);
    CheckMembersMean(plan, after);
    assert Inventory(m, b) == Ok((plan, after));
    forall tree | Unpacked(tree, before) ensures Unpacked(tree, after) {
    }
  }

  /** Two unpacked trees of the same members are the same tree. */
  lemma UnpackedIsUnique(ms: seq<Member>, a: Tree, b: Tree)
    requires Unpacked(a, ms) && Unpacked(b, ms)
    ensures a == b
  {
    forall p | p in a ensures a[p] == b[p] {
      if p in FilePaths(ms) {
        var x :| x in ms && !x.directory && x.path == p;
      }
    }
  }
}
