/** Which packages a change makes the Windows jobs test. */
module WindowsScope {
  import opened Characters
  import opened Options
  import opened Ordering

  const DESKTOP := "zeroclaw-desktop"
  const PLUGIN_HOST := "zeroclaw-plugins"
  const RUNTIME := "zeroclaw-runtime"

  /** The dependents of each package, by name. */
  type Dependents = map<string, set<string>>

  // ------------------------------------------------------------- the closure

  function Direct(rev: Dependents, n: string): set<string> {
    if n in rev then rev[n] else {}
  }

  ghost predicate Chain(rev: Dependents, p: seq<string>) {
    forall i | 0 < i < |p| :: p[i] in Direct(rev, p[i-1])
  }

  /** `n` depends, through any number of packages, on a selected one, or is selected. */
  ghost predicate Affected(rev: Dependents, selected: set<string>, n: string) {
    exists p :: p != [] && p[0] in selected && p[|p|-1] == n && Chain(rev, p)
  }

  ghost function Everything(rev: Dependents, selected: set<string>): set<string> {
    selected + set k, d | k in rev && d in rev[k] :: d
  }

  ghost function Closure(rev: Dependents, selected: set<string>): set<string> {
    set n | n in Everything(rev, selected) && Affected(rev, selected, n) && n != DESKTOP
  }

  lemma AffectedIsKnown(rev: Dependents, selected: set<string>, n: string)
    requires Affected(rev, selected, n)
    ensures n in Everything(rev, selected)
  {
    var p :| p != [] && p[0] in selected && p[|p|-1] == n && Chain(rev, p);
    if |p| > 1 {
      assert p[|p|-1] in Direct(rev, p[|p|-2]);
    }
  }

  lemma AffectedGrows(rev: Dependents, selected: set<string>, n: string, d: string)
    requires Affected(rev, selected, n) && d in Direct(rev, n)
    ensures Affected(rev, selected, d)
  {
    var p :| p != [] && p[0] in selected && p[|p|-1] == n && Chain(rev, p);
    var q := p + [d];
    assert q[0] == p[0] && q[|q|-1] == d;
    forall i | 0 < i < |q| ensures q[i] in Direct(rev, q[i-1]) {
      if i < |p| {
        assert q[i] == p[i] && q[i-1] == p[i-1];
      }
    }
  }

  /** A set closed under dependents that holds the selected packages holds all
      affected ones. */
  lemma {:induction false} ClosedHoldsChain(rev: Dependents, closed: set<string>, p: seq<string>)
    requires p != [] && Chain(rev, p) && p[0] in closed && forall n <- closed :: Direct(rev, n) <= closed
    ensures p[|p|-1] in closed
  {
    if |p| > 1 {
      var q := p[..|p|-1];
      forall i | 0 < i < |q| ensures q[i] in Direct(rev, q[i-1]) {
        assert p[i] in Direct(rev, p[i-1]);
      }
      ClosedHoldsChain(rev, closed, q);
      assert p[|p|-1] in Direct(rev, p[|p|-2]);
    }
  }

  /** `close_over_reverse_dependents`. */
  method CloseOverReverseDependents(selected: set<string>, rev: Dependents) returns (closure: set<string>)
    ensures closure == Closure(rev, selected)
    ensures forall n :: n in closure <==> Affected(rev, selected, n) && n != DESKTOP
  {
    hide Affected, Everything, Direct, Listed, Closure;
    forall n | n in selected ensures Affected(rev, selected, n) && n in Everything(rev, selected) {
      SelectedIsAffected(rev, selected, n);
    }
    closure := selected;
    var pending := Listed(selected);
    while pending != []
      invariant selected <= closure <= Everything(rev, selected)
      invariant forall n <- closure :: Affected(rev, selected, n)
      invariant forall n <- pending :: n in closure
      invariant forall n <- closure :: n in pending || Direct(rev, n) <= closure
      decreases |Everything(rev, selected) - closure|, |pending|
    {
      var package := pending[|pending|-1];
      var rest := pending[..|pending|-1];
      assert forall n <- pending :: n == package || n in rest;
      forall d | d in Direct(rev, package) ensures Affected(rev, selected, d) && d in Everything(rev, selected) {
        AffectedGrows(rev, selected, package, d);
        AffectedIsKnown(rev, selected, d);
      }
      ghost var before := closure;
      closure, pending := AddDependents(rev, package, closure, rest);
      if closure != before {
        Shrinks(Everything(rev, selected), before, closure);
      }
    }
    NothingElseIsAffected(rev, selected, closure);
    closure := closure - {DESKTOP};
  }

  lemma NothingElseIsAffected(rev: Dependents, selected: set<string>, closed: set<string>)
    requires selected <= closed && (forall n <- closed :: Direct(rev, n) <= closed) && forall n <- closed :: Affected(rev, selected, n)
    ensures closed - {DESKTOP} == Closure(rev, selected)
    ensures forall n :: n in closed <==> Affected(rev, selected, n)
  {
    hide Affected, Direct, Everything;
    forall n | Affected(rev, selected, n) ensures n in closed {
      HoldsAffected(rev, selected, closed, n);
    }
    forall n | n in closed ensures n in Everything(rev, selected) {
      AffectedIsKnown(rev, selected, n);
    }
  }

  /** The inner loop: what is not in the closure yet joins it, and waits. */
  method AddDependents(rev: Dependents, package: string, closure: set<string>, pending: seq<string>)
    returns (larger: set<string>, waiting: seq<string>)
    ensures larger == closure + Direct(rev, package)
    ensures forall n :: n in waiting <==> n in pending || n in Direct(rev, package) - closure
    ensures larger == closure ==> waiting == pending
  {
    larger, waiting := closure, pending;
    var todo := Direct(rev, package);
    while todo != {}
      invariant todo <= Direct(rev, package)
      invariant larger + todo == closure + Direct(rev, package)
      invariant forall n :: n in waiting <==> n in pending || n in larger - closure
      invariant closure <= larger && (larger == closure ==> waiting == pending)
      decreases todo
    {
      var dependent :| dependent in todo;
      todo := todo - {dependent};
      if dependent !in larger {
        larger := larger + {dependent};
        waiting := waiting + [dependent];
      }
    }
  }

  lemma SelectedIsAffected(rev: Dependents, selected: set<string>, n: string)
    requires n in selected
    ensures Affected(rev, selected, n) && n in Everything(rev, selected)
  {
    assert [n] != [] && [n][0] in selected && [n][|[n]|-1] == n && Chain(rev, [n]);
  }

  lemma HoldsAffected(rev: Dependents, selected: set<string>, closed: set<string>, n: string)
    requires Affected(rev, selected, n) && selected <= closed && forall m <- closed :: Direct(rev, m) <= closed
    ensures n in closed
  {
    var p :| p != [] && p[0] in selected && p[|p|-1] == n && Chain(rev, p);
    ClosedHoldsChain(rev, closed, p);
  }

  lemma Shrinks(all: set<string>, a: set<string>, b: set<string>)
    requires a <= b <= all && a != b
    ensures |all - b| < |all - a|
  {
    assert all - a == (all - b) + (b - a) && (all - b) !! (b - a);
    assert b - a != {};
  }

  /** `list(s)`. */
  function Listed(s: set<string>): (r: seq<string>)
    ensures forall n :: n in r <==> n in s
  {
    SortedNames(s)
  }

  lemma ClosureGrows(rev: Dependents, a: set<string>, b: set<string>)
    requires a <= b
    ensures Closure(rev, a) <= Closure(rev, b)
  {
    forall n | n in Closure(rev, a) ensures n in Closure(rev, b) {
      var p :| p != [] && p[0] in a && p[|p|-1] == n && Chain(rev, p);
      assert Affected(rev, b, n);
    }
  }

  // ------------------------------------------------------------- paths

  /** `PurePosixPath(path).parts` of a relative path. */
  function Parts(path: string): seq<string>
    decreases |path|
  {
    var i := FindChar(path, '/', 0);
    var head := if path[..i] == "" || path[..i] == "." then [] else [path[..i]];
    if i == |path| then head else head + Parts(path[i+1..])
  }

  function BaseName(path: string): string {
    var parts := Parts(path);
    if parts == [] then "" else parts[|parts|-1]
  }

  /** `PurePosixPath(path).suffix`, from the last dot on, that dot being neither
      the first nor the last character of the name. */
  function Suffix(path: string): string {
    var name := BaseName(path);
    var i := LastDot(name, |name|);
    if 0 < i < |name| - 1 then name[i..] else ""
  }

  function LastDot(name: string, i: nat): nat
    requires i <= |name|
  {
    if i == 0 then 0 else if name[i-1] == '.' then i - 1 else LastDot(name, i - 1)
  }

  function Lower(s: string): string {
    seq(|s|, i requires 0 <= i < |s| => if 'A' <= s[i] <= 'Z' then s[i] - 'A' + 'a' else s[i])
  }

  predicate EndsWith(s: string, p: string) {
    |p| <= |s| && s[|s|-|p|..] == p
  }

  const CONTROL := {".github/workflows/ci.yml", ".github/workflows/windows-tests.yml", "scripts/ci/windows_test_scope.py",
                    "scripts/ci/windows_test_scope.test.sh", "Cargo.toml"}
  const TOOLCHAIN := {"rust-toolchain", "rust-toolchain.toml"}
  const TREES := {"src", "tests", "benches", "examples"}
  const DOC_SUFFIXES := {".md", ".mdx", ".markdown", ".rst"}
  const FEATURE_OWNERS := {"zeroclaw", "zeroclaw-gateway", "zeroclaw-providers"}

  predicate RequiresPluginHost(path: string) {
    || path in CONTROL || path in {"Cargo.lock", "tests/plugin_channel_runtime_e2e.rs"}
    || "crates/zeroclaw-plugins/" <= path || "crates/zeroclaw-runtime/" <= path || "crates/zeroclaw-config/" <= path || "wit/" <= path
    || ".cargo/" <= path || ".github/actions/" <= path
    || ("scripts/ci/plugin_backend_change_filter" <= path && EndsWith(path, ".sh"))
    || BaseName(path) in TOOLCHAIN
  }

  predicate ObviouslyIrrelevant(path: string) {
    var parts := Parts(path);
    var testArea := exists i :: 0 <= i < |parts| && parts[i] in TREES;
    if "docs/" <= path || "web/" <= path then true
    else if ".github/actions/" <= path then false
    else if ".github/" <= path && !(".github/workflows/" <= path) then true
    else if "scripts/" <= path && !("scripts/ci/" <= path) then true
    else if Lower(Suffix(path)) in DOC_SUFFIXES && !testArea then true
    else if "LICENSE" <= BaseName(path) && !testArea then true
    else parts == [".gitignore"]
  }

  // ------------------------------------------------------------- packages

  datatype Package = Package(name: string, root: seq<string>)

  /** The workspace: where a changed path really is, the packages, and who
      depends on whom. */
  datatype Workspace = Workspace(root: seq<string>, resolve: string -> seq<string>, packages: seq<Package>, rev: Dependents)

  /** The packages whose root is above `at`, at that depth. */
  function Above(packages: seq<Package>, at: seq<string>, depth: nat): (r: seq<Package>)
    ensures forall p :: p in r <==> p in packages && p.root <= at && |p.root| == depth
  {
    if packages == [] then [] else
      (if packages[0].root <= at && |packages[0].root| == depth then [packages[0]] else []) + Above(packages[1..], at, depth)
  }

  /** The depth of the deepest root above `at`. */
  function Depth(packages: seq<Package>, at: seq<string>): (r: nat)
    ensures forall p <- packages | p.root <= at :: |p.root| <= r
  {
    if packages == [] then 0 else
      var more := Depth(packages[1..], at);
      if packages[0].root <= at && |packages[0].root| > more then |packages[0].root| else more
  }

  /** `package_for`: the package with the deepest root above the path, none when
      there is none or when two are equally deep. */
  function PackageFor(ws: Workspace, path: string): (r: Option<Package>)
    ensures r.Some? ==> r.value in ws.packages && r.value.root <= ws.resolve(path)
    ensures r.Some? ==> forall p <- ws.packages | p.root <= ws.resolve(path) :: p == r.value || |p.root| < |r.value.root|
  {
    var at := ws.resolve(path);
    var deepest := Above(ws.packages, at, Depth(ws.packages, at));
    if |deepest| == 1 then Some(deepest[0]) else None
  }

  datatype Disposition = Irrelevant | Scoped | Full | Unclassified

  /** `classify_package_path`. */
  function ClassifyPackagePath(ws: Workspace, path: string, package: Package): Disposition {
    var at := ws.resolve(path);
    if package.name == DESKTOP then Irrelevant
    else if !(package.root <= at) then Unclassified
    else
      var rel := at[|package.root|..];
      if rel == ["Cargo.toml"] then Scoped
      else if rel == ["build.rs"] then (if package.root == ws.root then Full else Scoped)
      else if rel != [] && rel[0] in TREES then Scoped
      else if rel != [] && rel[0] == "locales" then (if package.root == ws.root then Full else Scoped)
      else Unclassified
  }

  // ------------------------------------------------------------- the selector

  /** What one path asks for. */
  datatype Demand = Nothing | Lockfile | TestAll | Test(package: string)

  function DemandOf(ws: Workspace, path: string): Demand {
    if path == "Cargo.lock" then Lockfile
    else if path in CONTROL || ".github/actions/" <= path || "wit/" <= path || path == ".cargo" || ".cargo/" <= path then TestAll
    else if path == ".github/workflows/pr-size-labeler.yml" then Nothing
    else if ".github/workflows/" <= path || "scripts/ci/" <= path then TestAll
    else if BaseName(path) in TOOLCHAIN then TestAll
    else if "crates/zeroclaw-plugins/tests/fixtures/" <= path then TestAll
    else if ObviouslyIrrelevant(path) then Nothing
    else match PackageFor(ws, path)
      case None => TestAll
      case Some(package) =>
        match ClassifyPackagePath(ws, path, package)
        case Irrelevant => Nothing
        case Scoped => Test(package.name)
        case _ => TestAll
  }

  datatype Mode = Skip | Partial | All

  datatype Selection = Selection(mode: Mode, packages: seq<string>, needsPluginHost: bool)

  predicate WantsAll(ws: Workspace, paths: set<string>) {
    exists p <- paths :: DemandOf(ws, p).TestAll? || DemandOf(ws, p).Lockfile?
  }

  function Tested(ws: Workspace, paths: set<string>): set<string> {
    set p | p in paths && DemandOf(ws, p).Test? :: DemandOf(ws, p).package
  }

  function ModeOf(ws: Workspace, paths: set<string>): Mode {
    if WantsAll(ws, paths) then All else if Tested(ws, paths) == {} then Skip else Partial
  }

  /** The packages tested when the mode is partial. */
  ghost function PackagesOf(ws: Workspace, paths: set<string>): set<string> {
    if ModeOf(ws, paths).Partial? then Closure(ws.rev, Tested(ws, paths)) else {}
  }

  function PathSet(paths: seq<string>): set<string> {
    set p | p in paths
  }

  /** `select_pull_request`. The answer is told by the set of the paths alone. */
  method SelectPullRequest(ws: Workspace, paths: seq<string>) returns (s: Selection)
    ensures s.mode == ModeOf(ws, PathSet(paths))
    ensures PathSet(s.packages) == PackagesOf(ws, PathSet(paths))
    ensures s.needsPluginHost <==>
              || (exists p <- paths :: RequiresPluginHost(p))
              || (s.mode.Partial? && (Tested(ws, PathSet(paths)) * FEATURE_OWNERS != {} || PLUGIN_HOST in s.packages))
  {
    hide DemandOf, RequiresPluginHost, Closure, Tested, WantsAll;
    NothingTested(ws);
    if paths == [] {
      return Selection(Skip, [], false);
    }
    var host := exists p <- paths :: RequiresPluginHost(p);
    var selected: set<string> := {};
    var lockfile := false;
    for i := 0 to |paths|
      invariant lockfile <==> WantsAll(ws, PathSet(paths[..i]))
      invariant selected == Tested(ws, PathSet(paths[..i]))
    {
      assert paths[..i+1] == paths[..i] + [paths[i]];
      OnePathMore(ws, paths[..i], paths[i]);
      match DemandOf(ws, paths[i]) {
        case Lockfile =>
          lockfile := true;
        case TestAll =>
          MorePathsWantAll(ws, PathSet(paths[..i+1]), PathSet(paths));
          return Selection(All, [], host);
        case Nothing =>
        case Test(package) =>
          selected := selected + {package};
      }
    }
    assert paths[..|paths|] == paths;
    if lockfile {
      return Selection(All, [], host);
    }
    if selected == {} {
      return Selection(Skip, [], host);
    }
    host := host || selected * FEATURE_OWNERS != {};
    var closure := CloseOverReverseDependents(selected, ws.rev);
    return Selection(Partial, SortedNames(closure), host || PLUGIN_HOST in closure);
  }

  lemma NothingTested(ws: Workspace)
    ensures Tested(ws, PathSet([])) == {} && !WantsAll(ws, PathSet([]))
  {
  }

  lemma MorePathsWantAll(ws: Workspace, a: set<string>, b: set<string>)
    requires a <= b && WantsAll(ws, a)
    ensures WantsAll(ws, b)
  {
  }

  lemma OnePathMore(ws: Workspace, paths: seq<string>, path: string)
    ensures Tested(ws, PathSet(paths + [path])) ==
            Tested(ws, PathSet(paths)) + (match DemandOf(ws, path) case Test(package) => {package} case _ => {})
    ensures WantsAll(ws, PathSet(paths + [path])) <==>
            WantsAll(ws, PathSet(paths)) || DemandOf(ws, path).TestAll? || DemandOf(ws, path).Lockfile?
  {
    hide DemandOf;
    assert PathSet(paths + [path]) == PathSet(paths) + {path};
  }

  function Rank(m: Mode): nat {
    match m case Skip => 0 case Partial => 1 case All => 2
  }

  /** More changed paths never narrow what is tested. */
  lemma SelectionIsMonotone(ws: Workspace, a: set<string>, b: set<string>)
    requires a <= b
    ensures Rank(ModeOf(ws, a)) <= Rank(ModeOf(ws, b))
    ensures !ModeOf(ws, b).All? ==> PackagesOf(ws, a) <= PackagesOf(ws, b)
  {
    hide DemandOf;
    assert Tested(ws, a) <= Tested(ws, b);
    ClosureGrows(ws.rev, Tested(ws, a), Tested(ws, b));
  }

  // ------------------------------------------------------------- what a path demands

  /** No rule on the path alone speaks of it. */
  predicate Ordinary(path: string) {
    && path != "Cargo.lock" && path !in CONTROL && BaseName(path) !in TOOLCHAIN && path != ".cargo" && !ObviouslyIrrelevant(path)
    && !(".github/" <= path) && !("wit/" <= path) && !(".cargo/" <= path) && !("scripts/" <= path)
    && !("crates/zeroclaw-plugins/tests/fixtures/" <= path)
  }

  /** The package lies above the path, and every other one that does lies higher. */
  ghost predicate Owns(ws: Workspace, p: Package, path: string) {
    && p in ws.packages && p.root <= ws.resolve(path)
    && forall q <- ws.packages | q != p && q.root <= ws.resolve(path) :: |q.root| < |p.root|
  }

  lemma {:induction false} OnlyOne(packages: seq<Package>, at: seq<string>, depth: nat, p: Package)
    requires NoRepeats(packages) && forall q <- packages | q.root <= at && |q.root| == depth :: q == p
    ensures Above(packages, at, depth) == if p in packages && p.root <= at && |p.root| == depth then [p] else []
  {
    if packages != [] {
      assert forall q <- packages[1..] :: q in packages;
      assert packages == [packages[0]] + packages[1..];
      OnlyOne(packages[1..], at, depth, p);
      FirstIsOnce(packages);
    }
  }

  lemma FirstIsOnce(packages: seq<Package>)
    requires packages != [] && NoRepeats(packages)
    ensures packages[0] !in packages[1..] && NoRepeats(packages[1..])
  {
    forall i | 0 <= i < |packages| - 1 ensures packages[1..][i] != packages[0] {
      assert packages[1..][i] == packages[i+1];
    }
  }

  lemma {:induction false} DepthIs(packages: seq<Package>, at: seq<string>, p: Package)
    requires p in packages && p.root <= at && forall q <- packages | q.root <= at :: |q.root| <= |p.root|
    ensures Depth(packages, at) == |p.root|
  {
    DepthReached(packages, at);
    if Depth(packages, at) > 0 {
      var q :| q in packages && q.root <= at && |q.root| == Depth(packages, at);
    }
  }

  lemma {:induction false} DepthReached(packages: seq<Package>, at: seq<string>)
    ensures Depth(packages, at) > 0 ==> exists q :: q in packages && q.root <= at && |q.root| == Depth(packages, at)
  {
    if packages != [] {
      DepthReached(packages[1..], at);
      if packages[0].root <= at && |packages[0].root| > Depth(packages[1..], at) {
        assert packages[0] in packages;
      } else if Depth(packages, at) > 0 {
        var q :| q in packages[1..] && q.root <= at && |q.root| == Depth(packages[1..], at);
        assert q in packages;
      }
    }
  }

  /** The owner of a path is found exactly when there is one. */
  lemma PackageForMeans(ws: Workspace, path: string, p: Package)
    requires NoRepeats(ws.packages)
    ensures PackageFor(ws, path) == Some(p) <==> Owns(ws, p, path)
  {
    if Owns(ws, p, path) {
      var at := ws.resolve(path);
      DepthIs(ws.packages, at, p);
      OnlyOne(ws.packages, at, |p.root|, p);
    }
  }

  /** The path, from the package's root on. */
  function Behind(ws: Workspace, p: Package, path: string): seq<string> {
    if p.root <= ws.resolve(path) then ws.resolve(path)[|p.root|..] else []
  }

  /** The path is a source, an input of the build, or a text of the package. */
  predicate Builds(ws: Workspace, p: Package, rel: seq<string>) {
    || rel == ["Cargo.toml"] || (rel != [] && rel[0] in TREES)
    || (p.root != ws.root && (rel == ["build.rs"] || (rel != [] && rel[0] == "locales")))
  }

  /** What a path demands that no rule on its name speaks of: with no owner,
      everything; owned by the desktop package, nothing; its owner, when it lies in a
      source tree or is a manifest, or below the root of the workspace a build script
      or a text; anything else, everything. */
  lemma OrdinaryDemands(ws: Workspace, path: string)
    requires NoRepeats(ws.packages) && Ordinary(path)
    ensures (forall p :: !Owns(ws, p, path)) ==> DemandOf(ws, path) == TestAll
    ensures forall p :: Owns(ws, p, path) ==>
      DemandOf(ws, path) ==
        if p.name == DESKTOP then Nothing
        else if Builds(ws, p, Behind(ws, p, path)) then Test(p.name)
        else TestAll
  {
    hide ObviouslyIrrelevant, BaseName, PackageFor, Owns;
    PrefixesAreWider(path);
    if PackageFor(ws, path).Some? {
      var q := PackageFor(ws, path).value;
      PackageForMeans(ws, path, q);
    }
    forall p | Owns(ws, p, path)
      ensures DemandOf(ws, path) ==
        if p.name == DESKTOP then Nothing
        else if Builds(ws, p, Behind(ws, p, path)) then Test(p.name)
        else TestAll
    {
      PackageForMeans(ws, path, p);
      OwnerIsAbove(ws, p, path);
    }
  }

  lemma OwnerIsAbove(ws: Workspace, p: Package, path: string)
    requires Owns(ws, p, path)
    ensures p.root <= ws.resolve(path)
  {
  }

  lemma PrefixesAreWider(path: string)
    ensures ".github/actions/" <= path ==> ".github/" <= path
    ensures ".github/workflows/" <= path || path == ".github/workflows/pr-size-labeler.yml" ==> ".github/" <= path
    ensures "scripts/ci/" <= path ==> "scripts/" <= path
  {
    assert ".github/" == ".github/actions/"[..8] == ".github/workflows/"[..8] == ".github/workflows/pr-size-labeler.yml"[..8];
    assert "scripts/" == "scripts/ci/"[..8];
    if ".github/actions/" <= path {
      assert path[..8] == path[..16][..8];
    }
    if ".github/workflows/" <= path {
      assert path[..8] == path[..18][..8];
    }
    if "scripts/ci/" <= path {
      assert path[..8] == path[..11][..8];
    }
  }

  /** So a change to a source of a package has that package tested, and a path that
      no package owns has everything tested, whatever else changes. */
  lemma SourcesAreTested(ws: Workspace, paths: set<string>, path: string)
    requires NoRepeats(ws.packages) && Ordinary(path) && path in paths
    ensures (forall p :: !Owns(ws, p, path)) ==> ModeOf(ws, paths).All?
    ensures forall p :: Owns(ws, p, path) && p.name != DESKTOP && Builds(ws, p, Behind(ws, p, path)) ==>
              p.name in Tested(ws, paths) && (ModeOf(ws, paths).All? || p.name in PackagesOf(ws, paths))
  {
    hide DemandOf, Owns, Builds, Ordinary, Closure;
    OrdinaryDemands(ws, path);
    forall p | Owns(ws, p, path) && p.name != DESKTOP && Builds(ws, p, Behind(ws, p, path))
      ensures p.name in Tested(ws, paths) && (ModeOf(ws, paths).All? || p.name in PackagesOf(ws, paths))
    {
      assert DemandOf(ws, path) == Test(p.name);
      assert p.name in Tested(ws, paths);
      SelectedStays(ws.rev, Tested(ws, paths), p.name);
    }
  }

  lemma SelectedStays(rev: Dependents, selected: set<string>, n: string)
    requires n in selected && n != DESKTOP
    ensures n in Closure(rev, selected)
  {
    SelectedIsAffected(rev, selected, n);
  }

  // ------------------------------------------------------------- the required jobs

  datatype Jobs = Jobs(root: bool, voiceWake: bool, recovery: bool, service: bool)

  const RUN_ALL := Jobs(true, true, true, true)
  const OWNERS := {"zeroclaw", "zeroclaw-channels", "zeroclaw-runtime", "zeroclaw-config", "zeroclaw-spawn"}

  predicate BuildInput(path: string) {
    BaseName(path) in {"Cargo.toml", "build.rs"}
  }

  predicate RecoveryPath(path: string) {
    path == "crates/zeroclaw-runtime/src/lib.rs" || "crates/zeroclaw-runtime/src/control_plane/" <= path
  }

  predicate ServicePath(path: string) {
    || path in {"crates/zeroclaw-runtime/src/lib.rs", "crates/zeroclaw-runtime/examples/windows_service_smoke_fixture.rs"}
    || "crates/zeroclaw-runtime/src/service/" <= path
  }

  /** A build input whose package the runtime depends on. */
  ghost predicate ReachesRuntime(ws: Workspace, path: string) {
    BuildInput(path) && PackageFor(ws, path).Some? && RUNTIME in Closure(ws.rev, {PackageFor(ws, path).value.name})
  }

  ghost function JobsOf(ws: Workspace, paths: set<string>): Jobs {
    if paths == {} || !(OWNERS <= ws.rev.Keys) || ModeOf(ws, paths).All? || (exists p <- paths :: BuildInput(p) && PackageFor(ws, p).None?) then RUN_ALL
    else
      var packages := PackagesOf(ws, paths);
      var manifests := exists p <- paths :: ReachesRuntime(ws, p);
      Jobs("zeroclaw" in packages,
           "zeroclaw-channels" in packages,
           manifests || exists p <- paths :: RecoveryPath(p),
           manifests || "zeroclaw-config" in packages || "zeroclaw-spawn" in packages || exists p <- paths :: ServicePath(p))
  }

  /** The loop over the changed manifests and build scripts: whether the runtime
      depends on one; nothing when one belongs to no package. */
  method RuntimeManifests(ws: Workspace, paths: seq<string>) returns (r: Option<bool>)
    ensures r.None? <==> exists p <- paths :: BuildInput(p) && PackageFor(ws, p).None?
    ensures r.Some? ==> (r.value <==> exists p <- paths :: ReachesRuntime(ws, p))
  {
    hide PackageFor, BuildInput, Closure;
    var manifests := false;
    for i := 0 to |paths|
      invariant manifests <==> exists p <- paths[..i] :: ReachesRuntime(ws, p)
      invariant forall p <- paths[..i] | BuildInput(p) :: PackageFor(ws, p).Some?
    {
      assert paths[..i+1] == paths[..i] + [paths[i]];
      if BuildInput(paths[i]) {
        var package := PackageFor(ws, paths[i]);
        if package.None? {
          return None;
        }
        var closure := CloseOverReverseDependents({package.value.name}, ws.rev);
        assert RUNTIME in closure <==> ReachesRuntime(ws, paths[i]);
        manifests := manifests || RUNTIME in closure;
      }
    }
    assert paths[..|paths|] == paths;
    return Some(manifests);
  }

  /** `select_required_jobs`, once the paths and the metadata were read. */
  method SelectRequiredJobs(ws: Workspace, paths: seq<string>) returns (jobs: Jobs)
    ensures jobs == JobsOf(ws, PathSet(paths))
  {
    hide PackageFor, BuildInput, RecoveryPath, ServicePath, ReachesRuntime, ModeOf, PackagesOf;
    assert forall p :: p in paths <==> p in PathSet(paths);
    if paths == [] || !(OWNERS <= ws.rev.Keys) {
      return RUN_ALL;
    }
    var s := SelectPullRequest(ws, paths);
    if s.mode.All? {
      return RUN_ALL;
    }
    var manifests := RuntimeManifests(ws, paths);
    if manifests.None? {
      return RUN_ALL;
    }
    assert paths[0] in PathSet(paths);
    assert forall n :: n in s.packages <==> n in PathSet(s.packages);
    jobs := Jobs("zeroclaw" in s.packages,
                 "zeroclaw-channels" in s.packages,
                 manifests.value || exists p <- paths :: RecoveryPath(p),
                 manifests.value || "zeroclaw-config" in s.packages || "zeroclaw-spawn" in s.packages || exists p <- paths :: ServicePath(p));
  }

  /** With at least one changed path, more changed paths switch no job off. */
  lemma JobsAreMonotone(ws: Workspace, a: set<string>, b: set<string>)
    requires a != {} && a <= b
    ensures
      var before, after := JobsOf(ws, a), JobsOf(ws, b);
      && (before.root ==> after.root) && (before.voiceWake ==> after.voiceWake)
      && (before.recovery ==> after.recovery) && (before.service ==> after.service)
  {
    hide DemandOf, PackageFor, BuildInput, RecoveryPath, ServicePath, Closure, ReachesRuntime;
    SelectionIsMonotone(ws, a, b);
  }

  /** That does not extend to the empty list, which runs every job: a change to
      the documentation alone runs none. */
  lemma FirstPathMaySwitchOff(ws: Workspace, path: string)
    requires OWNERS <= ws.rev.Keys && "docs/" <= path && BaseName(path) !in TOOLCHAIN && !BuildInput(path)
    ensures JobsOf(ws, {}) == RUN_ALL && JobsOf(ws, {path}) == Jobs(false, false, false, false)
  {
    hide DemandOf, BuildInput, PackageFor, Closure, RecoveryPath, ServicePath, BaseName;
    DocumentsDemandNothing(ws, path);
    assert !WantsAll(ws, {path}) && Tested(ws, {path}) == {};
    assert ModeOf(ws, {path}).Skip?;
  }

  lemma DocumentsDemandNothing(ws: Workspace, path: string)
    requires "docs/" <= path && BaseName(path) !in TOOLCHAIN
    ensures DemandOf(ws, path).Nothing? && !RecoveryPath(path) && !ServicePath(path)
  {
    hide BaseName, PackageFor, Parts;
    assert path[0] == 'd';
    assert "crates/zeroclaw-runtime/src/lib.rs"[0] == 'c';
    assert "crates/zeroclaw-runtime/examples/windows_service_smoke_fixture.rs"[0] == 'c';
  }
}
