/** The order in which the workspace's packages are released: a depth-first walk
    over their dependency graph that fails on a cycle. */
module ReleaseOrder {
  import opened Options
  import opened Ordering

  datatype Kind = Normal | Build | Dev | Unknown

  /** `req` is `None` when the metadata holds no string there; `versioned` is
      what the manifest says of a dev-dependency whose requirement is `*`. */
  datatype Dependency = Dependency(name: string, kind: Kind, req: Option<string>, versioned: bool)

  /** `open` stands for `publish is None`. */
  datatype Package = Package(name: string, open: bool, version: string, dependencies: seq<Dependency>)

  datatype Error =
    | InvalidDependency(from: string, target: string)
    | UnpublishableDependency(from: string, target: string)
    | DependencyCycle(trail: seq<string>)

  datatype Result<T> = Ok(value: T) | Err(error: Error)

  type Graph = map<string, set<string>>

  ghost predicate Closed(g: Graph) {
    forall n <- g, d <- g[n] :: d in g
  }

  predicate RegistryVisible(d: Dependency) {
    !d.kind.Dev? || d.req != Some("*") || d.versioned
  }

  // ------------------------------------------------------------- the graph

  /** `{p["name"]: p for p in packages}`: the last package of a name wins. */
  function ByName(packages: seq<Package>): (m: map<string, Package>)
    ensures forall n <- m :: m[n].name == n
  {
    if packages == [] then map[] else
      var last := packages[|packages|-1];
      ByName(packages[..|packages|-1])[last.name := last]
  }

  function Publishable(packages: map<string, Package>, version: string): set<string> {
    set n | n in packages && packages[n].open && packages[n].version == version
  }

  /** The classification of one dependency: an edge, no edge, or an error. */
  function Edge(packages: map<string, Package>, version: string, from: string, d: Dependency): Result<bool> {
    if d.kind.Unknown? || d.req.None? then Err(InvalidDependency(from, d.name))
    else if d.name !in packages || !RegistryVisible(d) then Ok(false)
    else if !packages[d.name].open then Err(UnpublishableDependency(from, d.name))
    else Ok(d.name in Publishable(packages, version))
  }

  function Targets(packages: map<string, Package>, version: string, from: string, ds: seq<Dependency>): Result<set<string>> {
    if ds == [] then Ok({}) else
      match Targets(packages, version, from, ds[..|ds|-1])
      case Err(e) => Err(e)
      case Ok(before) =>
        match Edge(packages, version, from, ds[|ds|-1])
        case Err(e) => Err(e)
        case Ok(edge) => Ok(if edge then before + {ds[|ds|-1].name} else before)
  }

  function GraphOf(packages: map<string, Package>, version: string, names: seq<string>): Result<Graph>
    requires forall n <- names :: n in packages
  {
    if names == [] then Ok(map[]) else
      var n := names[|names|-1];
      match GraphOf(packages, version, names[..|names|-1])
      case Err(e) => Err(e)
      case Ok(g) =>
        match Targets(packages, version, n, packages[n].dependencies)
        case Err(e) => Err(e)
        case Ok(ts) => Ok(g[n := ts])
  }

  // ------------------------------------------------------------- the walk

  datatype Mark = Visiting | Finished

  datatype Walk = Walk(order: seq<string>, state: map<string, Mark>)

  datatype Outcome = Done(walk: Walk) | Cycle(trail: seq<string>)

  function Visited(g: Graph, name: string, trail: seq<string>, w: Walk): (r: Outcome)
    requires Closed(g) && name in g
    ensures r.Done? ==> w.state.Keys <= r.walk.state.Keys
    decreases |g.Keys - w.state.Keys|, 0
  {
    if name in w.state then
      if w.state[name].Finished? then Done(w) else Cycle(trail + [name])
    else
      var marked := w.(state := w.state[name := Visiting]);
      Shrinks(g.Keys, w.state.Keys, marked.state.Keys, name);
      match VisitedAll(g, SortedNames(g[name]), trail + [name], marked)
      case Cycle(t) => Cycle(t)
      case Done(v) => Done(Walk(v.order + [name], v.state[name := Finished]))
  }

  function VisitedAll(g: Graph, names: seq<string>, trail: seq<string>, w: Walk): (r: Outcome)
    requires Closed(g) && forall n <- names :: n in g
    ensures r.Done? ==> w.state.Keys <= r.walk.state.Keys
    decreases |g.Keys - w.state.Keys|, |names|
  {
    if names == [] then Done(w) else
      match Visited(g, names[0], trail, w)
      case Cycle(t) => Cycle(t)
      case Done(v) =>
        Fewer(g.Keys - v.state.Keys, g.Keys - w.state.Keys);
        VisitedAll(g, names[1..], trail, v)
  }

  lemma Shrinks(all: set<string>, before: set<string>, after: set<string>, n: string)
    requires n in all && n !in before && after == before + {n}
    ensures |all - after| < |all - before|
  {
    assert all - after == (all - before) - {n};
  }

  lemma Fewer(a: set<string>, b: set<string>)
    requires a <= b
    ensures |a| <= |b|
  {
    if a != b {
      assert b == a + (b - a) && a !! (b - a);
    }
  }

  function ReleaseOf(packages: map<string, Package>, version: string): Result<seq<string>> {
    var names := SortedNames(Publishable(packages, version));
    match GraphOf(packages, version, names)
    case Err(e) => Err(e)
    case Ok(g) =>
      GraphIsClosed(packages, version, names);
      match VisitedAll(g, names, [], Walk([], map[]))
      case Cycle(t) => Err(DependencyCycle(t))
      case Done(w) => Ok(w.order)
  }

  lemma {:induction false} GraphIsClosed(packages: map<string, Package>, version: string, names: seq<string>)
    requires forall n <- names :: n in packages
    requires GraphOf(packages, version, names).Ok?
    ensures
      var g := GraphOf(packages, version, names).value;
      && (forall n :: n in g <==> n in names)
      && (forall n <- g, d <- g[n] :: d in Publishable(packages, version))
    ensures (forall n :: n in names <==> n in Publishable(packages, version)) ==> Closed(GraphOf(packages, version, names).value)
  {
    if names != [] {
      var n := names[|names|-1];
      GraphIsClosed(packages, version, names[..|names|-1]);
      TargetsArePublishable(packages, version, n, packages[n].dependencies);
    }
  }

  lemma {:induction false} TargetsArePublishable(packages: map<string, Package>, version: string, from: string, ds: seq<Dependency>)
    requires Targets(packages, version, from, ds).Ok?
    ensures Targets(packages, version, from, ds).value <= Publishable(packages, version)
  {
    if ds != [] {
      TargetsArePublishable(packages, version, from, ds[..|ds|-1]);
    }
  }

  // ------------------------------------------------------------- what the walk keeps

  /** Every package comes after all it depends on. */
  ghost predicate Topological(g: Graph, order: seq<string>) {
    forall i | 0 <= i < |order| :: order[i] in g && forall d <- g[order[i]] :: d in order[..i]
  }

  ghost predicate IsPath(g: Graph, p: seq<string>) {
    forall i | 0 <= i < |p| :: p[i] in g && (i + 1 < |p| ==> p[i+1] in g[p[i]])
  }

  /** A path that comes back to a node it went through. */
  ghost predicate Returns(g: Graph, p: seq<string>) {
    IsPath(g, p) && exists i :: 0 <= i < |p| - 1 && p[i] == p[|p|-1]
  }

  ghost predicate Follows(g: Graph, trail: seq<string>, name: string) {
    name in g && (trail == [] || (trail[|trail|-1] in g && name in g[trail[|trail|-1]]))
  }

  ghost predicate Sound(g: Graph, trail: seq<string>, w: Walk) {
    && NoRepeats(w.order) && Topological(g, w.order) && IsPath(g, trail)
    && (forall n <- w.order :: n in w.state && w.state[n].Finished?)
    && (forall n <- trail :: n in w.state && w.state[n].Visiting?)
    && (forall n <- w.state :: if w.state[n].Finished? then n in w.order else n in trail)
  }

  lemma {:induction false} VisitSound(g: Graph, name: string, trail: seq<string>, w: Walk)
    requires Closed(g) && Sound(g, trail, w) && Follows(g, trail, name)
    ensures
      match Visited(g, name, trail, w)
      case Done(v) => Sound(g, trail, v) && name in v.order && w.order <= v.order
      case Cycle(t) => Returns(g, t)
    decreases |g.Keys - w.state.Keys|, 1
  {
    if name !in w.state {
      StartSound(g, name, trail, w);
      NextFollow(g, name, trail);
      DescendSound(g, name, SortedNames(g[name]), trail, w);
    } else if w.state[name].Visiting? {
      TrailReturns(g, name, trail);
    }
  }

  lemma {:induction false} DescendSound(g: Graph, name: string, names: seq<string>, trail: seq<string>, w: Walk)
    requires Closed(g) && name in g && name !in w.state && name !in trail && IsPath(g, trail)
    requires Sound(g, trail + [name], w.(state := w.state[name := Visiting]))
    requires (forall d <- g[name] :: d in names) && forall n <- names :: n in g && Follows(g, trail + [name], n)
    ensures
      match VisitedAll(g, names, trail + [name], w.(state := w.state[name := Visiting]))
      case Done(v) => Sound(g, trail, Walk(v.order + [name], v.state[name := Finished])) && w.order <= v.order + [name]
      case Cycle(t) => Returns(g, t)
    decreases |g.Keys - w.state.Keys|, 0
  {
    var marked := w.(state := w.state[name := Visiting]);
    Shrinks(g.Keys, w.state.Keys, marked.state.Keys, name);
    VisitAllSound(g, names, trail + [name], marked);
    var r := VisitedAll(g, names, trail + [name], marked);
    if r.Done? {
      FinishSound(g, name, trail, r.walk);
    }
  }

  lemma NextFollow(g: Graph, name: string, trail: seq<string>)
    requires Closed(g) && name in g
    ensures forall n <- SortedNames(g[name]) :: n in g && Follows(g, trail + [name], n)
  {
  }

  lemma TrailReturns(g: Graph, name: string, trail: seq<string>)
    requires IsPath(g, trail) && Follows(g, trail, name) && name in trail
    ensures Returns(g, trail + [name])
  {
    var i :| 0 <= i < |trail| && trail[i] == name;
    ExtendPath(g, trail, name);
    assert (trail + [name])[i] == name;
  }

  lemma StartSound(g: Graph, name: string, trail: seq<string>, w: Walk)
    requires Sound(g, trail, w) && Follows(g, trail, name) && name !in w.state
    ensures Sound(g, trail + [name], w.(state := w.state[name := Visiting]))
  {
    ExtendPath(g, trail, name);
    var state := w.state[name := Visiting];
    forall n ensures n in trail + [name] <==> n in state && state[n].Visiting? {
      assert n in trail + [name] <==> n in trail || n == name;
    }
  }

  lemma ExtendPath(g: Graph, trail: seq<string>, name: string)
    requires IsPath(g, trail) && Follows(g, trail, name)
    ensures IsPath(g, trail + [name])
  {
  }

  lemma FinishTopological(g: Graph, before: seq<string>, name: string)
    requires Topological(g, before) && name in g && forall d <- g[name] :: d in before
    ensures Topological(g, before + [name])
  {
    var order := before + [name];
    forall i | 0 <= i < |order| ensures order[i] in g && forall d <- g[order[i]] :: d in order[..i] {
      if i < |before| {
        assert order[..i] == before[..i];
      } else {
        assert order[..i] == before;
      }
    }
  }

  lemma FinishSound(g: Graph, name: string, trail: seq<string>, v: Walk)
    requires Closed(g) && name in g && name !in trail && IsPath(g, trail)
    requires Sound(g, trail + [name], v) && forall d <- g[name] :: d in v.order
    ensures Sound(g, trail, Walk(v.order + [name], v.state[name := Finished])) && v.order <= v.order + [name]
  {
    hide Topological, IsPath, Closed;
    var order := v.order + [name];
    assert name in trail + [name];
    FinishTopological(g, v.order, name);
    forall n ensures n in trail <==> n in v.state && v.state[n].Visiting? && n != name {
      assert n in trail + [name] <==> n in trail || n == name;
    }
  }

  lemma {:induction false} VisitAllSound(g: Graph, names: seq<string>, trail: seq<string>, w: Walk)
    requires Closed(g) && Sound(g, trail, w) && forall n <- names :: n in g && Follows(g, trail, n)
    ensures
      match VisitedAll(g, names, trail, w)
      case Done(v) => Sound(g, trail, v) && (forall n <- names :: n in v.order) && w.order <= v.order
      case Cycle(t) => Returns(g, t)
    decreases |g.Keys - w.state.Keys|, |names| + 1
  {
    if names != [] {
      VisitSound(g, names[0], trail, w);
      var r := Visited(g, names[0], trail, w);
      if r.Done? {
        Fewer(g.Keys - r.walk.state.Keys, g.Keys - w.state.Keys);
        VisitAllSound(g, names[1..], trail, r.walk);
        assert forall n <- names :: n == names[0] || n in names[1..];
      }
    }
  }

  // ------------------------------------------------------------- what the release order is

  ghost predicate IsCycle(g: Graph, p: seq<string>) {
    IsPath(g, p) && |p| >= 2 && p[0] == p[|p|-1]
  }

  lemma ReturnIsCycle(g: Graph, p: seq<string>) returns (cycle: seq<string>)
    requires Returns(g, p)
    ensures IsCycle(g, cycle) && forall n <- cycle :: n in p
  {
    var i :| 0 <= i < |p| - 1 && p[i] == p[|p|-1];
    cycle := p[i..];
    forall k | 0 <= k < |cycle| ensures cycle[k] in g && (k + 1 < |cycle| ==> cycle[k+1] in g[cycle[k]]) {
      assert cycle[k] == p[i+k];
    }
  }

  ghost predicate Precedes(order: seq<string>, a: string, b: string) {
    exists i, j :: 0 <= i < j < |order| && order[i] == a && order[j] == b
  }

  /** In a topological order, each step of a path leads further to the front. */
  lemma {:induction false} PathGoesBack(g: Graph, order: seq<string>, p: seq<string>)
    requires Topological(g, order) && NoRepeats(order) && IsPath(g, p) && |p| >= 2 && p[0] in order
    ensures Precedes(order, p[|p|-1], p[0])
  {
    var j :| 0 <= j < |order| && order[j] == p[0];
    assert p[1] in order[..j];
    var i :| 0 <= i < j && order[i] == p[1];
    if |p| > 2 {
      assert IsPath(g, p[1..]) by {
        forall k | 0 <= k < |p| - 1 ensures p[1..][k] in g && (k + 2 < |p| ==> p[1..][k+1] in g[p[1..][k]]) {
          assert p[1..][k] == p[k+1];
        }
      }
      PathGoesBack(g, order, p[1..]);
      var a, b :| 0 <= a < b < |order| && order[a] == p[|p|-1] && order[b] == p[1];
      assert b == i;
    }
  }

  /** The whole contract of `publish_order`, for every set of packages. The
      dependency graph either has no cycle, and then the answer lists exactly the
      publishable packages, once each, dependencies first; or it has one, and
      then the answer is the cycle error, whose trail runs into a cycle. */
  lemma ReleaseOrderCorrect(packages: map<string, Package>, version: string)
    ensures
      var names := SortedNames(Publishable(packages, version));
      match GraphOf(packages, version, names)
      case Err(e) => ReleaseOf(packages, version) == Err(e) && !e.DependencyCycle?
      case Ok(g) =>
        && g.Keys == Publishable(packages, version)
        && ((exists p :: IsCycle(g, p)) <==> ReleaseOf(packages, version).Err?)
        && match ReleaseOf(packages, version)
           case Ok(order) => NoRepeats(order) && (set n | n in order) == Publishable(packages, version) && Topological(g, order)
           case Err(e) => e.DependencyCycle? && Returns(g, e.trail)
  {
    var names := SortedNames(Publishable(packages, version));
    var graph := GraphOf(packages, version, names);
    match graph
    case Err(e) =>
      GraphErrorIsNoCycle(packages, version, names);
    case Ok(g) =>
      GraphIsClosed(packages, version, names);
      VisitAllSound(g, names, [], Walk([], map[]));
      match VisitedAll(g, names, [], Walk([], map[]))
      case Cycle(t) =>
        var p := ReturnIsCycle(g, t);
      case Done(w) =>
        OrderIsExact(g, w);
        forall p ensures !IsCycle(g, p) {
          if IsCycle(g, p) {
            PathGoesBack(g, w.order, p);
          }
        }
  }

  lemma OrderIsExact(g: Graph, w: Walk)
    requires Sound(g, [], w) && forall n <- g :: n in w.order
    ensures (set n | n in w.order) == g.Keys
  {
    forall n | n in w.order ensures n in g {
      var i :| 0 <= i < |w.order| && w.order[i] == n;
    }
  }

  lemma {:induction false} GraphErrorIsNoCycle(packages: map<string, Package>, version: string, names: seq<string>)
    requires forall n <- names :: n in packages
    requires GraphOf(packages, version, names).Err?
    ensures !GraphOf(packages, version, names).error.DependencyCycle?
  {
    var n := names[|names|-1];
    if GraphOf(packages, version, names[..|names|-1]).Err? {
      GraphErrorIsNoCycle(packages, version, names[..|names|-1]);
    } else {
      TargetsMean(packages, version, n, packages[n].dependencies);
    }
  }

  /** The edges of a package are its registry-visible dependencies that are
      released with it; a malformed dependency, or one on a workspace package
      that is never published, is an error. */
  lemma {:induction false} TargetsMean(packages: map<string, Package>, version: string, from: string, ds: seq<Dependency>)
    ensures
      match Targets(packages, version, from, ds)
      case Ok(ts) =>
        && (forall d <- ds :: Edge(packages, version, from, d).Ok?)
        && (forall t :: t in ts <==> t in Publishable(packages, version) && exists d <- ds :: d.name == t && RegistryVisible(d))
      case Err(e) => exists d <- ds :: Edge(packages, version, from, d) == Err(e)
  {
    if ds != [] {
      TargetsMean(packages, version, from, ds[..|ds|-1]);
      assert ds == ds[..|ds|-1] + [ds[|ds|-1]];
    }
  }

  // ------------------------------------------------------------- independence of the input order

  ghost predicate DistinctNames(packages: seq<Package>) {
    forall i, j | 0 <= i < j < |packages| :: packages[i].name != packages[j].name
  }

  lemma {:induction false} ByNameFinds(packages: seq<Package>, p: Package)
    requires DistinctNames(packages) && p in packages
    ensures p.name in ByName(packages) && ByName(packages)[p.name] == p
  {
    var front := packages[..|packages|-1];
    var last := packages[|packages|-1];
    assert packages == front + [last];
    if p != last {
      ByNameFinds(front, p);
    }
  }

  lemma {:induction false} ByNameComesFrom(packages: seq<Package>, n: string)
    requires n in ByName(packages)
    ensures ByName(packages)[n] in packages
  {
    var front := packages[..|packages|-1];
    assert packages == front + [packages[|packages|-1]];
    if n != packages[|packages|-1].name {
      ByNameComesFrom(front, n);
    }
  }

  /** With distinct names, the answer does not depend on the order in which the
      metadata lists the packages. */
  lemma ListOrderIsIrrelevant(a: seq<Package>, b: seq<Package>, version: string)
    requires DistinctNames(a) && DistinctNames(b) && forall p :: p in a <==> p in b
    ensures ReleaseOf(ByName(a), version) == ReleaseOf(ByName(b), version)
  {
    forall n | n in ByName(a) ensures n in ByName(b) && ByName(b)[n] == ByName(a)[n] {
      ByNameComesFrom(a, n);
      ByNameFinds(b, ByName(a)[n]);
    }
    forall n | n in ByName(b) ensures n in ByName(a) {
      ByNameComesFrom(b, n);
      ByNameFinds(a, ByName(b)[n]);
    }
    assert ByName(a) == ByName(b);
  }

  // ------------------------------------------------------------- the program

  /** The `order` list and the `state` dictionary that the nested `visit` shares. */
  class Releaser {
    const deps: Graph
    var order: seq<string>
    var state: map<string, Mark>

    constructor (deps: Graph)
      ensures this.deps == deps && order == [] && state == map[]
    {
      this.deps := deps;
      order, state := [], map[];
    }

    ghost function Contents(): Walk
      reads this
    {
      Walk(order, state)
    }

    /** `visit`: the trail of the cycle it raises, if it raises. */
    method Visit(name: string, trail: seq<string>) returns (cycle: Option<seq<string>>)
      requires Closed(deps) && name in deps
      modifies this
      ensures Visited(deps, name, trail, old(Contents())) == if cycle.Some? then Cycle(cycle.value) else Done(Contents())
      decreases |deps.Keys - state.Keys|, 0
    {
      if name in state && state[name].Finished? {
        return None;
      }
      if name in state {
        return Some(trail + [name]);
      }
      state := state[name := Visiting];
      Shrinks(deps.Keys, old(state).Keys, state.Keys, name);
      cycle := VisitEach(SortedNames(deps[name]), trail + [name]);
      if cycle.None? {
        state := state[name := Finished];
        order := order + [name];
      }
    }

    /** The loop that visits `names` one after the other. */
    method VisitEach(names: seq<string>, trail: seq<string>) returns (cycle: Option<seq<string>>)
      requires Closed(deps) && forall n <- names :: n in deps
      modifies this
      ensures VisitedAll(deps, names, trail, old(Contents())) == if cycle.Some? then Cycle(cycle.value) else Done(Contents())
      decreases |deps.Keys - state.Keys|, |names| + 1
    {
      ghost var start := Contents();
      for i := 0 to |names|
        invariant start.state.Keys <= state.Keys
        invariant VisitedAll(deps, names, trail, start) == VisitedAll(deps, names[i..], trail, Contents())
      {
        Fewer(deps.Keys - state.Keys, deps.Keys - start.state.Keys);
        cycle := Visit(names[i], trail);
        if cycle.Some? {
          return;
        }
        assert names[i..][1..] == names[i+1..];
      }
      return None;
    }
  }

  /** The classification of the dependencies of one package. */
  method CollectTargets(packages: map<string, Package>, version: string, from: string, ds: seq<Dependency>) returns (r: Result<set<string>>)
    ensures r == Targets(packages, version, from, ds)
  {
    var publishable := Publishable(packages, version);
    var targets: set<string> := {};
    for k := 0 to |ds|
      invariant Targets(packages, version, from, ds[..k]) == Ok(targets)
    {
      assert ds[..k+1][..k] == ds[..k];
      var d := ds[k];
      if d.kind.Unknown? || d.req.None? {
        TargetsFail(packages, version, from, ds, k + 1);
        return Err(InvalidDependency(from, d.name));
      }
      if d.name in packages && RegistryVisible(d) {
        if !packages[d.name].open {
          TargetsFail(packages, version, from, ds, k + 1);
          return Err(UnpublishableDependency(from, d.name));
        }
        if d.name in publishable {
          targets := targets + {d.name};
        }
      }
    }
    assert ds[..|ds|] == ds;
    return Ok(targets);
  }

  method BuildGraph(packages: map<string, Package>, version: string, names: seq<string>) returns (r: Result<Graph>)
    requires forall n <- names :: n in packages
    ensures r == GraphOf(packages, version, names)
  {
    var deps: Graph := map[];
    for i := 0 to |names|
      invariant GraphOf(packages, version, names[..i]) == Ok(deps)
    {
      assert names[..i+1][..i] == names[..i];
      var targets := CollectTargets(packages, version, names[i], packages[names[i]].dependencies);
      if targets.Err? {
        GraphFails(packages, version, names, i + 1);
        return Err(targets.error);
      }
      deps := deps[names[i] := targets.value];
    }
    assert names[..|names|] == names;
    return Ok(deps);
  }

  /** `publish_order`. */
  method PublishOrder(packages: seq<Package>, version: string) returns (r: Result<seq<string>>)
    ensures r == ReleaseOf(ByName(packages), version)
  {
    var byName := ByName(packages);
    var names := SortedNames(Publishable(byName, version));
    var deps := BuildGraph(byName, version, names);
    if deps.Err? {
      return Err(deps.error);
    }
    GraphIsClosed(byName, version, names);
    var walk := new Releaser(deps.value);
    var cycle := walk.VisitEach(names, []);
    return if cycle.Some? then Err(DependencyCycle(cycle.value)) else Ok(walk.order);
  }

  /** The first error ends the loop over the dependencies of a package. */
  lemma {:induction false} TargetsFail(packages: map<string, Package>, version: string, from: string, ds: seq<Dependency>, k: nat)
    requires k <= |ds| && Targets(packages, version, from, ds[..k]).Err?
    ensures Targets(packages, version, from, ds) == Targets(packages, version, from, ds[..k])
  {
    if k < |ds| {
      assert ds[..|ds|-1][..k] == ds[..k];
      TargetsFail(packages, version, from, ds[..|ds|-1], k);
    } else {
      assert ds[..k] == ds;
    }
  }

  lemma {:induction false} GraphFails(packages: map<string, Package>, version: string, names: seq<string>, k: nat)
    requires k <= |names| && (forall n <- names :: n in packages) && GraphOf(packages, version, names[..k]).Err?
    ensures GraphOf(packages, version, names) == GraphOf(packages, version, names[..k])
  {
    if k < |names| {
      assert names[..|names|-1][..k] == names[..k];
      GraphFails(packages, version, names[..|names|-1], k);
    } else {
      assert names[..k] == names;
    }
  }
}
