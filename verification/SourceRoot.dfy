/** Opening the root of a copy source, component by component, following no link. */
module SourceRoot {
  import opened Options
  import opened Filesystem
  import opened LiveTree
  import opened CopySafety

  /** A component of a relative path: a plain name, or one that would jump elsewhere. */
  datatype Component = Plain(name: Name) | Jump

  datatype Root = Opened(handle: ObjectId) | Nothing | Symlinked | Escaped

  /** What opening found, nothing when the export is to fail, and the time then. */
  datatype Walked = Walked(root: Option<Root>, clock: Time)

  /** The loop over the components. */
  function Walk(live: Live, dir: ObjectId, relative: seq<Component>, spare: nat, t: Time): Walked
    decreases |relative|
  {
    if relative == [] then Walked(Some(Opened(dir)), t)
    else if relative[0].Jump? then Walked(Some(Escaped), t)
    else if live.fails(t) then Walked(None, t + 1)
    else
      var name := relative[0].name;
      match Lookup(live.at(t), dir, name)
      case None => Walked(Some(Nothing), t + 1)
      case Some(found) =>
        if found.what.Link? then Walked(Some(if |relative| == 1 then Symlinked else Escaped), t + 1)
        else if !found.what.Folder? then Walked(None, t + 1)
        else match OpenDir(live, t + 1, dir, name, spare)
          case None => Walked(None, t + 2)
          case Some(handle) =>
            if Fstat(live, t + 2, handle).None? || handle != found.id then Walked(None, t + 3)
            else Walk(live, handle, relative[1..], spare, t + 3)
  }

  /** `open_anchored_root`: `install` is the object of the install root. */
  function OpenAnchored(live: Live, install: ObjectId, relative: seq<Component>, family: Name, spare: nat, t: Time): Walked {
    if relative == [] || relative[0] != Plain(family) then Walked(Some(Escaped), t)
    else if live.fails(t) then Walked(None, t + 1)
    else if live.fails(t + 1) then Walked(None, t + 2)
    else Walk(live, install, relative, spare, t + 2)
  }

  /** `open_configured_root`, from the directory that holds the last component. */
  function OpenConfigured(live: Live, parent: ObjectId, name: Option<Name>, spare: nat, t: Time): Walked {
    if name.None? then Walked(None, t)
    else if live.fails(t) then Walked(None, t + 1)
    else Walk(live, parent, [Plain(name.value)], spare, t + 1)
  }

  /** The walk as a loop. */
  method WalkDown(live: Live, start: ObjectId, relative: seq<Component>, spare: nat, from: Time) returns (root: Option<Root>, clock: Time)
    ensures Walked(root, clock) == Walk(live, start, relative, spare, from)
  {
    var dir := start;
    clock := from;
    for i := 0 to |relative|
      invariant Walk(live, start, relative, spare, from) == Walk(live, dir, relative[i..], spare, clock)
    {
      assert relative[i..][0] == relative[i] && relative[i..][1..] == relative[i+1..];
      if relative[i].Jump? {
        return Some(Escaped), clock;
      }
      var name := relative[i].name;
      if live.fails(clock) {
        return None, clock + 1;
      }
      var found := Lookup(live.at(clock), dir, name);
      clock := clock + 1;
      if found.None? {
        return Some(Nothing), clock;
      }
      if found.value.what.Link? {
        return Some(if i == |relative| - 1 then Symlinked else Escaped), clock;
      }
      if !found.value.what.Folder? {
        return None, clock;
      }
      var handle := OpenDir(live, clock, dir, name, spare);
      clock := clock + 1;
      if handle.None? {
        return None, clock;
      }
      var what := Fstat(live, clock, handle.value);
      clock := clock + 1;
      if what.None? || handle.value != found.value.id {
        return None, clock;
      }
      dir := handle.value;
    }
    return Some(Opened(dir)), clock;
  }

  method OpenAnchoredRoot(live: Live, install: ObjectId, relative: seq<Component>, family: Name, spare: nat, t: Time)
    returns (root: Option<Root>, clock: Time)
    ensures Walked(root, clock) == OpenAnchored(live, install, relative, family, spare, t)
  {
    hide Walk;
    if relative == [] || relative[0] != Plain(family) {
      return Some(Escaped), t;
    }
    if live.fails(t) {
      return None, t + 1;
    }
    if live.fails(t + 1) {
      return None, t + 2;
    }
    root, clock := WalkDown(live, install, relative, spare, t + 2);
  }

  /** `open_configured_root`. */
  method OpenConfiguredRoot(live: Live, parent: ObjectId, name: Option<Name>, spare: nat, t: Time)
    returns (root: Option<Root>, clock: Time)
    ensures Walked(root, clock) == OpenConfigured(live, parent, name, spare, t)
  {
    hide Walk;
    if name.None? {
      return None, t;
    }
    if live.fails(t) {
      return None, t + 1;
    }
    root, clock := WalkDown(live, parent, [Plain(name.value)], spare, t + 1);
  }

  // ------------------------------------------------------------- what an opened root is

  /** Walking from `dir` at the time `t`, each component is classified as a
      directory, and is that object when it is opened one call later; three calls
      on comes the next component, and the last one is `handle`. */
  ghost predicate Through(live: Live, dir: ObjectId, relative: seq<Component>, handle: ObjectId, t: Time)
    decreases |relative|
  {
    if relative == [] then handle == dir else
      relative[0].Plain? &&
      var f := Lookup(live.at(t), dir, relative[0].name);
      && f.Some? && f.value.what.Folder? && Wears(live, dir, relative[0].name, f.value.id, t + 1)
      && Through(live, f.value.id, relative[1..], handle, t + 3)
  }

  lemma {:induction false} WalkIsTraced(live: Live, dir: ObjectId, relative: seq<Component>, spare: nat, t: Time)
    requires Walk(live, dir, relative, spare, t).root.Some? && Walk(live, dir, relative, spare, t).root.value.Opened?
    ensures Through(live, dir, relative, Walk(live, dir, relative, spare, t).root.value.handle, t)
    ensures Walk(live, dir, relative, spare, t).clock == t + 3 * |relative|
    decreases |relative|
  {
    if relative != [] {
      var id := Lookup(live.at(t), dir, relative[0].name).value.id;
      WalkIsTraced(live, id, relative[1..], spare, t + 3);
    }
  }

  /** An anchored source lies in its family and was reached from the install root
      only through directories that this walk classified, each opened by the next
      call as the object it was. */
  lemma AnchoredIsTraced(live: Live, install: ObjectId, relative: seq<Component>, family: Name, spare: nat, t: Time)
    requires var r := OpenAnchored(live, install, relative, family, spare, t).root; r.Some? && r.value.Opened?
    ensures relative != [] && relative[0] == Plain(family)
    ensures Through(live, install, relative, OpenAnchored(live, install, relative, family, spare, t).root.value.handle, t + 2)
    ensures OpenAnchored(live, install, relative, family, spare, t).clock == t + 2 + 3 * |relative|
  {
    hide Walk, Through;
    WalkIsTraced(live, install, relative, spare, t + 2);
  }

  /** A configured source: the same of its last component, from the directory that holds it. */
  lemma ConfiguredIsTraced(live: Live, parent: ObjectId, name: Option<Name>, spare: nat, t: Time)
    requires var r := OpenConfigured(live, parent, name, spare, t).root; r.Some? && r.value.Opened?
    ensures name.Some?
    ensures Through(live, parent, [Plain(name.value)], OpenConfigured(live, parent, name, spare, t).root.value.handle, t + 1)
    ensures OpenConfigured(live, parent, name, spare, t).clock == t + 4
  {
    hide Walk, Through;
    WalkIsTraced(live, parent, [Plain(name.value)], spare, t + 1);
  }

  /** Where a path leads through real directories alone. */
  function Follow(w: World, dir: ObjectId, relative: seq<Component>): Option<ObjectId>
    decreases |relative|
  {
    if relative == [] then Some(dir)
    else if relative[0].Jump? then None
    else match Lookup(w, dir, relative[0].name)
      case Some(Found(id, Folder(_))) => Follow(w, id, relative[1..])
      case _ => None
  }

  /** Whether a component is missing before anything but a directory is met. */
  predicate Absent(w: World, dir: ObjectId, relative: seq<Component>)
    decreases |relative|
  {
    relative != [] && relative[0].Plain? &&
    match Lookup(w, dir, relative[0].name)
    case None => true
    case Some(Found(id, Folder(_))) => Absent(w, id, relative[1..])
    case _ => false
  }

  ghost predicate Undisturbed(live: Live, w: World) {
    forall t :: live.at(t) == w && !live.fails(t)
  }

  lemma {:induction false} WalkUndisturbed(live: Live, w: World, dir: ObjectId, relative: seq<Component>, spare: nat, t: Time)
    requires Undisturbed(live, w) && spare > 0
    ensures forall h: ObjectId :: Walk(live, dir, relative, spare, t).root == Some(Opened(h)) <==> Follow(w, dir, relative) == Some(h)
    ensures Walk(live, dir, relative, spare, t).root == Some(Nothing) <==> Absent(w, dir, relative)
    decreases |relative|
  {
    if relative != [] && relative[0].Plain? {
      assert live.at(t) == w && live.at(t + 1) == w && live.at(t + 2) == w;
      var found := Lookup(w, dir, relative[0].name);
      if found.Some? && found.value.what.Folder? {
        WalkUndisturbed(live, w, found.value.id, relative[1..], spare, t + 3);
      }
    }
  }

  /** On a tree that nobody changes, a source is opened exactly when its path
      starts in the family and every component is a real directory, and found
      absent exactly when one is missing. */
  lemma AnchoredUndisturbed(live: Live, w: World, install: ObjectId, relative: seq<Component>, family: Name, spare: nat, t: Time)
    requires Undisturbed(live, w) && spare > 0
    ensures
      var r := OpenAnchored(live, install, relative, family, spare, t).root;
      var inside := relative != [] && relative[0] == Plain(family);
      && (forall h: ObjectId :: r == Some(Opened(h)) <==> inside && Follow(w, install, relative) == Some(h))
      && (r == Some(Nothing) <==> inside && Absent(w, install, relative))
  {
    hide Walk, Follow, Absent;
    WalkUndisturbed(live, w, install, relative, spare, t + 2);
  }

  /** The same of a configured source. */
  lemma ConfiguredUndisturbed(live: Live, w: World, parent: ObjectId, name: Option<Name>, spare: nat, t: Time)
    requires Undisturbed(live, w) && spare > 0
    ensures
      var r := OpenConfigured(live, parent, name, spare, t).root;
      && (forall h: ObjectId :: r == Some(Opened(h)) <==> name.Some? && Follow(w, parent, [Plain(name.value)]) == Some(h))
      && (r == Some(Nothing) <==> name.Some? && Absent(w, parent, [Plain(name.value)]))
  {
    hide Walk, Follow, Absent;
    if name.Some? {
      WalkUndisturbed(live, w, parent, [Plain(name.value)], spare, t + 1);
    }
  }

  /** What a component that is no directory makes of the walk: nothing at all when
      it is neither missing nor a link. */
  function Verdict(w: World, dir: ObjectId, c: Component, last: bool): Option<Root> {
    if c.Jump? then Some(Escaped)
    else match Lookup(w, dir, c.name)
      case None => Some(Nothing)
      case Some(Found(_, Link)) => Some(if last then Symlinked else Escaped)
      case _ => None
  }

  predicate IsFolder(w: World, dir: ObjectId, c: Component) {
    c.Plain? && Lookup(w, dir, c.name).Some? && Lookup(w, dir, c.name).value.what.Folder?
  }

  /** On an unchanging tree the first component that is no directory decides. */
  lemma {:induction false} FirstStopDecides(live: Live, w: World, dir: ObjectId, relative: seq<Component>, spare: nat, t: Time, i: nat)
    requires Undisturbed(live, w) && spare > 0 && i < |relative|
    requires var d := Follow(w, dir, relative[..i]); d.Some? && !IsFolder(w, d.value, relative[i])
    ensures Walk(live, dir, relative, spare, t).root == Verdict(w, Follow(w, dir, relative[..i]).value, relative[i], i == |relative| - 1)
    decreases i
  {
    assert live.at(t) == w && live.at(t + 1) == w && live.at(t + 2) == w;
    if i > 0 {
      assert relative[..i][0] == relative[0] && relative[..i][1..] == relative[1..][..i-1];
      FirstStopDecides(live, w, Lookup(w, dir, relative[0].name).value.id, relative[1..], spare, t + 3, i - 1);
    }
  }

  /** A path that is not in the family, or jumps, is an escape; so is a link on
      the way, but not one at its end. */
  lemma AnchoredRefused(live: Live, w: World, install: ObjectId, relative: seq<Component>, family: Name, spare: nat, t: Time, i: nat)
    requires Undisturbed(live, w) && spare > 0
    requires i < |relative|
    requires var d := Follow(w, install, relative[..i]); d.Some? && !IsFolder(w, d.value, relative[i])
    ensures OpenAnchored(live, install, relative, family, spare, t).root ==
            if relative[0] != Plain(family) then Some(Escaped)
            else Verdict(w, Follow(w, install, relative[..i]).value, relative[i], i == |relative| - 1)
  {
    hide Walk, Follow, Verdict, IsFolder;
    FirstStopDecides(live, w, install, relative, spare, t + 2, i);
  }
}
