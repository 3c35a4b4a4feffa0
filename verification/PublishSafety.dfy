/** What every run keeps when others may move objects to and from the
    destination name between any two system calls. */
module PublishSafety {
  import opened Options
  import opened Filesystem
  import opened Publish

  predicate Staging(pc: Pc) {
    !pc.Inspect? && !pc.OpenAdmit? && !pc.Stage? && !pc.Reap? && !pc.Published? && !pc.Refused?
  }

  /** The destination was found to be the admitted directory and no tree the
      export read. */
  predicate Cleared(pc: Pc) {
    pc.ClearEmpty? || pc.MoveEmpty? || pc.Recreate? || Retiring(pc)
  }

  predicate Retiring(pc: Pc) {
    pc.ProbeRetired? || pc.Retire? || pc.Reprobe? || pc.Reopen? || pc.PutBack? || Proven(pc)
  }

  predicate Moving(pc: Pc) {
    pc.MoveVacant? || pc.MoveEmpty? || pc.MoveForced?
  }

  /** The retired name was found to be the admitted directory. */
  predicate Proven(pc: Pc) {
    pc.MoveForced? || pc.Restore? || pc.Reap?
  }

  ghost predicate Invariant(c: Config, s: State) {
    c.Wf() && s.fs.Wf() && StagedHeld(c, s) && SourcesApart(s) && Bound(c, s) && RetiredHeld(c, s)
  }

  /** From the moment it is made until it moves, the staging directory is where
      it was made, under its own name. */
  ghost predicate StagedHeld(c: Config, s: State) {
    && (s.pc.Inspect? || s.pc.OpenAdmit? || s.pc.Stage? ==> c.staged !in s.fs.links && s.stagedId.None?)
    && (Staging(s.pc) ==> s.fs.IsDir(c.staged) && s.stagedId == Some(s.fs.links[c.staged]))
  }

  ghost predicate SourcesApart(s: State) {
    && (s.stagedId.Some? ==> s.stagedId.value < s.fs.next && s.stagedId.value !in s.sources)
    && (forall id <- s.sources :: id < s.fs.next)
    && (s.stagedId.None? ==> s.sources == {})
  }

  /** What each stage of the publication knows about the admitted object. */
  ghost predicate Bound(c: Config, s: State) {
    && (Cleared(s.pc) ==> !s.admission.Vacant? && s.admission.id !in s.sources)
    && (Retiring(s.pc) ==> s.admission.Forced?)
    && (s.admission.Forced? ==> c.force)
  }

  /** Once proven, the retired name is the admitted directory. */
  ghost predicate RetiredHeld(c: Config, s: State) {
    Proven(s.pc) ==> s.admission.Forced? && s.fs.IsDir(c.retired) && s.fs.links[c.retired] == s.admission.id
  }

  lemma StepKeepsInvariant(c: Config, s: State, t: Turn)
    requires Invariant(c, s)
    ensures Invariant(c, Step(c, s, t))
  {
    StepKeepsWf(c, s, t);
    StepKeepsStaged(c, s, t);
    StepKeepsBound(c, s, t);
    StepKeepsRetired(c, s, t);
    StepKeepsSourcesApart(c, s, t);
  }

  /** The name is free as before, or leads to the same object, of the same kind. */
  ghost predicate Keeps(before: Fs, after: Fs, n: Name) {
    Undisturbed(before, after, n) && before.IsDir(n) == after.IsDir(n)
  }

  lemma RenameKeeps(fs: Fs, from: Name, to: Name, n: Name)
    requires fs.Wf() && n != from && n != to
    ensures Keeps(fs, Rename(fs, from, to).fs, n)
  {
  }

  lemma RemoveKeeps(fs: Fs, m: Name, fails: bool, left: Contents, n: Name)
    requires fs.Wf() && n != m
    ensures Keeps(fs, RemoveDir(fs, m).fs, n) && Keeps(fs, RemoveDirAll(fs, m, fails, left).fs, n)
  {
  }

  lemma CreateKeeps(fs: Fs, m: Name, contents: Contents, n: Name)
    requires fs.Wf()
    ensures n != m ==> Keeps(fs, CreateDir(fs, m).fs, n)
    ensures Keeps(fs, Write(fs, m, contents), n)
  {
  }

  /** A call that fails leaves everything where it was. */
  lemma FailureKeeps(fs: Fs, fails: bool, from: Name, to: Name)
    ensures !Attempt(fs, fails, Rename(fs, from, to)).ok ==> Attempt(fs, fails, Rename(fs, from, to)).fs == fs
    ensures !Attempt(fs, fails, CreateDir(fs, to)).ok ==> Attempt(fs, fails, CreateDir(fs, to)).fs == fs
  {
  }

  lemma StepKeepsStaged(c: Config, s: State, t: Turn)
    requires c.Wf() && s.fs.Wf() && StagedHeld(c, s)
    ensures StagedHeld(c, Step(c, s, t))
  {
    if s.pc.Stage? {
      hide Rename, RemoveDir, RemoveDirAll;
    } else if Moving(s.pc) {
      FailureKeeps(s.fs, t.fails, c.staged, c.name);
      hide Rename, RemoveDir, RemoveDirAll, CreateDir;
    } else if !s.pc.CleanUp? && !s.pc.Reap? {
      OtherStepKeeps(c, s, t);
      hide Call;
    }
  }

  lemma OtherStepKeeps(c: Config, s: State, t: Turn)
    requires c.Wf() && s.fs.Wf() && !s.pc.Stage? && !Moving(s.pc) && !s.pc.CleanUp?
    ensures Keeps(s.fs, Call(c, s, t).fs, c.staged)
  {
    hide Rename, RemoveDir, RemoveDirAll, CreateDir, Write;
    match s.pc
    case Fill => CreateKeeps(s.fs, c.staged, if t.fails then t.left else c.bundle, c.staged);
    case ClearEmpty => RemoveKeeps(s.fs, c.name, false, map[], c.staged);
    case Recreate => CreateKeeps(s.fs, c.name, map[], c.staged);
    case Retire => RenameKeeps(s.fs, c.name, c.retired, c.staged);
    case PutBack => RenameKeeps(s.fs, c.retired, c.name, c.staged);
    case Restore => RenameKeeps(s.fs, c.retired, c.name, c.staged);
    case Reap => RemoveKeeps(s.fs, c.retired, t.fails, t.left, c.staged);
    case _ =>
  }

  lemma StepKeepsBound(c: Config, s: State, t: Turn)
    requires SourcesApart(s) && Bound(c, s)
    ensures Bound(c, Step(c, s, t))
  {
  }

  lemma StepKeepsRetired(c: Config, s: State, t: Turn)
    requires c.Wf() && s.fs.Wf() && Bound(c, s) && RetiredHeld(c, s)
    ensures RetiredHeld(c, Step(c, s, t))
  {
    hide Fs.Wf;
    if s.pc.MoveForced? {
      MoveLeavesRetired(c, s.fs);
      hide Rename;
    } else {
      assert s.pc.Reopen? ==> Call(c, s, t).fs == s.fs;
      hide Call;
    }
  }

  lemma MoveLeavesRetired(c: Config, fs: Fs)
    requires c.Wf() && fs.Wf() && fs.IsDir(c.retired)
    ensures
      var moved := Rename(fs, c.staged, c.name).fs;
      moved.IsDir(c.retired) && moved.links[c.retired] == fs.links[c.retired]
  {
  }

  lemma StepKeepsSourcesApart(c: Config, s: State, t: Turn)
    requires s.fs.Wf() && StagedHeld(c, s) && SourcesApart(s)
    ensures SourcesApart(Step(c, s, t))
  {
  }

  lemma StepKeepsWf(c: Config, s: State, t: Turn)
    requires s.fs.Wf()
    ensures Step(c, s, t).fs.Wf() && s.fs.next <= Step(c, s, t).fs.next
  {
    match s.pc
    case Retire => RenameKeepsWf(s.fs, c.name, c.retired);
    case PutBack => RenameKeepsWf(s.fs, c.retired, c.name);
    case Restore => RenameKeepsWf(s.fs, c.retired, c.name);
    case MoveVacant => RenameKeepsWf(s.fs, c.staged, c.name);
    case MoveEmpty => RenameKeepsWf(s.fs, c.staged, c.name);
    case MoveForced => RenameKeepsWf(s.fs, c.staged, c.name);
    case Stage => CreateKeepsWf(s.fs, c.staged);
    case Recreate => CreateKeepsWf(s.fs, c.name);
    case ClearEmpty => RemoveKeepsWf(s.fs, c.name, false, map[]);
    case Reap => RemoveKeepsWf(s.fs, c.retired, t.fails, t.left);
    case CleanUp(_) => RemoveKeepsWf(s.fs, c.staged, t.fails, t.left);
    case _ =>
  }

  lemma CreateKeepsWf(fs: Fs, n: Name)
    requires fs.Wf()
    ensures CreateDir(fs, n).fs.Wf()
  {
  }

  lemma RemoveKeepsWf(fs: Fs, n: Name, fails: bool, left: Contents)
    requires fs.Wf()
    ensures RemoveDir(fs, n).fs.Wf()
    ensures RemoveDirAll(fs, n, fails, left).fs.Wf()
  {
  }

  lemma RenameKeepsWf(fs: Fs, from: Name, to: Name)
    requires fs.Wf()
    ensures Rename(fs, from, to).fs.Wf()
  {
  }

  lemma EnvironmentKeepsInvariant(c: Config, s: State, s': State)
    requires Invariant(c, s) && Environment(c, s, s')
    ensures Invariant(c, s')
  {
  }

  /** The name a call may free for another object. */
  function Target(c: Config, pc: Pc): Option<Name> {
    if Moving(pc) || pc.ClearEmpty? || pc.PutBack? || pc.Restore? then Some(c.name)
    else if pc.Retire? then Some(c.retired)
    else None
  }

  /** What stands at that name: an empty directory or, when what moves there is no
      directory, an object that is none either. */
  ghost predicate Displaced(c: Config, s: State, id: ObjectId) {
    var to := Target(c, s.pc);
    && to.Some? && to.value in s.fs.links && s.fs.links[to.value] == id
    && (s.fs.IsEmptyDir(to.value)
        || (s.pc.Retire? && !s.fs.IsDir(c.name) && !s.fs.IsDir(c.retired))
        || (s.pc.PutBack? && !s.fs.IsDir(c.retired) && !s.fs.IsDir(c.name)))
  }

  /** The admitted bundle, once it is published over. */
  ghost predicate Reaped(c: Config, s: State, id: ObjectId) {
    s.pc.Reap? && c.force && s.admission == Forced(id) && id !in s.sources
  }

  /** The staging directory, while it is filled or removed. */
  ghost predicate OwnStage(s: State, id: ObjectId) {
    (s.pc.Fill? || s.pc.CleanUp?) && s.stagedId == Some(id) && id !in s.sources
  }

  lemma RenameTouches(fs: Fs, from: Name, to: Name, id: ObjectId)
    requires fs.Wf() && id in Touched(fs, Rename(fs, from, to).fs)
    ensures to in fs.links && fs.links[to] == id && from in fs.links
    ensures fs.IsEmptyDir(to) || (!fs.IsDir(to) && !fs.IsDir(from))
  {
    if Named(fs, id) && !(to in fs.links && fs.links[to] == id) {
      RenameKeepsNames(fs, from, to, id);
    }
  }

  lemma RenameKeepsNames(fs: Fs, from: Name, to: Name, id: ObjectId)
    requires Named(fs, id) && !(to in fs.links && fs.links[to] == id)
    ensures Named(Rename(fs, from, to).fs, id)
  {
    var after := Rename(fs, from, to).fs;
    var n :| n in fs.links && fs.links[n] == id;
    var m := if n in after.links && after.links[n] == id then n else to;
    assert m in after.links && after.links[m] == id;
  }

  lemma RemoveTouches(fs: Fs, n: Name, fails: bool, left: Contents, id: ObjectId)
    requires fs.Wf()
    ensures id in Touched(fs, RemoveDir(fs, n).fs) ==> fs.IsEmptyDir(n) && fs.links[n] == id
    ensures id in Touched(fs, RemoveDirAll(fs, n, fails, left).fs) ==> fs.IsDir(n) && fs.links[n] == id
  {
    if Named(fs, id) {
      var m :| m in fs.links && fs.links[m] == id;
      if m != n {
        assert m in RemoveDir(fs, n).fs.links && m in RemoveDirAll(fs, n, fails, left).fs.links;
      }
    }
  }

  lemma CreateTouches(fs: Fs, n: Name, contents: Contents, id: ObjectId)
    requires fs.Wf()
    ensures id !in Touched(fs, CreateDir(fs, n).fs)
    ensures id in Touched(fs, Write(fs, n, contents)) ==> fs.IsDir(n) && fs.links[n] == id
  {
    if Named(fs, id) {
      var m :| m in fs.links && fs.links[m] == id;
      assert m in CreateDir(fs, n).fs.links && m in Write(fs, n, contents).links;
    }
  }

  /** One call of the export. The objects it removes, empties, changes or
      overwrites are the forced directory, the export's own stage, or what stands
      at the name it moves something to. */
  lemma StepTouches(c: Config, s: State, t: Turn, id: ObjectId)
    requires Invariant(c, s) && id in Touched(s.fs, Step(c, s, t).fs)
    ensures Reaped(c, s, id) || OwnStage(s, id) || Displaced(c, s, id)
  {
    hide Touched, Rename, RemoveDir, RemoveDirAll, CreateDir, Write, Next;
    NothingTouched(s.fs, id);
    match s.pc
    case Stage => CreateTouches(s.fs, c.staged, map[], id);
    case Recreate => CreateTouches(s.fs, c.name, map[], id);
    case Fill => CreateTouches(s.fs, c.staged, if t.fails then t.left else c.bundle, id);
    case CleanUp(_) => RemoveTouches(s.fs, c.staged, t.fails, t.left, id);
    case Reap => RemoveTouches(s.fs, c.retired, t.fails, t.left, id);
    case ClearEmpty => RemoveTouches(s.fs, c.name, t.fails, t.left, id);
    case _ => MoveTouches(c, s, t, id);
  }

  lemma NothingTouched(fs: Fs, id: ObjectId)
    ensures id !in Touched(fs, fs)
  {
  }

  lemma MoveTouches(c: Config, s: State, t: Turn, id: ObjectId)
    requires Invariant(c, s) && id in Touched(s.fs, Step(c, s, t).fs)
    requires !s.pc.Stage? && !s.pc.Recreate? && !s.pc.Fill? && !s.pc.CleanUp? && !s.pc.Reap? && !s.pc.ClearEmpty?
    ensures Displaced(c, s, id)
  {
    hide Touched, Rename, RemoveDir, RemoveDirAll, CreateDir, Write, Next, Built;
    NothingTouched(s.fs, id);
    if Moving(s.pc) {
      RenameTouches(s.fs, c.staged, c.name, id);
    } else if s.pc.Retire? {
      RenameTouches(s.fs, c.name, c.retired, id);
    } else {
      RenameTouches(s.fs, c.retired, c.name, id);
    }
  }

  lemma {:induction false} RunKeepsInvariant(c: Config, run: seq<State>, i: nat)
    requires Run(c, run) && i < |run|
    ensures Invariant(c, run[i])
  {
    if i > 0 {
      RunKeepsInvariant(c, run, i - 1);
      if Program(c, run[i-1], run[i]) {
        var t :| run[i] == Step(c, run[i-1], t);
        StepKeepsInvariant(c, run[i-1], t);
      } else {
        EnvironmentKeepsInvariant(c, run[i-1], run[i]);
      }
    }
  }

  /** A forced admission was given with `--force`, to the non-empty directory
      that stood at the destination when it was opened. */
  ghost predicate GivenAt(c: Config, s: State, id: ObjectId) {
    s.pc.OpenAdmit? && c.force && s.fs.IsDir(c.name) && s.fs.links[c.name] == id && !s.fs.IsEmptyDir(c.name)
  }

  lemma {:induction false} ForcedWasGiven(c: Config, run: seq<State>, i: nat)
    requires Run(c, run) && i < |run| && run[i].admission.Forced?
    ensures exists j :: 0 <= j < i && GivenAt(c, run[j], run[i].admission.id)
  {
    if Program(c, run[i-1], run[i]) && run[i-1].pc.OpenAdmit? {
      var t :| run[i] == Step(c, run[i-1], t);
      assert GivenAt(c, run[i-1], run[i].admission.id) || run[i-1].admission.Forced?;
    }
    if run[i-1].admission == run[i].admission {
      ForcedWasGiven(c, run, i - 1);
    }
  }

  /** Whatever happens at the destination name meanwhile, the objects a run
      removes, empties, changes or overwrites are the directory the operator
      forced, never the root of a tree the export read; its own stage; and what
      stands at the name something is moved to, an empty directory or, when what
      is put aside or put back is no directory, another object that is none. */
  lemma OnlyTheseAreTouched(c: Config, run: seq<State>, i: nat, t: Turn, id: ObjectId)
    requires Run(c, run) && i + 1 < |run| && run[i+1] == Step(c, run[i], t)
    requires id in Touched(run[i].fs, run[i+1].fs)
    ensures
      || (Reaped(c, run[i], id) && exists j :: 0 <= j < i && GivenAt(c, run[j], id))
      || OwnStage(run[i], id)
      || Displaced(c, run[i], id)
  {
    RunKeepsInvariant(c, run, i);
    StepTouches(c, run[i], t, id);
    if Reaped(c, run[i], id) {
      ForcedWasGiven(c, run, i);
    }
  }

  /** So the only non-empty directory a run deletes, empties or changes is the
      one the operator forced, never a tree the export read, or its own stage. */
  lemma OnlyTheForcedIsDeleted(c: Config, run: seq<State>, i: nat, t: Turn, id: ObjectId)
    requires Run(c, run) && i + 1 < |run| && run[i+1] == Step(c, run[i], t)
    requires id in Destroyed(run[i].fs, run[i+1].fs)
    ensures id !in run[i].sources
    ensures run[i].stagedId == Some(id) || exists j :: 0 <= j < i && GivenAt(c, run[j], id)
  {
    RunKeepsInvariant(c, run, i);
    OnlyTheseAreTouched(c, run, i, t, id);
    if Displaced(c, run[i], id) {
      NoDirectoryDisplaced(c, run[i], id);
    }
  }

  lemma NoDirectoryDisplaced(c: Config, s: State, id: ObjectId)
    requires s.fs.Wf() && id in s.fs.nodes && s.fs.nodes[id].Directory? && s.fs.nodes[id].contents != map[]
    ensures !Displaced(c, s, id)
  {
  }

  // ------------------------------------------------- the trees that were read

  /** The copy is over. */
  predicate Copied(pc: Pc) {
    !pc.Inspect? && !pc.OpenAdmit? && !pc.Stage? && !pc.Fill?
  }

  lemma StepKeepsSources(c: Config, s: State, t: Turn)
    requires Copied(s.pc)
    ensures Copied(Step(c, s, t).pc) && Step(c, s, t).sources == s.sources
  {
    hide Call;
  }

  lemma {:induction false} SourcesStay(c: Config, run: seq<State>, k: nat, i: nat)
    requires Run(c, run) && k <= i < |run| && Copied(run[k].pc)
    ensures Copied(run[i].pc) && run[i].sources == run[k].sources
  {
    hide Rely;
    if k < i {
      SourcesStay(c, run, k, i - 1);
      if Program(c, run[i-1], run[i]) {
        var t :| run[i] == Step(c, run[i-1], t);
        StepKeepsSources(c, run[i-1], t);
      }
    }
  }

  /** Once the copy has read the trees whose roots it reports, none of these roots
      is deleted, emptied or changed, wherever others move it meanwhile; an empty
      one may be replaced. */
  lemma NoSourceIsDeleted(c: Config, run: seq<State>, k: nat, t: Turn, i: nat, u: Turn, read: seq<ObjectId>, id: ObjectId)
    requires Run(c, run) && k < i && i + 1 < |run|
    requires run[k].pc.Fill? && run[k+1] == Step(c, run[k], t) && !t.fails && t.read == set h | h in read
    requires run[i+1] == Step(c, run[i], u)
    requires id in read && id in run[k].fs.nodes && run[k].stagedId != Some(id)
    ensures id !in Destroyed(run[i].fs, run[i+1].fs)
    ensures id in Touched(run[i].fs, run[i+1].fs) ==> Displaced(c, run[i], id)
  {
    hide Destroyed, Touched, Displaced, Rely;
    assert id in run[k+1].sources && Copied(run[k+1].pc) by { FillTakesSources(c, run[k], t); }
    SourcesStay(c, run, k + 1, i);
    if id in Destroyed(run[i].fs, run[i+1].fs) {
      OnlyTheForcedIsDeleted(c, run, i, u, id);
    }
    if id in Touched(run[i].fs, run[i+1].fs) {
      OnlyTheseAreTouched(c, run, i, u, id);
    }
  }

  lemma FillTakesSources(c: Config, s: State, t: Turn)
    requires s.pc.Fill? && !t.fails
    ensures Copied(Step(c, s, t).pc)
    ensures Step(c, s, t).sources == set id | id in t.read && id in s.fs.nodes && Some(id) != s.stagedId
  {
  }

  // ------------------------------------------------- what the destination holds

  /** From the end of the copy until it moves, the staged name holds the whole
      bundle. */
  ghost predicate Built(c: Config, s: State) {
    Staging(s.pc) && !s.pc.Fill? && !s.pc.CleanUp? ==> s.fs.IsDir(c.staged) && s.fs.nodes[s.fs.links[c.staged]] == Directory(c.bundle)
  }

  lemma StepKeepsBuilt(c: Config, s: State, t: Turn)
    requires c.Wf() && s.fs.Wf() && StagedHeld(c, s) && Built(c, s)
    ensures Built(c, Step(c, s, t))
  {
  }

  lemma {:induction false} RunKeepsBuilt(c: Config, run: seq<State>, i: nat)
    requires Run(c, run) && i < |run|
    ensures Built(c, run[i])
  {
    if i > 0 {
      RunKeepsBuilt(c, run, i - 1);
      RunKeepsInvariant(c, run, i - 1);
      if Program(c, run[i-1], run[i]) {
        var t :| run[i] == Step(c, run[i-1], t);
        StepKeepsBuilt(c, run[i-1], t);
      }
    }
  }

  /** What one call of the export may make of the destination name: nothing new,
      nothing at all, the whole bundle, a fresh empty directory, or the object
      that stood under the retired name. */
  ghost predicate Whole(c: Config, s: State, s': State) {
    || c.name !in s'.fs.links
    || (c.name in s.fs.links && s'.fs.links[c.name] == s.fs.links[c.name] && SameNode(s.fs, s'.fs, s.fs.links[c.name]))
    || (s.stagedId.Some? && s'.fs.Holds(c.name, s.stagedId.value, c.bundle))
    || s'.fs.Holds(c.name, s.fs.next, map[])
    || (c.retired in s.fs.links && s'.fs.links[c.name] == s.fs.links[c.retired] && SameNode(s.fs, s'.fs, s.fs.links[c.retired]))
  }

  ghost predicate SameNode(before: Fs, after: Fs, id: ObjectId) {
    id in before.nodes && id in after.nodes && before.nodes[id] == after.nodes[id]
  }

  lemma StepLeavesWhole(c: Config, s: State, t: Turn)
    requires Invariant(c, s) && Built(c, s)
    ensures Whole(c, s, Step(c, s, t))
  {
    match s.pc
    case Retire => RetireLeavesWhole(c, s, t);
    case PutBack => BackLeavesWhole(c, s, t);
    case Restore => BackLeavesWhole(c, s, t);
    case MoveVacant => MoveLeavesWhole(c, s, t);
    case MoveEmpty => MoveLeavesWhole(c, s, t);
    case MoveForced => MoveLeavesWhole(c, s, t);
    case _ => hide Rename, Next;
  }

  lemma RetireLeavesWhole(c: Config, s: State, t: Turn)
    requires Invariant(c, s) && s.pc.Retire?
    ensures Whole(c, s, Step(c, s, t))
  {
    hide Next, Built, RemoveDir, RemoveDirAll, CreateDir, Write;
  }

  lemma BackLeavesWhole(c: Config, s: State, t: Turn)
    requires Invariant(c, s) && (s.pc.PutBack? || s.pc.Restore?)
    ensures Whole(c, s, Step(c, s, t))
  {
    hide Next, Built, RemoveDir, RemoveDirAll, CreateDir, Write;
  }

  lemma MoveLeavesWhole(c: Config, s: State, t: Turn)
    requires Invariant(c, s) && Built(c, s) && Moving(s.pc)
    ensures Whole(c, s, Step(c, s, t))
  {
  }

  /** The destination is never partly written, whoever interferes, and a move
      that succeeds leaves the whole bundle there. */
  lemma NeverPartlyWritten(c: Config, run: seq<State>, i: nat, t: Turn)
    requires Run(c, run) && i + 1 < |run| && run[i+1] == Step(c, run[i], t)
    ensures Whole(c, run[i], run[i+1])
    ensures Moving(run[i].pc) && (run[i+1].pc.Published? || run[i+1].pc.Reap?) ==>
              run[i].stagedId.Some? && run[i+1].fs.Holds(c.name, run[i].stagedId.value, c.bundle)
  {
    RunKeepsInvariant(c, run, i);
    RunKeepsBuilt(c, run, i);
    StepLeavesWhole(c, run[i], t);
    if Moving(run[i].pc) && (run[i+1].pc.Published? || run[i+1].pc.Reap?) {
      MovePublishes(c, run[i], t);
    }
  }

  lemma MovePublishes(c: Config, s: State, t: Turn)
    requires Invariant(c, s) && Built(c, s)
    requires Moving(s.pc) && (Step(c, s, t).pc.Published? || Step(c, s, t).pc.Reap?)
    ensures s.stagedId.Some? && Step(c, s, t).fs.Holds(c.name, s.stagedId.value, c.bundle)
  {
  }
}
