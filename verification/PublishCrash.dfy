/** What a crash or a returned error leaves behind when only the export touches
    the destination. */
module PublishCrash {
  import opened Options
  import opened Filesystem
  import opened Publish
  import opened PublishSafety

  // ------------------------------------------------- an admitted bundle

  ghost predicate OldInPlace(c: Config, fs: Fs, id: ObjectId, was: Contents) {
    fs.Holds(c.name, id, was)
  }

  ghost predicate OldAside(c: Config, fs: Fs, id: ObjectId, was: Contents) {
    fs.Holds(c.retired, id, was) && c.name !in fs.links
  }

  ghost predicate NewInPlace(c: Config, s: State) {
    s.stagedId.Some? && s.fs.Holds(c.name, s.stagedId.value, c.bundle)
  }

  predicate Aside(pc: Pc) {
    || pc.Reprobe? || pc.Reopen? || pc.MoveForced? || pc.Restore?
    || ((pc.CleanUp? || pc.Refused?) && (pc.reason.ReprobeFailed? || pc.reason.RestoreFailed?))
  }

  /** The calls after which an error is returned without the old bundle back. */
  predicate Stranded(failed: set<Pc>) {
    Reprobe in failed || Reopen in failed || Restore in failed
  }

  ghost predicate ForcedPhase(c: Config, s: State, id: ObjectId, was: Contents) {
    && c.Wf() && s.fs.Wf() && c.force && was != map[]
    && Decided(s, id) && Placed(c, s, id, was) && StagedThere(c, s)
  }

  /** What the export knows about the old bundle. */
  ghost predicate Decided(s: State, id: ObjectId) {
    && !s.pc.PutBack?
    && (s.pc.OpenAdmit? || s.pc.OpenDest? || s.pc.Reopen? ==> s.seen == id)
    && (!s.pc.Inspect? && !s.pc.OpenAdmit? && !s.pc.Refused? ==> s.admission == Forced(id))
  }

  /** Where the old bundle is, and from when on the new one is in its place. */
  ghost predicate Placed(c: Config, s: State, id: ObjectId, was: Contents) {
    if s.pc.Published? || s.pc.Reap? then NewInPlace(c, s)
    else if Aside(s.pc) then OldAside(c, s.fs, id, was)
    else OldInPlace(c, s.fs, id, was)
  }

  ghost predicate StagedThere(c: Config, s: State) {
    && (s.pc.Inspect? || s.pc.OpenAdmit? || s.pc.Stage? ==> c.staged !in s.fs.links)
    && (s.pc.Fill? ==> s.stagedId.Some? && s.fs.IsDir(c.staged) && s.fs.links[c.staged] == s.stagedId.value)
    && (Ready(s.pc) ==> s.stagedId.Some? && s.fs.Holds(c.staged, s.stagedId.value, c.bundle))
  }

  predicate Ready(pc: Pc) {
    || pc.ProbeVacant? || pc.MoveVacant? || pc.ProbeDest? || pc.OpenDest? || pc.ClearEmpty? || pc.MoveEmpty?
    || pc.ProbeRetired? || pc.Retire? || pc.Reprobe? || pc.Reopen? || pc.MoveForced?
  }

  /** Which failed calls led here. */
  ghost predicate Recorded(s: State) {
    && (s.pc.CleanUp? || s.pc.Refused? ==> (Stranded(s.failed) <==> Aside(s.pc)))
    && (!s.pc.CleanUp? && !s.pc.Refused? && !s.pc.Published? ==> !Stranded(s.failed))
  }

  lemma ForcedStep(c: Config, s: State, t: Turn, id: ObjectId, was: Contents)
    requires ForcedPhase(c, s, id, was)
    ensures ForcedPhase(c, Step(c, s, t), id, was)
  {
    StepKeepsWf(c, s, t);
    DecidedStep(c, s, t, id, was);
    PlacedStep(c, s, t, id, was);
    StagedStep(c, s, t);
  }

  lemma DecidedStep(c: Config, s: State, t: Turn, id: ObjectId, was: Contents)
    requires ForcedPhase(c, s, id, was)
    ensures Decided(Step(c, s, t), id)
  {
    hide Call;
  }

  lemma PlacedStep(c: Config, s: State, t: Turn, id: ObjectId, was: Contents)
    requires ForcedPhase(c, s, id, was)
    ensures Placed(c, Step(c, s, t), id, was)
  {
    match s.pc
    case Stage => CreateFrame(s.fs, c.staged, c.name);
    case Fill => WriteFrame(s.fs, c.staged, if t.fails then t.left else c.bundle, c.name);
    case Retire => RetireStep(c, s, t, id, was);
    case MoveForced => MoveForcedStep(c, s, t, id, was);
    case Restore => RestoreStep(c, s, t, id, was);
    case Reap => RemoveFrame(s.fs, c.retired, t, c.name);
    case CleanUp(_) =>
      RemoveFrame(s.fs, c.staged, t, c.name);
      RemoveFrame(s.fs, c.staged, t, c.retired);
    case _ =>
      if s.pc.MoveVacant? || s.pc.MoveEmpty? || s.pc.ClearEmpty? || s.pc.Recreate? {
        RefusedMovePlaced(c, s, t, id, was);
      } else {
        ProbePlaced(c, s, t, id, was);
      }
  }

  /** What is done to a vacant or empty destination does not touch a bundle. */
  lemma RefusedMovePlaced(c: Config, s: State, t: Turn, id: ObjectId, was: Contents)
    requires ForcedPhase(c, s, id, was) && (s.pc.MoveVacant? || s.pc.MoveEmpty? || s.pc.ClearEmpty? || s.pc.Recreate?)
    ensures Placed(c, Step(c, s, t), id, was)
  {
  }

  /** A probe moves nothing. */
  lemma ProbePlaced(c: Config, s: State, t: Turn, id: ObjectId, was: Contents)
    requires ForcedPhase(c, s, id, was)
    requires !s.pc.Stage? && !s.pc.Fill? && !s.pc.Retire? && !s.pc.MoveForced? && !s.pc.Restore? && !s.pc.Reap? && !s.pc.CleanUp?
    requires !s.pc.MoveVacant? && !s.pc.MoveEmpty? && !s.pc.ClearEmpty? && !s.pc.Recreate?
    ensures Placed(c, Step(c, s, t), id, was)
  {
    hide Rename, RemoveDir, CreateDir, RemoveDirAll, Write;
  }

  // A call on one name leaves a directory under another alone.

  lemma CreateFrame(fs: Fs, n: Name, m: Name)
    requires fs.Wf() && n != m && fs.IsDir(m)
    ensures CreateDir(fs, n).fs.IsDir(m) && KeptAt(fs, CreateDir(fs, n).fs, m)
  {
  }

  lemma WriteFrame(fs: Fs, n: Name, contents: Contents, m: Name)
    requires fs.Wf() && n != m && fs.IsDir(m)
    ensures Write(fs, n, contents).IsDir(m) && KeptAt(fs, Write(fs, n, contents), m)
  {
  }

  lemma RemoveFrame(fs: Fs, n: Name, t: Turn, m: Name)
    requires fs.Wf() && n != m
    ensures fs.IsDir(m) ==> RemoveDirAll(fs, n, t.fails, t.left).fs.IsDir(m) && KeptAt(fs, RemoveDirAll(fs, n, t.fails, t.left).fs, m)
    ensures m !in fs.links ==> m !in RemoveDirAll(fs, n, t.fails, t.left).fs.links
  {
  }

  lemma RenameFrame(fs: Fs, from: Name, to: Name, m: Name)
    requires fs.Wf() && m != from && m != to && fs.IsDir(m)
    ensures Rename(fs, from, to).fs.IsDir(m) && KeptAt(fs, Rename(fs, from, to).fs, m)
  {
  }

  ghost predicate KeptAt(before: Fs, after: Fs, m: Name)
    requires before.IsDir(m) && after.IsDir(m)
  {
    after.links[m] == before.links[m] && after.nodes[after.links[m]] == before.nodes[before.links[m]]
  }

  lemma RetireStep(c: Config, s: State, t: Turn, id: ObjectId, was: Contents)
    requires ForcedPhase(c, s, id, was) && s.pc.Retire?
    ensures Placed(c, Step(c, s, t), id, was)
  {
  }

  lemma MoveForcedStep(c: Config, s: State, t: Turn, id: ObjectId, was: Contents)
    requires ForcedPhase(c, s, id, was) && s.pc.MoveForced?
    ensures Placed(c, Step(c, s, t), id, was)
  {
  }

  lemma RestoreStep(c: Config, s: State, t: Turn, id: ObjectId, was: Contents)
    requires ForcedPhase(c, s, id, was) && s.pc.Restore?
    ensures Placed(c, Step(c, s, t), id, was)
  {
  }

  lemma StagedStep(c: Config, s: State, t: Turn)
    requires c.Wf() && s.fs.Wf() && StagedThere(c, s)
    ensures StagedThere(c, Step(c, s, t))
  {
    hide Next;
    NextStage(c, s, t);
    if s.pc.Retire? {
      RenameFrame(s.fs, c.name, c.retired, c.staged);
    }
    if s.pc.ClearEmpty? {
      ClearFrame(s.fs, c.name, c.staged);
    }
    if Ready(s.pc) && !s.pc.Retire? && !s.pc.ClearEmpty? && !Moving(s.pc) {
      assert Call(c, s, t).fs == s.fs;
    }
    hide Rename, RemoveDir, RemoveDirAll;
  }

  /** The stages come in order. */
  lemma NextStage(c: Config, s: State, t: Turn)
    ensures
      var next := Step(c, s, t).pc;
      && !next.Inspect? && (next.OpenAdmit? ==> s.pc.Inspect?) && (next.Stage? ==> s.pc.Inspect? || s.pc.OpenAdmit?)
      && (next.Fill? ==> s.pc.Stage? && Call(c, s, t).ok)
      && (Ready(next) ==> !Moving(s.pc) && ((s.pc.Fill? && Call(c, s, t).ok) || Ready(s.pc)))
  {
    hide Call, Decision, Seen;
  }

  lemma ClearFrame(fs: Fs, n: Name, m: Name)
    requires fs.Wf() && n != m && fs.IsDir(m)
    ensures RemoveDir(fs, n).fs.IsDir(m) && KeptAt(fs, RemoveDir(fs, n).fs, m)
  {
  }

  lemma RecordedStep(c: Config, s: State, t: Turn, id: ObjectId, was: Contents)
    requires ForcedPhase(c, s, id, was) && Recorded(s)
    ensures Recorded(Step(c, s, t))
  {
    hide ForcedPhase, Call, Decision, Seen;
    CallsAnswer(c, s, t, id, was);
  }

  lemma CallsAnswer(c: Config, s: State, t: Turn, id: ObjectId, was: Contents)
    requires ForcedPhase(c, s, id, was)
    ensures s.pc.Restore? || s.pc.Reprobe? || s.pc.Reopen? ==> Call(c, s, t).ok == !t.fails
    ensures s.pc.Reopen? ==> s.fs.IsDir(c.retired)
  {
  }

  lemma {:induction false} ForcedRun(c: Config, run: seq<State>, i: nat, id: ObjectId, was: Contents)
    requires QuietRun(c, run) && i < |run| && c.force && was != map[] && run[0].fs.Holds(c.name, id, was)
    ensures ForcedPhase(c, run[i], id, was) && Recorded(run[i])
  {
    if i > 0 {
      ForcedRun(c, run, i - 1, id, was);
      var t :| run[i] == Step(c, run[i-1], t);
      ForcedStep(c, run[i-1], t, id, was);
      RecordedStep(c, run[i-1], t, id, was);
    }
  }

  /** Stop the export anywhere: the old bundle is whole where it was, or whole
      under the retired name with the destination absent, or the whole new
      bundle is at the destination. */
  lemma CrashSafe(c: Config, run: seq<State>, i: nat, id: ObjectId, was: Contents)
    requires QuietRun(c, run) && i < |run| && c.force && was != map[] && run[0].fs.Holds(c.name, id, was)
    ensures OldInPlace(c, run[i].fs, id, was) || OldAside(c, run[i].fs, id, was) || NewInPlace(c, run[i])
    ensures run[i].pc.Published? ==> NewInPlace(c, run[i])
  {
    ForcedRun(c, run, i, id, was);
  }

  /** An export that returns an error leaves the old bundle where it was, the
      same object with the same contents, exactly when no probe of the retired
      name failed and no compensating rename failed; otherwise the old bundle is
      whole under the retired name. */
  lemma RolledBackUnlessStranded(c: Config, run: seq<State>, id: ObjectId, was: Contents)
    requires QuietRun(c, run) && c.force && was != map[] && run[0].fs.Holds(c.name, id, was)
    requires run[|run|-1].pc.Refused?
    ensures OldInPlace(c, run[|run|-1].fs, id, was) <==> !Stranded(run[|run|-1].failed)
    ensures OldAside(c, run[|run|-1].fs, id, was) <==> Stranded(run[|run|-1].failed)
  {
    ForcedRun(c, run, |run| - 1, id, was);
  }

  const FINE := Turn(false, map[], {})
  const FAULT := Turn(true, map[], {})

  lemma Extend(c: Config, run: seq<State>, t: Turn) returns (longer: seq<State>)
    requires QuietRun(c, run)
    ensures QuietRun(c, longer) && longer[0] == run[0] && longer[|longer|-1] == Step(c, run[|run|-1], t)
  {
    longer := run + [Step(c, run[|run|-1], t)];
    assert Program(c, longer[|run|-1], longer[|run|]);
    forall i | 0 < i < |longer| ensures Program(c, longer[i-1], longer[i]) {
      if i < |run| {
        assert longer[i] == run[i] && longer[i-1] == run[i-1];
      }
    }
  }

  /** An undisturbed forced export gets to the point where the copy is made. */
  lemma ReachProbe(c: Config, fs: Fs, id: ObjectId, was: Contents) returns (run: seq<State>)
    requires c.Wf() && fs.Wf() && c.force && was != map[] && fs.Holds(c.name, id, was)
    requires c.staged !in fs.links && c.retired !in fs.links
    ensures QuietRun(c, run) && run[0].fs == fs
    ensures
      var s := run[|run|-1];
      s.pc.ProbeDest? && s.admission == Forced(id) && s.sources == {} && s.failed == {} && c.retired !in s.fs.links
  {
    run := [Init(fs)];
    run := Extend(c, run, FINE);
    run := Extend(c, run, FINE);
    run := Extend(c, run, FINE);
    run := Extend(c, run, FINE);
  }

  lemma ReachReprobe(c: Config, fs: Fs, id: ObjectId, was: Contents) returns (run: seq<State>)
    requires c.Wf() && fs.Wf() && c.force && was != map[] && fs.Holds(c.name, id, was)
    requires c.staged !in fs.links && c.retired !in fs.links
    ensures QuietRun(c, run) && run[0].fs == fs && run[|run|-1].pc.Reprobe? && run[|run|-1].failed == {}
  {
    run := ReachProbe(c, fs, id, was);
    ForcedRun(c, run, |run| - 1, id, was);
    run := Extend(c, run, FINE);
    run := Extend(c, run, FINE);
    run := Extend(c, run, FINE);
    run := Extend(c, run, FINE);
  }

  /** Not every returned error leaves the destination as it was: from any
      forced start, one failing probe of the retired name is enough to return an
      error with the destination absent and the old bundle aside. */
  lemma OneFailedProbeStrands(c: Config, fs: Fs, id: ObjectId, was: Contents) returns (run: seq<State>)
    requires c.Wf() && fs.Wf() && c.force && was != map[] && fs.Holds(c.name, id, was)
    requires c.staged !in fs.links && c.retired !in fs.links
    ensures QuietRun(c, run) && run[0].fs == fs
    ensures run[|run|-1].pc == Refused(ReprobeFailed) && run[|run|-1].failed == {Reprobe}
    ensures OldAside(c, run[|run|-1].fs, id, was)
  {
    run := ReachReprobe(c, fs, id, was);
    run := Extend(c, run, FAULT);
    run := Extend(c, run, FINE);
    RolledBackUnlessStranded(c, run, id, was);
  }

  // ------------------------------------------------- nothing, or an empty directory, admitted

  /** The destination of an export over nothing, or over the empty directory
      `id` (`Some(id)`). */
  ghost predicate BareAtStart(c: Config, fs: Fs, start: Option<ObjectId>) {
    if start.None? then c.name !in fs.links else fs.Holds(c.name, start.value, map[])
  }

  ghost predicate BarePhase(c: Config, s: State, start: Option<ObjectId>) {
    && c.Wf() && s.fs.Wf() && (start.Some? ==> start.value < s.fs.next)
    && BareDecided(s, start) && BarePlaced(c, s, start) && StagedThere(c, s)
  }

  ghost predicate BareDecided(s: State, start: Option<ObjectId>) {
    && !Retiring(s.pc)
    && (s.pc.OpenAdmit? || s.pc.OpenDest? ==> start == Some(s.seen))
    && (!s.pc.Inspect? && !s.pc.OpenAdmit? && !s.pc.Refused? ==>
          s.admission == (if start.None? then Vacant else Empty(start.value)))
    && (s.pc.ProbeDest? || s.pc.ClearEmpty? || s.pc.MoveEmpty? || s.pc.Recreate? ==> start.Some?)
    && (s.pc.ProbeVacant? || s.pc.MoveVacant? ==> start.None?)
  }

  ghost predicate BarePlaced(c: Config, s: State, start: Option<ObjectId>) {
    if s.pc.Published? then NewInPlace(c, s)
    else if start.None? then c.name !in s.fs.links
    else if s.pc.MoveEmpty? then c.name !in s.fs.links && MoveEmpty !in s.failed && Recreate !in s.failed
    else if s.pc.Recreate? then c.name !in s.fs.links && MoveEmpty in s.failed && Recreate !in s.failed
    else if s.pc == CleanUp(MoveFailed) || s.pc == Refused(MoveFailed) then
      && MoveEmpty in s.failed
      && (if Recreate in s.failed then c.name !in s.fs.links else s.fs.IsEmptyDir(c.name) && s.fs.links[c.name] != start.value)
    else BareAtStart(c, s.fs, start) && MoveEmpty !in s.failed && Recreate !in s.failed
  }

  lemma BareStep(c: Config, s: State, t: Turn, start: Option<ObjectId>)
    requires BarePhase(c, s, start)
    ensures BarePhase(c, Step(c, s, t), start)
  {
    StepKeepsWf(c, s, t);
    StagedStep(c, s, t);
    BareDecidedStep(c, s, t, start);
    BarePlacedStep(c, s, t, start);
  }

  lemma BareDecidedStep(c: Config, s: State, t: Turn, start: Option<ObjectId>)
    requires BarePhase(c, s, start)
    ensures BareDecided(Step(c, s, t), start)
  {
    hide Call;
  }

  lemma BarePlacedStep(c: Config, s: State, t: Turn, start: Option<ObjectId>)
    requires BarePhase(c, s, start)
    ensures BarePlaced(c, Step(c, s, t), start)
  {
    match s.pc
    case Stage =>
      if start.Some? {
        CreateFrame(s.fs, c.staged, c.name);
      }
    case Fill =>
      if start.Some? {
        WriteFrame(s.fs, c.staged, if t.fails then t.left else c.bundle, c.name);
      }
    case CleanUp(_) => RemoveFrame(s.fs, c.staged, t, c.name);
    case MoveVacant => BareMoveStep(c, s, t, start);
    case MoveEmpty => BareMoveStep(c, s, t, start);
    case Recreate => BareMoveStep(c, s, t, start);
    case ClearEmpty => BareMoveStep(c, s, t, start);
    case _ => BareProbeStep(c, s, t, start);
  }

  lemma BareMoveStep(c: Config, s: State, t: Turn, start: Option<ObjectId>)
    requires BarePhase(c, s, start) && (s.pc.MoveVacant? || s.pc.MoveEmpty? || s.pc.Recreate? || s.pc.ClearEmpty?)
    ensures BarePlaced(c, Step(c, s, t), start)
  {
  }

  lemma BareProbeStep(c: Config, s: State, t: Turn, start: Option<ObjectId>)
    requires BarePhase(c, s, start) && !s.pc.MoveVacant? && !s.pc.MoveEmpty? && !s.pc.Recreate? && !s.pc.ClearEmpty?
    requires !s.pc.Stage? && !s.pc.Fill? && !s.pc.CleanUp?
    ensures BarePlaced(c, Step(c, s, t), start)
  {
    hide Rename, RemoveDir, RemoveDirAll, CreateDir, Write;
    assert Call(c, s, t).fs == s.fs;
    hide Call;
  }

  lemma {:induction false} BareRun(c: Config, run: seq<State>, i: nat, start: Option<ObjectId>)
    requires QuietRun(c, run) && i < |run| && BareAtStart(c, run[0].fs, start)
    ensures BarePhase(c, run[i], start)
  {
    if i > 0 {
      BareRun(c, run, i - 1, start);
      var t :| run[i] == Step(c, run[i-1], t);
      BareStep(c, run[i-1], t, start);
    }
  }

  /** Over nothing, a returned error leaves nothing. Over an empty directory it
      leaves an empty directory exactly when putting one back did not fail, and
      the same directory exactly when the move into place was never tried in
      vain: the one put back is a new object. */
  lemma BareRolledBack(c: Config, run: seq<State>, start: Option<ObjectId>)
    requires QuietRun(c, run) && BareAtStart(c, run[0].fs, start)
    ensures
      var s := run[|run|-1];
      && (s.pc.Published? ==> NewInPlace(c, s))
      && (s.pc.Refused? && start.None? ==> c.name !in s.fs.links)
      && (s.pc.Refused? && start.Some? ==>
            && (s.fs.IsEmptyDir(c.name) <==> Recreate !in s.failed)
            && (s.fs.Holds(c.name, start.value, map[]) <==> MoveEmpty !in s.failed))
  {
    BareRun(c, run, |run| - 1, start);
  }
}
