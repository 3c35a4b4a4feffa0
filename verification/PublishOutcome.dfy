/** How an export ends that nobody disturbs, told from where it starts and from
    the calls that fail. */
module PublishOutcome {
  import opened Options
  import opened Filesystem
  import opened Publish
  import opened PublishSafety
  import opened PublishCrash

  predicate Over(pc: Pc) {
    pc.Published? || pc.Refused?
  }

  // ------------------------------------------------- every export ends

  /** How many calls there may be left. */
  function Left(pc: Pc): nat {
    match pc
    case Inspect => 13
    case OpenAdmit => 12
    case Stage => 11
    case Fill => 10
    case ProbeVacant => 9
    case MoveVacant => 8
    case ProbeDest => 9
    case OpenDest => 8
    case ClearEmpty => 7
    case MoveEmpty => 6
    case Recreate => 2
    case ProbeRetired => 7
    case Retire => 6
    case Reprobe => 5
    case Reopen => 4
    case PutBack => 2
    case MoveForced => 3
    case Restore => 2
    case Reap => 1
    case CleanUp(_) => 1
    case Published => 0
    case Refused(_) => 0
  }

  /** Each call, however it goes and whatever others do before it, leads on. */
  lemma StepGoesOn(c: Config, s: State, t: Turn)
    ensures if Over(s.pc) then Step(c, s, t).pc == s.pc else Left(Step(c, s, t).pc) < Left(s.pc)
  {
    hide Call, Decision, Seen;
  }

  // ------------------------------------------------- the verdict

  function Copying(failed: set<Pc>, rest: Pc): Pc {
    if Stage in failed then Refused(StageFailed) else if Fill in failed then Refused(CopyFailed) else rest
  }

  function OverBundle(c: Config, fs: Fs, failed: set<Pc>): Pc {
    if c.retired in fs.links && ProbeRetired !in failed then Refused(RetiredExists)
    else if Retire in failed || (c.retired in fs.links && !fs.IsEmptyDir(c.retired)) then Refused(RetireFailed)
    else if Reprobe in failed || Reopen in failed then Refused(ReprobeFailed)
    else if MoveForced in failed then Refused(if Restore in failed then RestoreFailed else MoveFailed)
    else Published
  }

  function OverEmpty(failed: set<Pc>): Pc {
    if ClearEmpty in failed then Refused(ClearFailed) else if MoveEmpty in failed then Refused(MoveFailed) else Published
  }

  function OverDirectory(c: Config, fs: Fs, contents: Contents, wasRead: bool, failed: set<Pc>): Pc {
    if OpenAdmit in failed then Refused(InspectFailed)
    else if contents != map[] && !c.force then Refused(DestNotEmpty)
    else Copying(failed,
      if ProbeDest in failed || OpenDest in failed then Refused(ProbeFailed)
      else if wasRead then Refused(DestIsSource)
      else if contents == map[] then OverEmpty(failed)
      else OverBundle(c, fs, failed))
  }

  /** How the export ends that starts on `fs`, reads the trees `read`, and in which
      the calls `failed` fail. A failing probe of a vacant destination, or of the
      retired name, refuses nothing; nor does a failing last delete. */
  function Verdict(c: Config, fs: Fs, read: set<ObjectId>, failed: set<Pc>): Pc {
    if Inspect in failed then Refused(InspectFailed)
    else if c.name !in fs.links || fs.links[c.name] !in fs.nodes then
      Copying(failed, if MoveVacant in failed then Refused(MoveFailed) else Published)
    else match fs.nodes[fs.links[c.name]]
      case Symlink => Refused(DestIsSymlink)
      case Regular => Refused(DestNotADir)
      case Directory(contents) => OverDirectory(c, fs, contents, fs.links[c.name] in read, failed)
  }

  // ------------------------------------------------- runs that nobody disturbs

  ghost predicate Reading(c: Config, s: State, s': State, read: set<ObjectId>) {
    exists t: Turn :: s' == Step(c, s, t) && (s.pc.Fill? ==> t.read == read)
  }

  /** Only the export moves, and its copy reads the trees `read`. */
  ghost predicate CalmRun(c: Config, run: seq<State>, read: set<ObjectId>) {
    && |run| > 0 && c.Wf()
    && run[0] == Init(run[0].fs) && run[0].fs.Wf() && c.staged !in run[0].fs.links
    && forall i | 0 < i < |run| :: run[i] == run[i-1] || Reading(c, run[i-1], run[i], read)
  }

  predicate Running(pc: Pc) {
    !pc.CleanUp? && !pc.Reap? && !Over(pc)
  }

  predicate PastRetire(pc: Pc) {
    pc.Reprobe? || pc.Reopen? || pc.MoveForced? || pc.Restore?
  }

  /** The calls that may have failed without stopping the export. */
  function Forgiven(pc: Pc): set<Pc> {
    match pc
    case MoveVacant => {ProbeVacant}
    case Recreate => {MoveEmpty}
    case Retire => {ProbeRetired}
    case Reprobe => {ProbeRetired}
    case Reopen => {ProbeRetired}
    case MoveForced => {ProbeRetired}
    case Restore => {ProbeRetired, MoveForced}
    case _ => {}
  }

  /** What a run knows of its verdict. */
  ghost predicate OnCourse(c: Config, s: State, fs: Fs, read: set<ObjectId>) {
    && (Running(s.pc) ==> s.failed <= Forgiven(s.pc))
    && (s.pc.Recreate? ==> MoveEmpty in s.failed) && (s.pc.Restore? ==> MoveForced in s.failed)
    && (s.pc.Retire? || PastRetire(s.pc) ==> (c.retired in fs.links ==> ProbeRetired in s.failed))
    && (PastRetire(s.pc) ==> c.retired !in fs.links || fs.IsEmptyDir(c.retired))
    && Foretold(c, s, fs, read)
  }

  ghost predicate Foretold(c: Config, s: State, fs: Fs, read: set<ObjectId>) {
    && (s.pc.CleanUp? || s.pc.Refused? ==> Verdict(c, fs, read, s.failed) == Refused(s.pc.reason))
    && (s.pc.Reap? || s.pc.Published? ==> Verdict(c, fs, read, s.failed) == Published)
  }

  /** Whether the admitted directory was read is known once the copy is over. */
  ghost predicate SourcesKnown(s: State, id: ObjectId, read: set<ObjectId>) {
    && (s.pc.ProbeDest? || s.pc.OpenDest? ==> (id in s.sources <==> id in read))
    && (Cleared(s.pc) ==> id !in read)
  }

  lemma StepKnowsSources(c: Config, s: State, t: Turn, id: ObjectId, read: set<ObjectId>)
    requires SourcesKnown(s, id, read) && (s.pc.OpenDest? ==> s.seen == id)
    requires s.pc.Fill? ==> t.read == read && id in s.fs.nodes && s.stagedId != Some(id)
    ensures SourcesKnown(Step(c, s, t), id, read)
  {
    hide Call, Decision, Seen;
  }

  // ------------------------------------------------- over nothing, or over an empty directory

  /** No call fails but for a reason of its own. */
  lemma BareAnswers(c: Config, s: State, t: Turn, start: Option<ObjectId>)
    requires BarePhase(c, s, start) && Running(s.pc)
    ensures Call(c, s, t).ok == !t.fails
  {
    hide Next;
  }

  /** Once it is decided, nothing changes the verdict. */
  lemma EndOnCourse(c: Config, s: State, t: Turn, fs: Fs, read: set<ObjectId>)
    requires !Running(s.pc) && OnCourse(c, s, fs, read)
    ensures OnCourse(c, Step(c, s, t), fs, read)
  {
    hide Call, Decision, Seen;
  }

  predicate Early(pc: Pc) {
    pc.Inspect? || pc.OpenAdmit? || pc.Stage? || pc.Fill?
  }

  lemma BareOnCourse(c: Config, s: State, t: Turn, start: Option<ObjectId>, fs: Fs, read: set<ObjectId>)
    requires BarePhase(c, s, start) && OnCourse(c, s, fs, read) && BareAtStart(c, fs, start) && fs.Wf()
    requires start.Some? ==> SourcesKnown(s, start.value, read)
    ensures OnCourse(c, Step(c, s, t), fs, read)
  {
    hide Call, Decision, Seen, Next, OnCourse;
    if !Running(s.pc) {
      EndOnCourse(c, s, t, fs, read);
    } else if Early(s.pc) {
      BareEarly(c, s, t, start, fs, read);
    } else {
      BareLate(c, s, t, start, fs, read);
    }
  }

  lemma BareEarly(c: Config, s: State, t: Turn, start: Option<ObjectId>, fs: Fs, read: set<ObjectId>)
    requires BarePhase(c, s, start) && OnCourse(c, s, fs, read) && BareAtStart(c, fs, start) && fs.Wf() && Early(s.pc)
    ensures OnCourse(c, Step(c, s, t), fs, read)
  {
    hide Call, Decision, Seen;
    BareAnswers(c, s, t, start);
  }

  lemma BareLate(c: Config, s: State, t: Turn, start: Option<ObjectId>, fs: Fs, read: set<ObjectId>)
    requires BarePhase(c, s, start) && OnCourse(c, s, fs, read) && BareAtStart(c, fs, start) && fs.Wf() && Running(s.pc) && !Early(s.pc)
    requires start.Some? ==> SourcesKnown(s, start.value, read)
    ensures OnCourse(c, Step(c, s, t), fs, read)
  {
    hide Call, Decision, Seen;
    BareAnswers(c, s, t, start);
  }

  lemma BareSources(c: Config, s: State, t: Turn, id: ObjectId, read: set<ObjectId>)
    requires BarePhase(c, s, Some(id)) && SourcesKnown(s, id, read) && (s.pc.Fill? ==> t.read == read)
    ensures SourcesKnown(Step(c, s, t), id, read)
  {
    hide Call, Next;
    StepKnowsSources(c, s, t, id, read);
  }

  // ------------------------------------------------- over a bundle

  /** The retired name is as it was, and the export is on the branch of a bundle. */
  ghost predicate BundleBranch(c: Config, s: State, fs: Fs) {
    && !s.pc.ProbeVacant? && !s.pc.MoveVacant? && !s.pc.ClearEmpty? && !s.pc.MoveEmpty? && !s.pc.Recreate?
    && (!PastRetire(s.pc) && Running(s.pc) ==>
          && (c.retired in s.fs.links <==> c.retired in fs.links)
          && (c.retired in fs.links ==>
                && s.fs.links[c.retired] == fs.links[c.retired]
                && s.fs.IsEmptyDir(c.retired) == fs.IsEmptyDir(c.retired)))
  }

  lemma ForcedAnswers(c: Config, s: State, t: Turn, id: ObjectId, was: Contents, fs: Fs)
    requires ForcedPhase(c, s, id, was) && Running(s.pc) && BundleBranch(c, s, fs)
    ensures Call(c, s, t).ok == (!t.fails && (s.pc.Retire? && c.retired in fs.links ==> fs.IsEmptyDir(c.retired)))
  {
    hide Next;
  }

  lemma StepKeepsBranch(c: Config, s: State, t: Turn, id: ObjectId, was: Contents, fs: Fs)
    requires ForcedPhase(c, s, id, was) && BundleBranch(c, s, fs)
    ensures BundleBranch(c, Step(c, s, t), fs)
  {
    if s.pc.Stage? {
      CreateElsewhere(s.fs, c.staged, c.retired);
    } else if s.pc.Fill? {
      WriteElsewhere(c, s, id, was, if t.fails then t.left else c.bundle);
    }
    hide CreateDir, Write, Rename, RemoveDir, RemoveDirAll;
  }

  lemma CreateElsewhere(fs: Fs, n: Name, m: Name)
    requires fs.Wf() && n != m
    ensures Keeps(fs, CreateDir(fs, n).fs, m) && fs.IsEmptyDir(m) == CreateDir(fs, n).fs.IsEmptyDir(m)
  {
  }

  lemma WriteElsewhere(c: Config, s: State, id: ObjectId, was: Contents, contents: Contents)
    requires ForcedPhase(c, s, id, was) && s.pc.Fill?
    ensures Keeps(s.fs, Write(s.fs, c.staged, contents), c.retired)
    ensures s.fs.IsEmptyDir(c.retired) == Write(s.fs, c.staged, contents).IsEmptyDir(c.retired)
  {
    hide Rename, RemoveDir, RemoveDirAll, CreateDir;
  }

  lemma ForcedOnCourse(c: Config, s: State, t: Turn, id: ObjectId, was: Contents, fs: Fs, read: set<ObjectId>)
    requires ForcedPhase(c, s, id, was) && BundleBranch(c, s, fs) && OnCourse(c, s, fs, read) && SourcesKnown(s, id, read)
    requires fs.Holds(c.name, id, was)
    ensures OnCourse(c, Step(c, s, t), fs, read)
  {
    hide Call, Decision, Seen, Next, OnCourse;
    if !Running(s.pc) {
      EndOnCourse(c, s, t, fs, read);
    } else if Early(s.pc) {
      ForcedEarly(c, s, t, id, was, fs, read);
    } else {
      ForcedLate(c, s, t, id, was, fs, read);
    }
  }

  lemma ForcedEarly(c: Config, s: State, t: Turn, id: ObjectId, was: Contents, fs: Fs, read: set<ObjectId>)
    requires ForcedPhase(c, s, id, was) && BundleBranch(c, s, fs) && OnCourse(c, s, fs, read)
    requires fs.Holds(c.name, id, was) && Early(s.pc)
    ensures OnCourse(c, Step(c, s, t), fs, read)
  {
    hide Call, Decision, Seen;
    ForcedAnswers(c, s, t, id, was, fs);
  }

  lemma ForcedLate(c: Config, s: State, t: Turn, id: ObjectId, was: Contents, fs: Fs, read: set<ObjectId>)
    requires ForcedPhase(c, s, id, was) && BundleBranch(c, s, fs) && OnCourse(c, s, fs, read) && SourcesKnown(s, id, read)
    requires fs.Holds(c.name, id, was) && Running(s.pc) && !Early(s.pc)
    ensures OnCourse(c, Step(c, s, t), fs, read)
  {
    hide Call, Decision, Seen, Next, OnCourse;
    ForcedAnswers(c, s, t, id, was, fs);
    if PastRetire(s.pc) {
      ForcedPastRetire(c, s, t, id, was, fs, read);
    } else {
      ForcedBeforeRetire(c, s, t, id, was, fs, read);
    }
  }

  lemma ForcedBeforeRetire(c: Config, s: State, t: Turn, id: ObjectId, was: Contents, fs: Fs, read: set<ObjectId>)
    requires ForcedPhase(c, s, id, was) && BundleBranch(c, s, fs) && OnCourse(c, s, fs, read) && SourcesKnown(s, id, read)
    requires fs.Holds(c.name, id, was) && Running(s.pc) && !Early(s.pc) && !PastRetire(s.pc)
    requires Call(c, s, t).ok == (!t.fails && (s.pc.Retire? && c.retired in fs.links ==> fs.IsEmptyDir(c.retired)))
    ensures OnCourse(c, Step(c, s, t), fs, read)
  {
    hide Call, Decision, Seen, StagedThere;
  }

  function Onward(pc: Pc, ok: bool): Pc
    requires PastRetire(pc)
  {
    match pc
    case Reprobe => if ok then Reopen else CleanUp(ReprobeFailed)
    case Reopen => if ok then MoveForced else CleanUp(ReprobeFailed)
    case MoveForced => if ok then Reap else Restore
    case Restore => CleanUp(if ok then MoveFailed else RestoreFailed)
  }

  /** What is under the retired name is the bundle that was admitted. */
  lemma RetiredIsProven(c: Config, s: State, ok: bool, id: ObjectId, was: Contents)
    requires ForcedPhase(c, s, id, was) && PastRetire(s.pc)
    ensures Next(c, s, ok) == Onward(s.pc, ok)
  {
    hide StagedThere;
  }

  lemma VerdictOverBundle(c: Config, fs: Fs, id: ObjectId, was: Contents, read: set<ObjectId>, failed: set<Pc>)
    requires fs.Holds(c.name, id, was) && was != map[] && c.force && id !in read
    requires failed !! {Inspect, OpenAdmit, Stage, Fill, ProbeDest, OpenDest}
    ensures Verdict(c, fs, read, failed) == OverBundle(c, fs, failed)
  {
  }

  lemma ForcedPastRetire(c: Config, s: State, t: Turn, id: ObjectId, was: Contents, fs: Fs, read: set<ObjectId>)
    requires ForcedPhase(c, s, id, was) && OnCourse(c, s, fs, read) && SourcesKnown(s, id, read)
    requires fs.Holds(c.name, id, was) && PastRetire(s.pc) && Call(c, s, t).ok == !t.fails
    ensures OnCourse(c, Step(c, s, t), fs, read)
  {
    hide Call, Decision, Seen, Next, Decided, Placed, StagedThere, Verdict;
    RetiredIsProven(c, s, !t.fails, id, was);
    VerdictOverBundle(c, fs, id, was, read, Step(c, s, t).failed);
  }

  lemma ForcedSources(c: Config, s: State, t: Turn, id: ObjectId, was: Contents, read: set<ObjectId>)
    requires ForcedPhase(c, s, id, was) && SourcesKnown(s, id, read) && (s.pc.Fill? ==> t.read == read)
    ensures SourcesKnown(Step(c, s, t), id, read)
  {
    hide Call, Next;
    StepKnowsSources(c, s, t, id, read);
  }

  // ------------------------------------------------- over anything else

  /** What stands at the destination is not to be replaced. */
  ghost predicate Barred(c: Config, fs: Fs) {
    c.name in fs.links && c.name in fs.links && fs.links[c.name] in fs.nodes
    && (fs.nodes[fs.links[c.name]].Directory? ==> !c.force && fs.nodes[fs.links[c.name]].contents != map[])
  }

  ghost predicate BarredPhase(c: Config, s: State, fs: Fs) {
    && s.fs == fs && (s.pc.Inspect? || s.pc.OpenAdmit? || s.pc.Refused?)
    && (s.pc.OpenAdmit? ==> fs.IsDir(c.name) && s.seen == fs.links[c.name])
  }

  lemma BarredOnCourse(c: Config, s: State, t: Turn, fs: Fs, read: set<ObjectId>)
    requires Barred(c, fs) && BarredPhase(c, s, fs) && OnCourse(c, s, fs, read)
    ensures BarredPhase(c, Step(c, s, t), fs) && OnCourse(c, Step(c, s, t), fs, read)
  {
  }

  // ------------------------------------------------- whole runs

  /** What holds in every state, over each kind of destination. */
  ghost predicate Course(c: Config, s: State, fs: Fs, read: set<ObjectId>) {
    && OnCourse(c, s, fs, read)
    && if c.name !in fs.links then BarePhase(c, s, None)
       else if fs.IsEmptyDir(c.name) then BarePhase(c, s, Some(fs.links[c.name])) && SourcesKnown(s, fs.links[c.name], read)
       else if fs.IsDir(c.name) && c.force then
         var id := fs.links[c.name];
         ForcedPhase(c, s, id, fs.nodes[id].contents) && BundleBranch(c, s, fs) && SourcesKnown(s, id, read)
       else BarredPhase(c, s, fs)
  }

  lemma StepKeepsCourse(c: Config, s: State, t: Turn, fs: Fs, read: set<ObjectId>)
    requires fs.Wf() && Course(c, s, fs, read) && (s.pc.Fill? ==> t.read == read)
    ensures Course(c, Step(c, s, t), fs, read)
  {
    hide Step, OnCourse, BarePhase, ForcedPhase, BundleBranch, SourcesKnown, BarredPhase;
    if c.name !in fs.links {
      BareStep(c, s, t, None);
      BareOnCourse(c, s, t, None, fs, read);
    } else if fs.IsEmptyDir(c.name) {
      var id := fs.links[c.name];
      BareStep(c, s, t, Some(id));
      BareOnCourse(c, s, t, Some(id), fs, read);
      BareSources(c, s, t, id, read);
    } else if fs.IsDir(c.name) && c.force {
      var id := fs.links[c.name];
      var was := fs.nodes[id].contents;
      ForcedStep(c, s, t, id, was);
      ForcedOnCourse(c, s, t, id, was, fs, read);
      StepKeepsBranch(c, s, t, id, was, fs);
      ForcedSources(c, s, t, id, was, read);
    } else {
      BarredOnCourse(c, s, t, fs, read);
    }
  }

  lemma {:induction false} CalmKeepsCourse(c: Config, run: seq<State>, read: set<ObjectId>, i: nat)
    requires CalmRun(c, run, read) && i < |run|
    ensures Course(c, run[i], run[0].fs, read)
  {
    if i > 0 {
      hide OnCourse, BarePhase, ForcedPhase, BundleBranch, SourcesKnown, BarredPhase, Step;
      CalmKeepsCourse(c, run, read, i - 1);
      if run[i] != run[i-1] {
        var t: Turn :| run[i] == Step(c, run[i-1], t) && (run[i-1].pc.Fill? ==> t.read == read);
        StepKeepsCourse(c, run[i-1], t, run[0].fs, read);
      }
    }
  }

  /** An export that nobody disturbs ends as its verdict says, told from where it
      started, what it read and which calls failed; and when it is published, the
      whole new bundle is at the destination. */
  lemma CalmOutcome(c: Config, run: seq<State>, read: set<ObjectId>)
    requires CalmRun(c, run, read) && Over(run[|run|-1].pc)
    ensures run[|run|-1].pc == Verdict(c, run[0].fs, read, run[|run|-1].failed)
    ensures run[|run|-1].pc.Published? ==> NewInPlace(c, run[|run|-1])
  {
    hide Verdict;
    CalmKeepsCourse(c, run, read, |run| - 1);
  }

  /** Without a failing call: what may be replaced. */
  predicate Replaceable(c: Config, fs: Fs, read: set<ObjectId>) {
    c.name !in fs.links ||
      (fs.IsDir(c.name) && fs.links[c.name] !in read && (fs.IsEmptyDir(c.name) || (c.force && c.retired !in fs.links)))
  }

  /** An export that nobody disturbs and in which no call fails is published, with
      the whole new bundle at the destination, exactly when nothing stood there, or
      an empty directory, or, under `--force`, any directory with the retired name
      free, in each case none that was read. Otherwise it is refused, with what
      stood there untouched, for the first of these reasons: a link, no directory,
      not empty, a tree that was read, a leftover under the retired name. */
  lemma FaultFreeOutcome(c: Config, run: seq<State>, read: set<ObjectId>)
    requires CalmRun(c, run, read) && Over(run[|run|-1].pc) && run[|run|-1].failed == {}
    ensures
      var fs, s := run[0].fs, run[|run|-1];
      if Replaceable(c, fs, read) then s.pc.Published? && NewInPlace(c, s)
      else
        var node := fs.nodes[fs.links[c.name]];
        && s.pc == Refused(
             if node.Symlink? then DestIsSymlink
             else if node.Regular? then DestNotADir
             else if node.contents != map[] && !c.force then DestNotEmpty
             else if fs.links[c.name] in read then DestIsSource
             else RetiredExists)
        && c.name in s.fs.links && s.fs.links[c.name] == fs.links[c.name] && fs.links[c.name] in s.fs.nodes
        && s.fs.nodes[fs.links[c.name]] == node
  {
    hide Course, NewInPlace;
    CalmOutcome(c, run, read);
    CalmKeepsCourse(c, run, read, |run| - 1);
    if run[|run|-1].pc.Refused? && c.name in run[0].fs.links {
      UntouchedWhenRefused(c, run[|run|-1], run[0].fs, read);
    }
  }

  lemma UntouchedWhenRefused(c: Config, s: State, fs: Fs, read: set<ObjectId>)
    requires fs.Wf() && Course(c, s, fs, read) && s.pc.Refused? && s.failed == {} && c.name in fs.links
    ensures
      && c.name in s.fs.links && s.fs.links[c.name] == fs.links[c.name] && fs.links[c.name] in s.fs.nodes
      && s.fs.nodes[fs.links[c.name]] == fs.nodes[fs.links[c.name]]
  {
  }

  // ------------------------------------------------- every undisturbed run

  lemma TurnAt(c: Config, run: seq<State>, i: nat) returns (t: Turn)
    requires QuietRun(c, run) && 0 < i < |run|
    ensures run[i] == Step(c, run[i-1], t)
  {
    hide Step;
    assert Program(c, run[i-1], run[i]);
    var u :| run[i] == Step(c, run[i-1], u);
    t := u;
  }

  lemma {:induction false} GoesOn(c: Config, run: seq<State>, i: nat)
    requires QuietRun(c, run) && i < |run|
    ensures Over(run[i].pc) || Left(run[i].pc) + i <= Left(Inspect)
  {
    if i > 0 {
      GoesOn(c, run, i - 1);
      var t := TurnAt(c, run, i);
      StepGoesOn(c, run[i-1], t);
    }
  }

  lemma {:induction false} StaysCopied(c: Config, run: seq<State>, i: nat, j: nat)
    requires QuietRun(c, run) && i <= j < |run| && Copied(run[i].pc)
    ensures Copied(run[j].pc)
  {
    if i < j {
      StaysCopied(c, run, i, j - 1);
      var t := TurnAt(c, run, j);
      StepKeepsSources(c, run[j-1], t);
    }
  }

  predicate CopiesAt(run: seq<State>, k: nat) {
    0 < k < |run| && run[k-1].pc.Fill?
  }

  /** A run makes one copy at most, so there is one set of trees that it read. */
  lemma QuietIsCalm(c: Config, run: seq<State>) returns (read: set<ObjectId>)
    requires QuietRun(c, run)
    ensures CalmRun(c, run, read)
  {
    hide Call, Next, Decision, Seen;
    read := {};
    if k: nat :| CopiesAt(run, k) {
      var t := TurnAt(c, run, k);
      read := t.read;
      forall i | 0 < i < |run| ensures Reading(c, run[i-1], run[i], read) {
        if i != k {
          var u := TurnAt(c, run, i);
          OneCopy(c, run, k, i);
        }
      }
    } else {
      forall i | 0 < i < |run| ensures Reading(c, run[i-1], run[i], read) {
        var u := TurnAt(c, run, i);
        assert !CopiesAt(run, i);
      }
    }
  }

  lemma OneCopy(c: Config, run: seq<State>, k: nat, i: nat)
    requires QuietRun(c, run) && 0 < k < |run| && 0 < i < |run| && i != k && run[k-1].pc.Fill?
    ensures !run[i-1].pc.Fill?
  {
    if run[i-1].pc.Fill? {
      var a, b := if i < k then i else k, if i < k then k else i;
      var t := TurnAt(c, run, a);
      assert Copied(run[a].pc);
      StaysCopied(c, run, a, b - 1);
      assert false;
    }
  }

  /** Every run in which only the export moves has ended after thirteen calls,
      and ended as its verdict says. */
  lemma QuietOutcome(c: Config, run: seq<State>) returns (read: set<ObjectId>)
    requires QuietRun(c, run) && |run| > Left(Inspect)
    ensures Over(run[|run|-1].pc) && CalmRun(c, run, read)
    ensures run[|run|-1].pc == Verdict(c, run[0].fs, read, run[|run|-1].failed)
  {
    hide Verdict;
    read := QuietIsCalm(c, run);
    GoesOn(c, run, |run| - 1);
    CalmOutcome(c, run, read);
  }
}
