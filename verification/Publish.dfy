/** The life of one export as seen from the destination: the admission, the
    staging, and the two renames that publish the bundle. One state per system
    call, so that a crash is a run that stops and interference is a step of the
    environment between two of them. */
module Publish {
  import opened Options
  import opened Filesystem

  datatype Admission = Vacant | Empty(id: ObjectId) | Forced(id: ObjectId)

  datatype Reason =
    | InspectFailed | DestIsSymlink | DestNotADir | DestNotEmpty | DestChanged
    | StageFailed | CopyFailed
    | DestAppeared | DestIsSource | ProbeFailed | ClearFailed
    | RetiredExists | RetireFailed | ReprobeFailed
    | MoveFailed | RestoreFailed

  /** The system call about to be made. */
  datatype Pc =
    | Inspect | OpenAdmit                    // check_destination
    | Stage | Fill                           // the staging directory, and the copy into it
    | ProbeVacant | MoveVacant               // nothing was admitted
    | ProbeDest | OpenDest                   // destination_identity of the destination
    | ClearEmpty | MoveEmpty | Recreate      // an empty directory was admitted
    | ProbeRetired | Retire                  // a bundle was admitted: move it aside
    | Reprobe | Reopen | PutBack             // destination_identity of the retired name
    | MoveForced | Restore | Reap            // move the new bundle in; undo; delete the old one
    | CleanUp(reason: Reason)                // the staging guard drops
    | Published
    | Refused(reason: Reason)

  /** What does not change during an export. */
  datatype Config = Config(name: Name, staged: Name, retired: Name, force: bool, bundle: Contents) {
    predicate Wf() { name != staged && staged != retired && retired != name }
  }

  /** How one call goes: whether it fails for a reason of its own, what a failing
      recursive delete or copy leaves behind, and which trees the copy reads. */
  datatype Turn = Turn(fails: bool, left: Contents, read: set<ObjectId>)

  /** `failed` records the calls that failed for a reason of their own. */
  datatype State = State(fs: Fs, pc: Pc, admission: Admission, seen: ObjectId,
                         sources: set<ObjectId>, stagedId: Option<ObjectId>, failed: set<Pc>)

  function Init(fs: Fs): State {
    State(fs, Inspect, Vacant, 0, {}, None, {})
  }

  /** The system call made at `s.pc`. A probe changes nothing. */
  function Call(c: Config, s: State, t: Turn): Answer {
    match s.pc
    case Stage => Attempt(s.fs, t.fails, CreateDir(s.fs, c.staged))
    case Fill => Answer(Write(s.fs, c.staged, if t.fails then t.left else c.bundle), !t.fails)
    case MoveVacant => Attempt(s.fs, t.fails, Rename(s.fs, c.staged, c.name))
    case MoveEmpty => Attempt(s.fs, t.fails, Rename(s.fs, c.staged, c.name))
    case MoveForced => Attempt(s.fs, t.fails, Rename(s.fs, c.staged, c.name))
    case ClearEmpty => Attempt(s.fs, t.fails, RemoveDir(s.fs, c.name))
    case Recreate => Attempt(s.fs, t.fails, CreateDir(s.fs, c.name))
    case Retire => Attempt(s.fs, t.fails, Rename(s.fs, c.name, c.retired))
    case PutBack => Attempt(s.fs, t.fails, Rename(s.fs, c.retired, c.name))
    case Restore => Attempt(s.fs, t.fails, Rename(s.fs, c.retired, c.name))
    case Reap => RemoveDirAll(s.fs, c.retired, t.fails, t.left)
    case CleanUp(_) => RemoveDirAll(s.fs, c.staged, t.fails, t.left)
    case _ => Answer(s.fs, !t.fails)
  }

  /** Where the answer `ok` leads. */
  function Next(c: Config, s: State, ok: bool): Pc {
    match s.pc
    case Inspect => Inspected(c, s, ok)
    case OpenAdmit => Admitted(c, s, ok)
    case Stage => if ok then Fill else Refused(StageFailed)
    case Fill => if !ok then CleanUp(CopyFailed) else if s.admission.Vacant? then ProbeVacant else ProbeDest
    // `.is_ok()`: a probe that errs counts as an absent name.
    case ProbeVacant => if ok && c.name in s.fs.links then CleanUp(DestAppeared) else MoveVacant
    case MoveVacant => if ok then Published else CleanUp(MoveFailed)
    case ProbeDest => if !ok then CleanUp(ProbeFailed) else if s.fs.IsDir(c.name) then OpenDest else CleanUp(DestChanged)
    case OpenDest => Compared(c, s, ok)
    case ClearEmpty => if ok then MoveEmpty else CleanUp(ClearFailed)
    case MoveEmpty => if ok then Published else Recreate
    case Recreate => CleanUp(MoveFailed)
    case ProbeRetired => if ok && c.retired in s.fs.links then CleanUp(RetiredExists) else Retire
    case Retire => if ok then Reprobe else CleanUp(RetireFailed)
    case Reprobe => if !ok then CleanUp(ReprobeFailed) else if s.fs.IsDir(c.retired) then Reopen else PutBack
    case Reopen => Recompared(c, s, ok)
    case PutBack => CleanUp(DestChanged)
    case MoveForced => if ok then Reap else Restore
    case Restore => CleanUp(if ok then MoveFailed else RestoreFailed)
    case Reap => Published
    case CleanUp(reason) => Refused(reason)
    case Published => Published
    case Refused(reason) => Refused(reason)
  }

  /** One system call and the decision taken on its answer. */
  function Step(c: Config, s: State, t: Turn): State {
    var done := Call(c, s, t);
    var pc := Next(c, s, done.ok);
    State(done.fs, pc,
          Decision(c, s, pc),
          Seen(c, s),
          if s.pc.Fill? && done.ok then set id | id in t.read && id in s.fs.nodes && Some(id) != s.stagedId else s.sources,
          if s.pc.Stage? && done.ok then Some(s.fs.next) else s.stagedId,
          if t.fails then s.failed + {s.pc} else s.failed)
  }

  /** What is admitted: nothing, an empty directory, or a bundle. */
  function Decision(c: Config, s: State, pc: Pc): Admission {
    if s.pc.Inspect? then Vacant
    else if !s.pc.OpenAdmit? || !pc.Stage? then s.admission
    else if s.fs.IsEmptyDir(c.name) then Empty(s.seen)
    else Forced(s.seen)
  }

  /** The identity the last classification found. */
  function Seen(c: Config, s: State): ObjectId {
    var n := if s.pc.Reprobe? then c.retired else c.name;
    if (s.pc.Inspect? || s.pc.ProbeDest? || s.pc.Reprobe?) && n in s.fs.links then s.fs.links[n] else s.seen
  }

  predicate Admits(a: Admission, id: ObjectId) {
    !a.Vacant? && a.id == id
  }

  function Inspected(c: Config, s: State, ok: bool): Pc {
    if !ok then Refused(InspectFailed)
    else if c.name !in s.fs.links || s.fs.links[c.name] !in s.fs.nodes then Stage
    else match s.fs.nodes[s.fs.links[c.name]]
      case Symlink => Refused(DestIsSymlink)
      case Regular => Refused(DestNotADir)
      case Directory(_) => OpenAdmit
  }

  function Admitted(c: Config, s: State, ok: bool): Pc {
    if !ok || !s.fs.IsDir(c.name) then Refused(InspectFailed)
    else if s.fs.links[c.name] != s.seen then Refused(DestChanged)
    else if !s.fs.IsEmptyDir(c.name) && !c.force then Refused(DestNotEmpty)
    else Stage
  }

  /** The second half of `destination_identity`: open the name, and compare what
      was opened with what was classified, with the trees that were read, and
      with what was admitted. */
  function Compared(c: Config, s: State, ok: bool): Pc {
    if !ok || (c.name in s.fs.links && !s.fs.IsDir(c.name)) then CleanUp(ProbeFailed)
    else if c.name !in s.fs.links || s.fs.links[c.name] != s.seen then CleanUp(DestChanged)
    else if s.seen in s.sources then CleanUp(DestIsSource)
    else if !Admits(s.admission, s.seen) then CleanUp(DestChanged)
    else if s.admission.Empty? then ClearEmpty
    else ProbeRetired
  }

  /** The same for the retired name, which is compared with the admission only. */
  function Recompared(c: Config, s: State, ok: bool): Pc {
    if !ok || (c.retired in s.fs.links && !s.fs.IsDir(c.retired)) then CleanUp(ReprobeFailed)
    else if c.retired in s.fs.links && s.fs.links[c.retired] == s.seen && Admits(s.admission, s.seen) then MoveForced
    else PutBack
  }

  // ---------------------------------------------------------------- runs

  /** What the environment may do between two calls: anything, as long as the
      staged bundle and the retired name are left alone, identities are never
      reused and an object does not change its kind. */
  ghost predicate Rely(c: Config, before: Fs, after: Fs) {
    && after.Wf()
    && before.next <= after.next
    && Undisturbed(before, after, c.staged)
    && (before.IsDir(c.staged) ==> after.IsDir(c.staged) && after.nodes[after.links[c.staged]] == before.nodes[before.links[c.staged]])
    && Undisturbed(before, after, c.retired)
    && forall id | id < before.next && id in after.nodes ::
         id in before.nodes && (after.nodes[id].Directory? <==> before.nodes[id].Directory?)
  }

  ghost predicate Undisturbed(before: Fs, after: Fs, n: Name) {
    (n in after.links <==> n in before.links) && (n in before.links ==> after.links[n] == before.links[n])
  }

  ghost predicate Program(c: Config, s: State, s': State) {
    exists t :: s' == Step(c, s, t)
  }

  ghost predicate Environment(c: Config, s: State, s': State) {
    s' == s.(fs := s'.fs) && Rely(c, s.fs, s'.fs)
  }

  /** A run starts anywhere, with the staged name free, and stops anywhere: a
      crash is a run that ends early. */
  ghost predicate Run(c: Config, run: seq<State>) {
    && |run| > 0 && c.Wf()
    && run[0] == Init(run[0].fs) && run[0].fs.Wf() && c.staged !in run[0].fs.links
    && forall i | 0 < i < |run| :: Program(c, run[i-1], run[i]) || Environment(c, run[i-1], run[i])
  }

  /** A run in which only the export moves. */
  ghost predicate QuietRun(c: Config, run: seq<State>) {
    Run(c, run) && forall i | 0 < i < |run| :: Program(c, run[i-1], run[i])
  }
}
