/** The export as the program runs it, against a file system that changes under
    it. `turns` says how each call goes and `weather` what others do just before
    it; both are arbitrary, so a session stands for every schedule. The ghost
    `history` is the run of the protocol the session took. */
module PublishSession {
  import opened Options
  import opened Filesystem
  import opened Publish
  import opened PublishSafety
  import opened PublishOutcome

  datatype Result<T> = Ok(value: T) | Err(error: Reason)

  datatype Lookup = Missing | Unreadable | Found(node: Node, id: ObjectId)

  /** Between two calls others move as `weather` says, and each call goes as
      `turns` says. */
  ghost predicate Follows(c: Config, turns: Pc -> Turn, weather: (Pc, Fs) -> Fs, run: seq<State>) {
    forall i | 0 < i < |run| ::
      || run[i] == run[i-1].(fs := weather(run[i-1].pc, run[i-1].fs))
      || run[i] == Step(c, run[i-1], turns(run[i-1].pc))
  }

  /** Nobody moves. */
  ghost predicate Calm(weather: (Pc, Fs) -> Fs) {
    forall pc, f: Fs :: weather(pc, f) == f
  }

  ghost predicate Faultless(turns: Pc -> Turn) {
    forall pc :: !turns(pc).fails
  }

  lemma FollowsIsCalm(c: Config, turns: Pc -> Turn, weather: (Pc, Fs) -> Fs, run: seq<State>)
    requires Run(c, run) && Follows(c, turns, weather, run) && Calm(weather)
    ensures CalmRun(c, run, turns(Fill).read)
  {
    hide Call, Next, Decision, Seen, Rely;
    forall i | 0 < i < |run| ensures run[i] == run[i-1] || Reading(c, run[i-1], run[i], turns(Fill).read) {
      if run[i] != run[i-1] {
        var t := turns(run[i-1].pc);
        assert run[i] == Step(c, run[i-1], t);
      }
    }
  }

  lemma {:induction false} NothingFails(c: Config, turns: Pc -> Turn, weather: (Pc, Fs) -> Fs, run: seq<State>, i: nat)
    requires Run(c, run) && Follows(c, turns, weather, run) && Faultless(turns) && i < |run|
    ensures run[i].failed == {}
  {
    hide Call, Next, Decision, Seen, Rely;
    if i > 0 {
      NothingFails(c, turns, weather, run, i - 1);
    }
  }

  lemma LongerFollows(c: Config, turns: Pc -> Turn, weather: (Pc, Fs) -> Fs, run: seq<State>, mid: State, next: State)
    requires run != [] && Follows(c, turns, weather, run)
    requires mid == run[|run|-1].(fs := weather(run[|run|-1].pc, run[|run|-1].fs)) && next == Step(c, mid, turns(mid.pc))
    ensures Follows(c, turns, weather, run + [mid, next])
  {
    hide Step;
    var longer := run + [mid, next];
    forall i | 0 < i < |longer|
      ensures
        || longer[i] == longer[i-1].(fs := weather(longer[i-1].pc, longer[i-1].fs))
        || longer[i] == Step(c, longer[i-1], turns(longer[i-1].pc))
    {
      if i < |run| {
        assert longer[i] == run[i] && longer[i-1] == run[i-1];
      }
    }
  }

  class Session {
    const c: Config
    const turns: Pc -> Turn
    const weather: (Pc, Fs) -> Fs
    var fs: Fs
    ghost var history: seq<State>

    ghost predicate Valid()
      reads this
    {
      && Run(c, history) && history[|history|-1].fs == fs && fs.Wf() && Follows(c, turns, weather, history)
      && forall pc, f: Fs | f.Wf() :: Rely(c, f, weather(pc, f))
    }

    ghost function Last(): State
      reads this
      requires |history| > 0
    {
      history[|history|-1]
    }

    constructor (c: Config, fs: Fs, turns: Pc -> Turn, weather: (Pc, Fs) -> Fs)
      requires c.Wf() && fs.Wf() && c.staged !in fs.links
      requires forall pc, f: Fs | f.Wf() :: Rely(c, f, weather(pc, f))
      ensures Valid() && history == [Init(fs)] && this.c == c && this.turns == turns && this.weather == weather
    {
      this.c, this.fs, this.turns, this.weather := c, fs, turns, weather;
      history := [Init(fs)];
    }

    /** The state in which the call at `pc` finds the world. */
    ghost function World(before: State, pc: Pc): State {
      before.(fs := weather(pc, before.fs))
    }

    lemma WorldIsWf(pc: Pc)
      requires Valid()
      ensures World(Last(), pc).fs.Wf()
    {
      assert Rely(c, fs, weather(pc, fs));
    }

    /** Others move, then the call at `pc` runs and answers `ok`. */
    ghost predicate Took(before: seq<State>, pc: Pc, ok: bool)
      reads this
    {
      && |before| > 0 && before[|before|-1].pc == pc && before <= history
      && var s := World(before[|before|-1], pc);
      && Last().pc == Next(c, s, ok) && Last().seen == Seen(c, s)
      && Last().admission == Decision(c, s, Last().pc)
      && (!pc.Fill? ==> Last().sources == s.sources)
    }

    ghost method Record(pc: Pc)
      requires Run(c, history) && Follows(c, turns, weather, history) && Last().pc == pc && Last().fs.Wf()
      requires forall pc, f: Fs | f.Wf() :: Rely(c, f, weather(pc, f))
      requires fs == Step(c, World(Last(), pc), turns(pc)).fs && fs.Wf()
      modifies `history
      ensures Valid() && Last() == Step(c, World(old(Last()), pc), turns(pc))
      ensures Took(old(history), pc, Call(c, World(old(Last()), pc), turns(pc)).ok)
    {
      var s := Last();
      var mid := World(s, pc);
      var longer := history + [mid, Step(c, mid, turns(pc))];
      assert Environment(c, s, mid);
      assert Program(c, mid, Step(c, mid, turns(pc)));
      forall i | 0 < i < |longer| ensures Program(c, longer[i-1], longer[i]) || Environment(c, longer[i-1], longer[i]) {
        if i < |history| {
          assert longer[i] == history[i] && longer[i-1] == history[i-1];
        }
      }
      LongerFollows(c, turns, weather, history, mid, Step(c, mid, turns(pc)));
      history := longer;
    }

    // The system calls, each on the world as it stands when it runs.

    method Rename(pc: Pc, from: Name, to: Name) returns (ok: bool)
      requires Valid() && Last().pc == pc
      requires forall s: State, t: Turn | s.pc == pc :: Call(c, s, t) == Attempt(s.fs, t.fails, Filesystem.Rename(s.fs, from, to))
      modifies this
      ensures Valid() && Took(old(history), pc, ok)
    {
      StepKeepsWf(c, World(Last(), pc), turns(pc));
      fs := weather(pc, fs);
      var done := Attempt(fs, turns(pc).fails, Filesystem.Rename(fs, from, to));
      fs, ok := done.fs, done.ok;
      Record(pc);
    }

    method CreateDir(pc: Pc, n: Name) returns (ok: bool)
      requires Valid() && Last().pc == pc
      requires forall s: State, t: Turn | s.pc == pc :: Call(c, s, t) == Attempt(s.fs, t.fails, Filesystem.CreateDir(s.fs, n))
      modifies this
      ensures Valid() && Took(old(history), pc, ok)
    {
      StepKeepsWf(c, World(Last(), pc), turns(pc));
      fs := weather(pc, fs);
      var done := Attempt(fs, turns(pc).fails, Filesystem.CreateDir(fs, n));
      fs, ok := done.fs, done.ok;
      Record(pc);
    }

    method RemoveDir(pc: Pc, n: Name) returns (ok: bool)
      requires Valid() && Last().pc == pc
      requires forall s: State, t: Turn | s.pc == pc :: Call(c, s, t) == Attempt(s.fs, t.fails, Filesystem.RemoveDir(s.fs, n))
      modifies this
      ensures Valid() && Took(old(history), pc, ok)
    {
      StepKeepsWf(c, World(Last(), pc), turns(pc));
      fs := weather(pc, fs);
      var done := Attempt(fs, turns(pc).fails, Filesystem.RemoveDir(fs, n));
      fs, ok := done.fs, done.ok;
      Record(pc);
    }

    method RemoveDirAll(pc: Pc, n: Name) returns (ok: bool)
      requires Valid() && Last().pc == pc
      requires forall s: State, t: Turn | s.pc == pc :: Call(c, s, t) == Filesystem.RemoveDirAll(s.fs, n, t.fails, t.left)
      modifies this
      ensures Valid() && Took(old(history), pc, ok)
    {
      StepKeepsWf(c, World(Last(), pc), turns(pc));
      fs := weather(pc, fs);
      var done := Filesystem.RemoveDirAll(fs, n, turns(pc).fails, turns(pc).left);
      fs, ok := done.fs, done.ok;
      Record(pc);
    }

    /** `symlink_metadata`. */
    method Lstat(pc: Pc, n: Name) returns (r: Lookup)
      requires Valid() && Last().pc == pc
      requires forall s: State, t: Turn | s.pc == pc :: Call(c, s, t) == Answer(s.fs, !t.fails)
      modifies this
      ensures Valid() && Took(old(history), pc, !turns(pc).fails)
      ensures r == LookedUp(World(old(Last()), pc).fs, n, turns(pc).fails)
    {
      StepKeepsWf(c, World(Last(), pc), turns(pc));
      fs := weather(pc, fs);
      r := LookedUp(fs, n, turns(pc).fails);
      Record(pc);
    }

    /** `open_dir_nofollow`, with the metadata of the handle: only a directory opens. */
    method OpenDir(pc: Pc, n: Name) returns (r: Lookup)
      requires Valid() && Last().pc == pc
      requires forall s: State, t: Turn | s.pc == pc :: Call(c, s, t) == Answer(s.fs, !t.fails)
      modifies this
      ensures Valid() && Took(old(history), pc, !turns(pc).fails)
      ensures r == OpenedDir(World(old(Last()), pc).fs, n, turns(pc).fails)
    {
      StepKeepsWf(c, World(Last(), pc), turns(pc));
      fs := weather(pc, fs);
      r := OpenedDir(fs, n, turns(pc).fails);
      Record(pc);
    }

    /** The copy into the staging directory; it reports the trees it read. */
    method CopyTrees() returns (r: Result<set<ObjectId>>)
      requires Valid() && Last().pc.Fill?
      modifies this
      ensures Valid() && Took(old(history), Fill, r.Ok?)
      ensures if turns(Fill).fails then r == Err(CopyFailed) else r == Ok(Last().sources)
    {
      StepKeepsWf(c, World(Last(), Fill), turns(Fill));
      ghost var stagedId := Last().stagedId;
      fs := weather(Fill, fs);
      var staged := if c.staged in fs.links then Some(fs.links[c.staged]) else None;
      RunKeepsInvariant(c, history, |history| - 1);
      assert Rely(c, Last().fs, fs);
      assert staged == stagedId;
      r := if turns(Fill).fails then Err(CopyFailed) else Ok(set id | id in turns(Fill).read && id in fs.nodes && Some(id) != staged);
      fs := Write(fs, c.staged, if turns(Fill).fails then turns(Fill).left else c.bundle);
      Record(Fill);
    }

    // ---------------------------------------------------------------- the program

    method CheckDestination() returns (r: Result<Admission>)
      requires Valid() && Last().pc.Inspect?
      modifies this
      ensures Valid() && old(history) <= history
      ensures match r
              case Ok(admission) => Last().pc.Stage? && Last().admission == admission
              case Err(e) => Last().pc == Refused(e)
    {
      var metadata := Lstat(Inspect, c.name);
      match metadata {
        case Missing => return Ok(Vacant);
        case Unreadable => return Err(InspectFailed);
        case Found(Symlink, _) => return Err(DestIsSymlink);
        case Found(Regular, _) => return Err(DestNotADir);
        case Found(Directory(_), id) =>
          var handle := OpenDir(OpenAdmit, c.name);
          if !handle.Found? {
            return Err(InspectFailed);
          }
          if handle.id != id {
            return Err(DestChanged);
          }
          if handle.node.contents == map[] {
            return Ok(Empty(id));
          }
          if !c.force {
            return Err(DestNotEmpty);
          }
          return Ok(Forced(id));
      }
    }

    /** The identity of the directory at `n`, `None` for whatever else is there. */
    method DestinationIdentity(n: Name, probe: Pc, open: Pc) returns (r: Result<Option<ObjectId>>)
      requires Valid() && Last().pc == probe
      requires (n == c.name && probe.ProbeDest? && open.OpenDest?) || (n == c.retired && probe.Reprobe? && open.Reopen?)
      modifies this
      ensures Valid() && old(history) <= history
      ensures Last().admission == old(Last()).admission && Last().sources == old(Last()).sources
      ensures Last().pc == After(Last(), probe.ProbeDest?, r)
    {
      hide Call, Next, Seen;
      ghost var before := World(Last(), probe);
      ProbesChangeNothing(c, probe);
      var metadata := Lstat(probe, n);
      ProbeLeads(c, before, turns(probe).fails);
      if metadata.Unreadable? {
        return Err(if n == c.name then ProbeFailed else ReprobeFailed);
      }
      if metadata.Missing? || !metadata.node.Directory? {
        return Ok(None);
      }
      r := OpenFound(n, open, metadata.id);
    }

    /** The second half: what opens at `n`, if it is the object that was found. */
    method OpenFound(n: Name, open: Pc, found: ObjectId) returns (r: Result<Option<ObjectId>>)
      requires Valid() && Last().pc == open && Last().seen == found
      requires (n == c.name && open.OpenDest?) || (n == c.retired && open.Reopen?)
      modifies this
      ensures Valid() && old(history) <= history
      ensures Last().admission == old(Last()).admission && Last().sources == old(Last()).sources
      ensures Last().pc == After(Last(), open.OpenDest?, r)
    {
      hide Call, Next, Seen;
      ghost var before := World(Last(), open);
      WorldIsWf(open);
      ProbesChangeNothing(c, open);
      var handle := OpenDir(open, n);
      OpenLeads(c, before, turns(open).fails);
      match handle {
        case Missing => return Ok(None);
        case Unreadable => return Err(if open.OpenDest? then ProbeFailed else ReprobeFailed);
        case Found(_, id) => return Ok(if id == found then Some(id) else None);
      }
    }

    method SwapIntoPlace(admission: Admission, sources: set<ObjectId>) returns (r: Result<()>)
      requires Valid() && admission == Last().admission && sources == Last().sources
      requires Last().pc == if admission.Vacant? then ProbeVacant else ProbeDest
      modifies this
      ensures Valid() && old(history) <= history
      ensures match r case Ok(_) => Last().pc.Published? case Err(e) => Last().pc == CleanUp(e)
    {
      if admission.Vacant? {
        var there := Lstat(ProbeVacant, c.name);
        if there.Found? {
          return Err(DestAppeared);
        }
        var moved := Rename(MoveVacant, c.staged, c.name);
        return if moved then Ok(()) else Err(MoveFailed);
      }
      var current := DestinationIdentity(c.name, ProbeDest, OpenDest);
      if current.Err? {
        return Err(current.error);
      }
      if current.value.Some? && current.value.value in sources {
        return Err(DestIsSource);
      }
      if current.value != Some(admission.id) {
        return Err(DestChanged);
      }
      if admission.Empty? {
        r := ReplaceEmpty();
      } else {
        r := ReplaceBundle(admission.id);
      }
    }

    /** The branch of `swap_into_place` for an admitted empty directory. */
    method ReplaceEmpty() returns (r: Result<()>)
      requires Valid() && Last().pc.ClearEmpty?
      modifies this
      ensures Valid() && old(history) <= history
      ensures match r case Ok(_) => Last().pc.Published? case Err(e) => Last().pc == CleanUp(e)
    {
      var cleared := RemoveDir(ClearEmpty, c.name);
      if !cleared {
        return Err(ClearFailed);
      }
      var moved := Rename(MoveEmpty, c.staged, c.name);
      if moved {
        return Ok(());
      }
      var _ := CreateDir(Recreate, c.name);
      return Err(MoveFailed);
    }

    /** The branch of `swap_into_place` for an admitted bundle. */
    method ReplaceBundle(admitted: ObjectId) returns (r: Result<()>)
      requires Valid() && Last().pc.ProbeRetired? && Last().admission == Forced(admitted)
      modifies this
      ensures Valid() && old(history) <= history
      ensures match r case Ok(_) => Last().pc.Published? case Err(e) => Last().pc == CleanUp(e)
    {
      hide Filesystem.Rename, Filesystem.RemoveDir, Filesystem.CreateDir, Filesystem.RemoveDirAll, Write;
      var leftover := Lstat(ProbeRetired, c.retired);
      if leftover.Found? {
        return Err(RetiredExists);
      }
      var aside := Rename(Retire, c.name, c.retired);
      if !aside {
        return Err(RetireFailed);
      }
      r := ProveRetired(admitted);
    }

    /** The middle of that branch: is what was moved aside what was admitted? */
    method ProveRetired(admitted: ObjectId) returns (r: Result<()>)
      requires Valid() && Last().pc.Reprobe? && Last().admission == Forced(admitted)
      modifies this
      ensures Valid() && old(history) <= history
      ensures match r case Ok(_) => Last().pc.Published? case Err(e) => Last().pc == CleanUp(e)
    {
      hide Filesystem.Rename, Filesystem.RemoveDir, Filesystem.CreateDir, Filesystem.RemoveDirAll, Write;
      var proof := DestinationIdentity(c.retired, Reprobe, Reopen);
      if proof.Err? {
        return Err(proof.error);
      }
      if proof.value != Some(admitted) {
        var _ := Rename(PutBack, c.retired, c.name);
        return Err(DestChanged);
      }
      r := MoveIn();
    }

    /** The end of that branch, once the retired object is proven. */
    method MoveIn() returns (r: Result<()>)
      requires Valid() && Last().pc.MoveForced?
      modifies this
      ensures Valid() && old(history) <= history
      ensures match r case Ok(_) => Last().pc.Published? case Err(e) => Last().pc == CleanUp(e)
    {
      var moved := Rename(MoveForced, c.staged, c.name);
      if moved {
        var _ := RemoveDirAll(Reap, c.retired);
        return Ok(());
      }
      var back := Rename(Restore, c.retired, c.name);
      return Err(if back then MoveFailed else RestoreFailed);
    }

    /** One export: the steps it takes are a run of the protocol, so all that is
        proved of runs holds of it. */
    method WriteBundle() returns (r: Result<()>)
      requires Valid() && history == [Init(fs)]
      modifies this
      ensures Valid() && history[0] == Init(old(fs))
      ensures match r case Ok(_) => Last().pc.Published? case Err(e) => Last().pc == Refused(e)
      ensures Calm(weather) ==> Last().pc == Verdict(c, old(fs), turns(Fill).read, Last().failed)
      ensures Calm(weather) && Faultless(turns) ==> (r.Ok? <==> Replaceable(c, old(fs), turns(Fill).read))
    {
      r := TakeSteps();
      EndsAsTold();
    }

    /** When nobody disturbs it, a session that is over ended as its verdict says. */
    lemma EndsAsTold()
      requires Valid() && Over(Last().pc)
      ensures Calm(weather) ==> Last().pc == Verdict(c, history[0].fs, turns(Fill).read, Last().failed)
      ensures Calm(weather) && Faultless(turns) ==> (Last().pc.Published? <==> Replaceable(c, history[0].fs, turns(Fill).read))
    {
      hide Verdict, Replaceable, Follows;
      if Calm(weather) {
        FollowsIsCalm(c, turns, weather, history);
        CalmOutcome(c, history, turns(Fill).read);
        if Faultless(turns) {
          NothingFails(c, turns, weather, history, |history| - 1);
          FaultFreeOutcome(c, history, turns(Fill).read);
        }
      }
    }

    /** The body of `write_bundle`. */
    method TakeSteps() returns (r: Result<()>)
      requires Valid() && history == [Init(fs)]
      modifies this
      ensures Valid() && history[0] == Init(old(fs))
      ensures match r case Ok(_) => Last().pc.Published? case Err(e) => Last().pc == Refused(e)
    {
      hide Filesystem.Rename, Filesystem.RemoveDir, Filesystem.CreateDir, Filesystem.RemoveDirAll, Write;
      var admission := CheckDestination();
      if admission.Err? {
        return Err(admission.error);
      }
      var made := CreateDir(Stage, c.staged);
      if !made {
        return Err(StageFailed);
      }
      var sources := CopyTrees();
      if sources.Err? {
        Discard(sources.error);
        return Err(sources.error);
      }
      r := SwapIntoPlace(admission.value, sources.value);
      if r.Err? {
        Discard(r.error);
      }
    }

    /** The staging directory goes when its guard drops. */
    method Discard(reason: Reason)
      requires Valid() && Last().pc == CleanUp(reason)
      modifies this
      ensures Valid() && old(history) <= history && Last().pc == Refused(reason)
    {
      hide Filesystem.Rename, Filesystem.RemoveDir, Filesystem.CreateDir, Write;
      var _ := RemoveDirAll(CleanUp(reason), c.staged);
    }
  }

  function LookedUp(fs: Fs, n: Name, fails: bool): Lookup {
    if fails then Unreadable
    else if n !in fs.links || fs.links[n] !in fs.nodes then Missing
    else Lookup.Found(fs.nodes[fs.links[n]], fs.links[n])
  }

  function OpenedDir(fs: Fs, n: Name, fails: bool): Lookup {
    var looked := LookedUp(fs, n, fails);
    if looked.Found? && !looked.node.Directory? then Unreadable else looked
  }

  /** Where the answer of `destination_identity` leads, for either name. */
  ghost function AfterDest(s: State, r: Result<Option<ObjectId>>): Pc {
    match r
    case Err(e) => CleanUp(e)
    case Ok(current) =>
      if current.Some? && current.value in s.sources then CleanUp(DestIsSource)
      else if s.admission.Vacant? || current != Some(s.admission.id) then CleanUp(DestChanged)
      else if s.admission.Empty? then ClearEmpty
      else ProbeRetired
  }

  ghost function AfterRetired(s: State, r: Result<Option<ObjectId>>): Pc {
    match r
    case Err(e) => CleanUp(e)
    case Ok(current) => if !s.admission.Vacant? && current == Some(s.admission.id) then MoveForced else PutBack
  }

  // ------------------------------------------------------------- where the answers lead

  predicate Probes(pc: Pc) {
    pc.ProbeDest? || pc.OpenDest? || pc.Reprobe? || pc.Reopen?
  }

  lemma ProbesChangeNothing(c: Config, pc: Pc)
    requires Probes(pc)
    ensures forall s: State, t: Turn | s.pc == pc :: Call(c, s, t) == Answer(s.fs, !t.fails)
  {
  }

  ghost function After(s: State, dest: bool, r: Result<Option<ObjectId>>): Pc {
    if dest then AfterDest(s, r) else AfterRetired(s, r)
  }

  lemma ProbeLeads(c: Config, s: State, fails: bool)
    requires s.pc.ProbeDest? || s.pc.Reprobe?
    ensures
      var dest := s.pc.ProbeDest?;
      var r := LookedUp(s.fs, if dest then c.name else c.retired, fails);
      Next(c, s, !fails) ==
        match r
        case Unreadable => After(s, dest, Err(if dest then ProbeFailed else ReprobeFailed))
        case Missing => After(s, dest, Ok(None))
        case Found(node, _) => if !node.Directory? then After(s, dest, Ok(None)) else if dest then OpenDest else Reopen
    ensures
      var r := LookedUp(s.fs, if s.pc.ProbeDest? then c.name else c.retired, fails);
      r.Found? ==> Seen(c, s) == r.id
  {
  }

  lemma OpenLeads(c: Config, s: State, fails: bool)
    requires s.pc.OpenDest? || s.pc.Reopen?
    requires s.fs.Wf()
    ensures
      var dest := s.pc.OpenDest?;
      var r := OpenedDir(s.fs, if dest then c.name else c.retired, fails);
      Next(c, s, !fails) ==
        match r
        case Unreadable => After(s, dest, Err(if dest then ProbeFailed else ReprobeFailed))
        case Missing => After(s, dest, Ok(None))
        case Found(_, id) => After(s, dest, Ok(if id == s.seen then Some(id) else None))
  {
    hide Inspected, Admitted, Seen, Decision, Call;
    if s.pc.OpenDest? {
      hide Recompared, AfterRetired;
    } else {
      hide Compared, AfterDest;
    }
  }
}
