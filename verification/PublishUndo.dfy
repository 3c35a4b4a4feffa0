/** What becomes of the object that an export sets aside, whoever changes the
    destination meanwhile. */
module PublishUndo {
  import opened Filesystem
  import opened Publish

  ghost predicate Aside(c: Config, s: State, x: ObjectId) {
    c.retired in s.fs.links && s.fs.links[c.retired] == x
  }

  /** At `k` the program tried to move `x` back to the destination. */
  ghost predicate MovedBack(c: Config, run: seq<State>, k: nat, x: ObjectId)
    requires k + 1 < |run|
  {
    Aside(c, run[k], x) && exists t ::
      run[k+1] == Step(c, run[k], t) && run[k+1].fs == Attempt(run[k].fs, t.fails, Rename(run[k].fs, c.retired, c.name)).fs
  }

  ghost predicate PutBackSince(c: Config, run: seq<State>, r: nat, i: nat, x: ObjectId)
    requires i < |run|
  {
    exists k :: r < k < i && run[k].pc.PutBack? && MovedBack(c, run, k, x)
  }

  ghost predicate RestoredSince(c: Config, run: seq<State>, r: nat, i: nat, x: ObjectId)
    requires i < |run|
  {
    exists k :: r < k < i && run[k].pc.Restore? && MovedBack(c, run, k, x)
  }

  /** The object `x` was set aside at `r`: where the export stands at `i`. A changed
      destination is reported only after `x` was moved back; the new bundle is moved
      in, and the old one deleted, only if `x` is what was admitted; when moving in
      failed, `x` was moved back. */
  ghost predicate Aftermath(c: Config, run: seq<State>, r: nat, i: nat, x: ObjectId)
    requires i < |run|
  {
    var s := run[i];
    match s.pc
    case Reprobe => Aside(c, s, x)
    case Reopen => Aside(c, s, x)
    case PutBack => Aside(c, s, x)
    case MoveForced => Aside(c, s, x) && Admits(s.admission, x)
    case Restore => Aside(c, s, x) && Admits(s.admission, x)
    case Reap => Admits(s.admission, x)
    case Published => Admits(s.admission, x)
    case CleanUp(reason) => Explained(c, run, r, i, x, reason)
    case Refused(reason) => Explained(c, run, r, i, x, reason)
    case _ => false
  }

  ghost predicate Explained(c: Config, run: seq<State>, r: nat, i: nat, x: ObjectId, reason: Reason)
    requires i < |run|
  {
    match reason
    case DestChanged => PutBackSince(c, run, r, i, x)
    case MoveFailed => RestoredSince(c, run, r, i, x)
    case RestoreFailed => RestoredSince(c, run, r, i, x)
    case ReprobeFailed => true
    case _ => false
  }

  lemma StepAside(c: Config, s: State, t: Turn, x: ObjectId)
    requires c.Wf() && Aside(c, s, x) && (s.pc.Reprobe? || s.pc.Reopen? || s.pc.MoveForced?)
    ensures Aside(c, Step(c, s, t), x)
  {
    hide Next, Decision, Seen;
  }

  lemma RetireSetsAside(c: Config, s: State, t: Turn)
    requires c.Wf() && s.pc.Retire? && Step(c, s, t).pc.Reprobe?
    ensures c.name in s.fs.links && Aside(c, Step(c, s, t), s.fs.links[c.name])
  {
    hide Decision, Seen;
  }

  lemma ExplainedLater(c: Config, run: seq<State>, r: nat, i: nat, x: ObjectId, reason: Reason)
    requires i + 1 < |run| && Explained(c, run, r, i, x, reason)
    ensures Explained(c, run, r, i + 1, x, reason)
  {
    hide MovedBack;
  }

  lemma StepAftermath(c: Config, run: seq<State>, r: nat, i: nat, t: Turn, x: ObjectId)
    requires c.Wf() && r < i && i + 1 < |run| && run[i+1] == Step(c, run[i], t) && Aftermath(c, run, r, i, x)
    ensures Aftermath(c, run, r, i + 1, x)
  {
    hide Rename, RemoveDirAll, Explained;
    var s := run[i];
    if s.pc.Reprobe? || s.pc.Reopen? || s.pc.MoveForced? {
      StepAside(c, s, t, x);
      FailedLook(c, run, r, i + 1, x);
    } else if s.pc.PutBack? || s.pc.Restore? {
      IsMovedBack(c, run, r, i, t, x);
    } else if s.pc.CleanUp? || s.pc.Refused? {
      ExplainedLater(c, run, r, i, x, s.pc.reason);
    }
  }

  lemma FailedLook(c: Config, run: seq<State>, r: nat, i: nat, x: ObjectId)
    requires i < |run|
    ensures Explained(c, run, r, i, x, ReprobeFailed)
  {
  }

  lemma IsMovedBack(c: Config, run: seq<State>, r: nat, i: nat, t: Turn, x: ObjectId)
    requires r < i && i + 1 < |run| && run[i+1] == Step(c, run[i], t) && Aside(c, run[i], x)
    requires run[i].pc.PutBack? || run[i].pc.Restore?
    ensures run[i].pc.PutBack? ==> Explained(c, run, r, i + 1, x, DestChanged)
    ensures run[i].pc.Restore? ==> Explained(c, run, r, i + 1, x, MoveFailed) && Explained(c, run, r, i + 1, x, RestoreFailed)
  {
    hide Rename, Next, Decision, Seen;
    assert MovedBack(c, run, i, x);
  }

  lemma OthersAftermath(c: Config, run: seq<State>, r: nat, i: nat, x: ObjectId)
    requires i + 1 < |run| && Aftermath(c, run, r, i, x) && Environment(c, run[i], run[i+1])
    ensures Aftermath(c, run, r, i + 1, x)
  {
    hide Explained;
    if run[i].pc.CleanUp? || run[i].pc.Refused? {
      ExplainedLater(c, run, r, i, x, run[i].pc.reason);
    }
  }

  /** Whatever others do, what an export has set aside is accounted for: somebody
      else's object is never deleted, and is moved back before the change of the
      destination is reported, unless looking at it fails. */
  lemma {:induction false} SetAsideIsAccountedFor(c: Config, run: seq<State>, r: nat, i: nat)
    requires Run(c, run) && r < i < |run| && run[r].pc.Retire? && run[r+1].pc.Reprobe?
    ensures c.name in run[r].fs.links && Aftermath(c, run, r, i, run[r].fs.links[c.name])
  {
    hide Aftermath, Rely, Step;
    assert run[r+1].pc != run[r].pc;
    assert Program(c, run[r], run[r+1]);
    var t: Turn :| run[r+1] == Step(c, run[r], t);
    RetireSetsAside(c, run[r], t);
    var x := run[r].fs.links[c.name];
    if i == r + 1 {
      Begun(c, run, r, i, x);
    } else {
      SetAsideIsAccountedFor(c, run, r, i - 1);
      assert Program(c, run[i-1], run[i]) || Environment(c, run[i-1], run[i]);
      if Program(c, run[i-1], run[i]) {
        var u: Turn :| run[i] == Step(c, run[i-1], u);
        StepAftermath(c, run, r, i - 1, u, x);
      } else {
        OthersAftermath(c, run, r, i - 1, x);
      }
    }
  }

  lemma Begun(c: Config, run: seq<State>, r: nat, i: nat, x: ObjectId)
    requires i < |run| && run[i].pc.Reprobe? && Aside(c, run[i], x)
    ensures Aftermath(c, run, r, i, x)
  {
  }
}
