/** The skills of an export and its publication, together. */
module ExportSafety {
  import opened Options
  import opened Filesystem
  import opened LiveTree
  import opened SkillBundles
  import opened SkillSafety
  import P = Publish
  import S = PublishSafety

  /** Each directory of skills that a bundle carries was read, by this export's
      own walk, from a root that no later call of the export deletes, empties or
      changes. */
  lemma SkillRootsSurvive(live: Live, install: ObjectId, list: seq<Source>, spare: nat, start: Bundles, alias: Name,
    c: P.Config, run: seq<P.State>, k: nat, t: P.Turn, i: nat, u: P.Turn)
    requires start.pass.out == map[] && CopyBundleList(live, install, list, spare, start).Some?
    requires alias in CopyBundleList(live, install, list, spare, start).value.pass.out
    requires P.Run(c, run) && k < i && i + 1 < |run|
    requires run[k].pc.Fill? && run[k+1] == P.Step(c, run[k], t) && !t.fails
    requires t.read == set h | h in CopyBundleList(live, install, list, spare, start).value.sources
    requires run[i+1] == P.Step(c, run[i], u)
    ensures
      var b := CopyBundleList(live, install, list, spare, start).value;
      && b.pass.out[alias].Branch?
      && exists h :: h in b.sources && SourcedAt(live, install, list, spare, start, h, alias, b.pass.out[alias].below, b.pass.clock)
           && Survives(run, k, i, h)
  {
    hide CopyBundleList, P.Run, P.Step, SourcedAt, Destroyed;
    var b := CopyBundleList(live, install, list, spare, start).value;
    BundlesAreSourced(live, install, list, spare, start);
    var skills := b.pass.out[alias].below;
    assert Sourced(live, install, list, spare, start, b.sources, alias, skills, b.pass.clock);
    var h :| h in b.sources && SourcedAt(live, install, list, spare, start, h, alias, skills, b.pass.clock);
    if h in run[k].fs.nodes && run[k].stagedId != Some(h) {
      S.NoSourceIsDeleted(c, run, k, t, i, u, b.sources, h);
    }
  }

  /** An object that was there when the copy ended, and is not the export's stage,
      is not destroyed by step `i`. */
  ghost predicate Survives(run: seq<P.State>, k: nat, i: nat, h: ObjectId)
    requires k < |run| && i + 1 < |run|
  {
    h in run[k].fs.nodes && run[k].stagedId != Some(h) ==> h !in Destroyed(run[i].fs, run[i+1].fs)
  }
}
