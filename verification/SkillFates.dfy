/** What becomes of every entry of a skill bundle, whoever changes the tree meanwhile. */
module SkillFates {
  import opened Options
  import opened Filesystem
  import opened LiveTree
  import opened CopyTree
  import opened CopyFates
  import opened SkillBundles
  import opened SkillSafety

  /** What the answers the system gives, from the time `t` on, make of an entry of
      the bundle. A loose file is left unmentioned. */
  function SkillFate(live: Live, c: Shelf, name: Name, t: Time): Fate {
    if !c.admits(name) then Excluded
    else match Lstat(live, t, c.dir, name)
      case Some(Found(_, Link)) => IsLink
      case Some(Found(id, Folder(_))) =>
        if c.spare > 0 && OpenDir(live, t + 1, c.dir, name, c.spare - 1) == Some(id) then Entered else Replaced
      case _ => Unmentioned
  }

  /** The fates of the first `i` entries, and of all below the directories entered. */
  ghost function FatesUpTo(live: Live, c: Shelf, i: nat): multiset<Fate>
    requires i <= |ShelfNames(live, c)|
  {
    if i == 0 || BeforeSkill(live, c, i - 1).None? then multiset{} else
      var name, q := ShelfNames(live, c)[i-1], BeforeSkill(live, c, i - 1).value;
      FatesUpTo(live, c, i - 1) + multiset{SkillFate(live, c, name, q.pass.clock)} + FatesBelow(live, c, name, q)
  }

  ghost function FatesBelow(live: Live, c: Shelf, name: Name, q: Skills): multiset<Fate> {
    if SkillFate(live, c, name, q.pass.clock).Entered? then
      AllFates(Job(live, p => true), SkillCall(c, name, Lstat(live, q.pass.clock, c.dir, name).value.id, q))
    else multiset{}
  }

  lemma SkillAccounts(live: Live, c: Shelf, name: Name, q: Skills)
    requires c.spare > 0 && CopySkill(live, c.admits, c.dir, name, c.spare - 1, q).Some?
    ensures Accounted(q.pass.tally, CopySkill(live, c.admits, c.dir, name, c.spare - 1, q).value.pass.tally,
                      multiset{SkillFate(live, c, name, q.pass.clock)} + FatesBelow(live, c, name, q))
  {
    hide CopyDir, AllFates, OpenDir, Fstat;
    if SkillFate(live, c, name, q.pass.clock).Entered? {
      AllAccounted(Job(live, p => true), SkillCall(c, name, Lstat(live, q.pass.clock, c.dir, name).value.id, q));
    }
  }

  lemma {:induction false} SkillsUpTo(live: Live, c: Shelf, i: nat)
    requires i <= |ShelfNames(live, c)| && BeforeSkill(live, c, i).Some?
    ensures Accounted(c.tally, BeforeSkill(live, c, i).value.pass.tally, FatesUpTo(live, c, i))
  {
    hide CopySkill, SkillFate, FatesBelow;
    if i > 0 {
      var names := ShelfNames(live, c);
      assert names[..i] == names[..i-1] + [names[i-1]];
      OneSkillMore(live, c.admits, c.dir, names[..i-1], names[i-1], c.spare - 1, Skills(Pass(c.clock + 1, c.tally, map[]), 0));
      SkillsUpTo(live, c, i - 1);
      SkillAccounts(live, c, names[i-1], BeforeSkill(live, c, i - 1).value);
    }
  }

  /** Whatever is done to the bundle meanwhile: each count goes up by the entries,
      of the bundle and of its skills, that met its fate. */
  lemma SkillsAccount(live: Live, c: Shelf)
    requires ShelfResult(live, c).Some?
    ensures Accounted(c.tally, ShelfResult(live, c).value.pass.tally, FatesUpTo(live, c, |ShelfNames(live, c)|))
  {
    hide CopySkillNames, FatesUpTo;
    var n := |ShelfNames(live, c)|;
    assert ShelfNames(live, c)[..n] == ShelfNames(live, c);
    SkillsUpTo(live, c, n);
  }
}
