/** The migration keeps the order of the lines of every table. */
module MigrationOrder {
  import opened Options
  import opened TextLines
  import opened SkillMigration
  import opened MigrationConserves

  // ------------------------------------------------------------- what is promised

  function LineAt(u: Option<string>, p: Place): seq<string> {
    if p.At? && p.table == u then [p.line] else []
  }

  /** The lines that stand under table `u`, blank ones apart, in order. */
  function Under(u: Option<string>, t: Option<string>, cs: seq<string>): seq<string> {
    if cs == [] then [] else
      Under(u, t, cs[..|cs|-1]) + LineAt(u, PlaceOf(TableAfter(t, cs), cs[|cs|-1]))
  }

  predicate Moved(t: Option<string>, c: string) {
    (t == SKILL && Provenance(c)) || Lifted(t)
  }

  /** The lines that are at home under table `u`, in order: those that move there,
      or those that stay. */
  function Homing(u: Option<string>, t: Option<string>, cs: seq<string>, moved: bool): seq<string> {
    if cs == [] then [] else
      var here, c := TableAfter(t, cs), cs[|cs|-1];
      Homing(u, t, cs[..|cs|-1], moved) + (if Moved(here, c) == moved then LineAt(u, Home(here, c)) else [])
  }

  function Header(u: Option<string>): seq<string> {
    if u == FORGE then ["[forge]"] else []
  }

  /** Under every table stand the lines that stay there, in their order, and
      after them those that are moved there, in theirs. */
  ghost predicate InOrder(before: string, after: string) {
    forall u :: Under(u, None, Contents(after)) ==
      Homing(u, None, Contents(before), false) + Header(u) + Homing(u, None, Contents(before), true)
  }

  // ------------------------------------------------------------- piece by piece

  lemma {:induction false} UnderBoth(u: Option<string>, t: Option<string>, a: seq<string>, b: seq<string>)
    ensures Under(u, t, a + b) == Under(u, t, a) + Under(u, TableAfter(t, a), b)
  {
    hide TableName, PlaceOf, TableAfter, LineAt;
    if b == [] {
      assert a + b == a;
    } else {
      assert (a + b)[..|a+b|-1] == a + b[..|b|-1];
      UnderBoth(u, t, a, b[..|b|-1]);
      TableAfterBoth(t, a, b);
    }
  }

  lemma {:induction false} HomingBoth(u: Option<string>, t: Option<string>, a: seq<string>, b: seq<string>, moved: bool)
    ensures Homing(u, t, a + b, moved) == Homing(u, t, a, moved) + Homing(u, TableAfter(t, a), b, moved)
  {
    hide TableName, Home, Moved, TableAfter, LineAt;
    if b == [] {
      assert a + b == a;
    } else {
      assert (a + b)[..|a+b|-1] == a + b[..|b|-1];
      HomingBoth(u, t, a, b[..|b|-1], moved);
      TableAfterBoth(t, a, b);
    }
  }

  /** Behind a header it does not matter what table was in force before. */
  lemma {:induction false} HeaderRules(u: Option<string>, t: Option<string>, cs: seq<string>, moved: bool)
    requires cs != [] && TableName(cs[0]).Some?
    ensures Under(u, t, cs) == Under(u, None, cs) && Homing(u, t, cs, moved) == Homing(u, None, cs, moved)
  {
    hide TableName, PlaceOf, Home, Places, Homes, Moved, LineAt;
    HeaderDecides(t, None, cs);
    if |cs| > 1 {
      HeaderRules(u, t, cs[..|cs|-1], moved);
    } else {
      assert cs[..|cs|-1] == [];
    }
  }

  lemma OneUnder(u: Option<string>, t: Option<string>, h: string, moved: bool)
    requires TableName(h).Some?
    ensures Under(u, t, [h]) == LineAt(u, At(TableName(h), h))
    ensures Homing(u, t, [h], moved) == if Moved(TableName(h), h) == moved then LineAt(u, Home(TableName(h), h)) else []
    ensures TableAfter(t, [h]) == TableName(h)
  {
    HeaderIsNoKey(h);
    hide TableName, Home, LineAt, Moved;
    assert [h][..0] == [];
    assert TableAfter(t, [h]) == TableName(h);
  }

  lemma HeadUnder(u: Option<string>, s: Section, moved: bool)
    requires Proper(s) && s.table.Some?
    ensures
      var h, rest := Content(s.buf[0]), ContentsOf(s.buf[1..]);
      && !Provenance(h) && h != "" && TableName(h) == s.table
      && Under(u, None, ContentsOf(s.buf)) == LineAt(u, At(s.table, h)) + Under(u, s.table, rest)
      && Homing(u, None, ContentsOf(s.buf), moved) ==
           (if Moved(s.table, h) == moved then LineAt(u, Home(s.table, h)) else []) + Homing(u, s.table, rest, moved)
  {
    hide TableName, Content, Home, Plain, Moved, LineAt, Under, Homing, TableAfter;
    var h, rest := Content(s.buf[0]), ContentsOf(s.buf[1..]);
    assert ContentsOf(s.buf) == [h] + rest;
    HeaderIsNoKey(h);
    OneUnder(u, None, h, moved);
    UnderBoth(u, None, [h], rest);
    HomingBoth(u, None, [h], rest, moved);
  }

  lemma {:induction false} OtherBody(u: Option<string>, t: Option<string>, cs: seq<string>)
    requires Plain(cs) && t != SKILL && !Lifted(t)
    ensures Homing(u, t, cs, false) == Under(u, t, cs) && Homing(u, t, cs, true) == []
  {
    hide TableName, Lifted, Provenance, LineAt;
    if cs != [] {
      OtherBody(u, t, cs[..|cs|-1]);
      PlainKeepsTable(t, cs);
    }
  }

  lemma {:induction false} LiftedLines(u: Option<string>, t: Option<string>, cs: seq<string>)
    requires Plain(cs) && Lifted(t)
    ensures Homing(u, t, cs, true) == Under(u, Some("forge." + Suffix(t)), cs) && Homing(u, t, cs, false) == []
  {
    hide TableName, Lifted, Suffix, Provenance, LineAt;
    LiftedTables(t);
    if cs != [] {
      LiftedLines(u, t, cs[..|cs|-1]);
      PlainKeepsTable(t, cs);
      PlainKeepsTable(Some("forge." + Suffix(t)), cs);
    }
  }

  lemma OneMore(u: Option<string>, t: Option<string>, cs: seq<string>, c: string)
    requires Plain(cs) && TableName(c).None?
    ensures Under(u, t, cs + [c]) == Under(u, t, cs) + LineAt(u, PlaceOf(t, c))
  {
    hide TableName, LineAt;
    assert (cs + [c])[..|cs|] == cs;
    PlainKeepsTable(t, cs + [c]);
  }

  lemma OneHomeMore(u: Option<string>, cs: seq<string>, c: string, moved: bool)
    requires Plain(cs) && TableName(c).None?
    ensures Homing(u, SKILL, cs + [c], moved) ==
            Homing(u, SKILL, cs, moved) + (if Provenance(c) == moved then LineAt(u, Home(SKILL, c)) else [])
    ensures Home(SKILL, c) == PlaceOf(if Provenance(c) then FORGE else SKILL, c)
  {
    LiftedTables(SKILL);
    assert !Provenance("");
    hide TableName, LineAt, Lifted, Provenance;
    assert (cs + [c])[..|cs|] == cs;
    PlainKeepsTable(SKILL, cs + [c]);
  }

  lemma {:induction false} SkillLines(u: Option<string>, ls: seq<string>)
    requires Plain(ContentsOf(ls))
    ensures Homing(u, SKILL, ContentsOf(ls), false) == Under(u, SKILL, ContentsOf(Others(ls)))
    ensures Homing(u, SKILL, ContentsOf(ls), true) == Under(u, FORGE, ContentsOf(Provenances(ls)))
  {
    hide TableName, Content, Provenance, Lifted, Plain, ContentsOf, TableAfter, LineAt, Home, PlaceOf;
    NothingPlain();
    if ls != [] {
      var front, l := ls[..|ls|-1], ls[|ls|-1];
      assert ls == front + [l];
      ContentsOfSnoc(front, l);
      PlainLonger(front, l);
      PlainParts(front);
      SkillLines(u, front);
      OneHomeMore(u, ContentsOf(front), Content(l), false);
      OneHomeMore(u, ContentsOf(front), Content(l), true);
      if Provenance(Content(l)) {
        OneMore(u, FORGE, ContentsOf(Provenances(front)), Content(l));
        ContentsOfSnoc(Provenances(front), l);
        assert Others(front) + [] == Others(front);
      } else {
        OneMore(u, SKILL, ContentsOf(Others(front)), Content(l));
        ContentsOfSnoc(Others(front), l);
        assert Provenances(front) + [] == Provenances(front);
      }
    }
  }

  // ------------------------------------------------------------- one section

  /** What stays of a section, and what moves, each in order. */
  lemma SectionInOrder(u: Option<string>, s: Section)
    requires Proper(s)
    ensures Homing(u, None, ContentsOf(s.buf), false) == if Lifted(s.table) then [] else Under(u, None, ContentsOf(Kept(s)))
    ensures Homing(u, None, ContentsOf(s.buf), true) ==
            if Lifted(s.table) then Under(u, None, ContentsOf(Renamed(s))) else Under(u, FORGE, ContentsOf(Keys(s)))
  {
    hide TableName, Content, ContentsOf, Homing, Under, Lifted, Others, Provenances, LineAt, Plain;
    LiftedTables(s.table);
    NothingUnder(u, FORGE);
    if s.table == SKILL {
      SkillInOrder(u, s);
    } else if Lifted(s.table) {
      LiftedInOrder(u, s);
    } else if s.table.Some? {
      HeadUnder(u, s, true);
      HeadUnder(u, s, false);
      OtherBody(u, s.table, ContentsOf(s.buf[1..]));
    } else {
      OtherBody(u, None, ContentsOf(s.buf));
    }
  }

  lemma NothingUnder(u: Option<string>, t: Option<string>)
    ensures Under(u, t, ContentsOf([])) == []
  {
  }

  lemma SkillInOrder(u: Option<string>, s: Section)
    requires Proper(s) && s.table == SKILL
    ensures Homing(u, None, ContentsOf(s.buf), false) == Under(u, None, ContentsOf(Kept(s)))
    ensures Homing(u, None, ContentsOf(s.buf), true) == Under(u, FORGE, ContentsOf(Keys(s)))
  {
    hide TableName, Homing, Under, Lifted, Content, Others, Provenances, LineAt;
    LiftedTables(SKILL);
    HeadUnder(u, s, true);
    HeadUnder(u, s, false);
    SkillLines(u, s.buf[1..]);
    PlainParts(s.buf[1..]);
    assert Kept(s)[1..] == Others(s.buf[1..]);
    HeadUnder(u, Section(SKILL, Kept(s)), false);
  }

  lemma LiftedInOrder(u: Option<string>, s: Section)
    requires Proper(s) && Lifted(s.table)
    ensures Homing(u, None, ContentsOf(s.buf), false) == []
    ensures Homing(u, None, ContentsOf(s.buf), true) == Under(u, None, ContentsOf(Renamed(s)))
  {
    hide TableName, Homing, Under, Lifted, Suffix, LineAt;
    LiftedTables(s.table);
    HeadUnder(u, s, true);
    HeadUnder(u, s, false);
    RenamedIsProper(s);
    HeadUnder(u, Section(Some("forge." + Suffix(s.table)), Renamed(s)), true);
    LiftedLines(u, s.table, ContentsOf(s.buf[1..]));
  }

  /** A section leaves nothing under another table. */
  lemma Elsewhere(u: Option<string>, s: Section)
    requires Proper(s) && s.table != u
    ensures Under(u, None, ContentsOf(s.buf)) == []
  {
    hide TableName, Homing, Under, Content, Plain;
    if s.table.Some? {
      HeadUnder(u, s, true);
      BodyElsewhere(u, s.table, ContentsOf(s.buf[1..]));
    } else {
      BodyElsewhere(u, None, ContentsOf(s.buf));
    }
  }

  lemma {:induction false} BodyElsewhere(u: Option<string>, t: Option<string>, cs: seq<string>)
    requires Plain(cs) && t != u
    ensures Under(u, t, cs) == []
  {
    hide TableName;
    if cs != [] {
      BodyElsewhere(u, t, cs[..|cs|-1]);
      PlainKeepsTable(t, cs);
    }
  }

  // ------------------------------------------------------------- all sections

  function TablesUnder(u: Option<string>, bufs: seq<seq<string>>): seq<string> {
    if bufs == [] then [] else TablesUnder(u, bufs[..|bufs|-1]) + Under(u, None, ContentsOf(bufs[|bufs|-1]))
  }

  /** More lines, of which the first is a header unless there are none before. */
  lemma FollowedInOrder(u: Option<string>, a: seq<string>, b: seq<string>, moved: bool)
    requires a == [] || Opens(b)
    ensures Under(u, None, ContentsOf(a + b)) == Under(u, None, ContentsOf(a)) + Under(u, None, ContentsOf(b))
    ensures Homing(u, None, ContentsOf(a + b), moved) == Homing(u, None, ContentsOf(a), moved) + Homing(u, None, ContentsOf(b), moved)
  {
    hide TableName, Under, Homing, Content, TableAfter;
    ContentsOfBoth(a, b);
    UnderBoth(u, None, ContentsOf(a), ContentsOf(b));
    HomingBoth(u, None, ContentsOf(a), ContentsOf(b), moved);
    if a == [] {
      PlainKeepsTable(None, ContentsOf(a));
    } else {
      HeaderRules(u, TableAfter(None, ContentsOf(a)), ContentsOf(b), moved);
    }
  }

  lemma SectionFollows(u: Option<string>, secs: seq<Section>, s: Section, moved: bool)
    requires Proper(s) && (secs == [] || s.table.Some?)
    ensures Under(u, None, ContentsOf(Flat(secs + [s]))) == Under(u, None, ContentsOf(Flat(secs))) + Under(u, None, ContentsOf(s.buf))
    ensures Homing(u, None, ContentsOf(Flat(secs + [s])), moved) ==
            Homing(u, None, ContentsOf(Flat(secs)), moved) + Homing(u, None, ContentsOf(s.buf), moved)
  {
    hide TableName, Under, Homing, Content, ContentsOf, Plain, Opens, Proper;
    if secs == [] {
      assert Flat(secs) == [];
    } else {
      ProperOpens(s);
    }
    FlatSnoc(secs, s);
    FollowedInOrder(u, Flat(secs), s.buf, moved);
  }

  lemma {:induction false} KeptInOrder(u: Option<string>, secs: seq<Section>)
    requires AllProper(secs) && AllHeaded(secs)
    ensures Homing(u, None, ContentsOf(Flat(secs)), false) == Under(u, None, ContentsOf(Flat(NewSections(secs))))
  {
    hide Under, Homing, ContentsOf, Lifted, Kept, Proper, Flat, NewSections;
    if secs == [] {
      NothingInOrder(u);
    } else {
      var init, s := secs[..|secs|-1], secs[|secs|-1];
      KeptInOrder(u, init);
      SectionInOrder(u, s);
      assert secs == init + [s];
      SectionFollows(u, init, s, false);
      KeptFollows(u, secs);
    }
  }

  lemma KeptFollows(u: Option<string>, secs: seq<Section>)
    requires secs != [] && AllProper(secs) && AllHeaded(secs)
    ensures
      var s := secs[|secs|-1];
      Under(u, None, ContentsOf(Flat(NewSections(secs)))) ==
        Under(u, None, ContentsOf(Flat(NewSections(secs[..|secs|-1]))))
        + (if Lifted(s.table) then [] else Under(u, None, ContentsOf(Kept(s))))
  {
    hide Under, Homing, ContentsOf, Lifted, Kept, Proper, Flat, AllKeys, AllRenamed, Renamed, Keys;
    var init, s := secs[..|secs|-1], secs[|secs|-1];
    if Lifted(s.table) {
      assert NewSections(secs) == NewSections(init);
    } else {
      NewAreProper(init);
      NewIsProper(s);
      KeptHeads(secs);
      assert NewSections(secs) == NewSections(init) + [Section(s.table, Kept(s))];
      hide AllProper, NewSections;
      SectionFollows(u, NewSections(init), Section(s.table, Kept(s)), false);
    }
  }

  lemma NothingInOrder(u: Option<string>)
    ensures Homing(u, None, ContentsOf(Flat([])), false) == Homing(u, None, ContentsOf(Flat([])), true) == []
    ensures Under(u, None, ContentsOf(Flat([]))) == [] && NewSections([]) == []
  {
  }

  /** Under `[forge]` arrive the keys, in order, and nothing else. */
  lemma {:induction false} KeysArrive(secs: seq<Section>)
    requires AllProper(secs) && AllHeaded(secs)
    ensures Homing(FORGE, None, ContentsOf(Flat(secs)), true) == Under(FORGE, FORGE, ContentsOf(AllKeys(secs)))
  {
    hide Under, Homing, ContentsOf, Lifted, Kept, Keys, Proper, Flat, Plain, Renamed;
    if secs == [] {
      NothingInOrder(FORGE);
      NothingUnder(FORGE, FORGE);
    } else {
      var init, s := secs[..|secs|-1], secs[|secs|-1];
      KeysArrive(init);
      SectionInOrder(FORGE, s);
      assert secs == init + [s];
      SectionFollows(FORGE, init, s, true);
      NewAreProper(init);
      KeysFollow(AllKeys(init), Keys(s));
      if Lifted(s.table) {
        LiftedElsewhere(s);
      }
    }
  }

  lemma KeysFollow(a: seq<string>, b: seq<string>)
    requires Plain(ContentsOf(a))
    ensures Under(FORGE, FORGE, ContentsOf(a + b)) == Under(FORGE, FORGE, ContentsOf(a)) + Under(FORGE, FORGE, ContentsOf(b))
  {
    hide TableName, Under, Content;
    ContentsOfBoth(a, b);
    UnderBoth(FORGE, FORGE, ContentsOf(a), ContentsOf(b));
    PlainKeepsTable(FORGE, ContentsOf(a));
  }

  lemma LiftedElsewhere(s: Section)
    requires Proper(s) && Lifted(s.table)
    ensures Under(FORGE, None, ContentsOf(Renamed(s))) == [] && Under(FORGE, FORGE, ContentsOf(Keys(s))) == []
  {
    hide TableName, Proper, ContentsOf, Renamed, Under, Lifted;
    LiftedTables(s.table);
    NewIsProper(s);
    RenamedIsProper(s);
    var name := "forge." + Suffix(s.table);
    assert Some(name) != FORGE;
    Elsewhere(FORGE, Section(Some(name), Renamed(s)));
    NothingUnder(FORGE, FORGE);
  }

  /** Under any other table arrive the lifted tables, in order. */
  lemma {:induction false} TablesArrive(u: Option<string>, secs: seq<Section>)
    requires AllProper(secs) && AllHeaded(secs) && u != FORGE
    ensures Homing(u, None, ContentsOf(Flat(secs)), true) == TablesUnder(u, AllRenamed(secs))
  {
    hide Under, Homing, ContentsOf, Lifted, Kept, Keys, Proper, Flat, Plain, Renamed;
    if secs == [] {
      NothingInOrder(u);
    } else {
      var init, s := secs[..|secs|-1], secs[|secs|-1];
      TablesArrive(u, init);
      SectionInOrder(u, s);
      assert secs == init + [s];
      SectionFollows(u, init, s, true);
      NewIsProper(s);
      if Lifted(s.table) {
        assert AllRenamed(secs)[..|AllRenamed(init)|] == AllRenamed(init);
      } else {
        assert AllRenamed(secs) == AllRenamed(init);
        BodyElsewhere(u, FORGE, ContentsOf(Keys(s)));
      }
    }
  }

  lemma {:induction false} NoTablesUnderForge(secs: seq<Section>)
    requires AllProper(secs) && AllHeaded(secs)
    ensures TablesUnder(FORGE, AllRenamed(secs)) == []
  {
    hide Under, ContentsOf, Lifted, Proper, Renamed;
    if secs != [] {
      var init, s := secs[..|secs|-1], secs[|secs|-1];
      NoTablesUnderForge(init);
      if Lifted(s.table) {
        LiftedElsewhere(s);
        assert AllRenamed(secs)[..|AllRenamed(init)|] == AllRenamed(init);
      } else {
        assert AllRenamed(secs) == AllRenamed(init);
      }
    }
  }

  ghost predicate NoForge(secs: seq<Section>) {
    forall i | 0 <= i < |secs| :: secs[i].table != FORGE
  }

  lemma {:induction false} NothingUnderForge(secs: seq<Section>)
    requires AllProper(secs) && NoForge(secs)
    ensures Under(FORGE, None, ContentsOf(Flat(secs))) == []
  {
    hide Under, ContentsOf, Proper, Flat;
    if secs == [] {
      NothingInOrder(FORGE);
    } else {
      var init, s := secs[..|secs|-1], secs[|secs|-1];
      NothingUnderForge(init);
      assert secs == init + [s];
      SectionFollows(FORGE, init, s, true);
      Elsewhere(FORGE, s);
    }
  }

  lemma {:induction false} NoNewForge(secs: seq<Section>)
    requires AllHeaded(secs) && NoForge(secs)
    ensures NoForge(NewSections(secs))
  {
    hide Kept, Lifted;
    if secs != [] {
      NoNewForge(secs[..|secs|-1]);
    }
  }

  lemma NoForgeBefore(text: string)
    requires !HasForge(Lines(text))
    ensures NoForge(SectionsOf(text))
  {
    hide Cut, Lines, Contents, ContentsOf, Flat, Chain, TableName, Content, AllEnded;
    SectionsHold(text);
    var secs := SectionsOf(text);
    forall i | 0 <= i < |secs| ensures secs[i].table != FORGE {
      if secs[i].table == FORGE {
        assert secs[i] in secs && secs[i].buf[0] in secs[i].buf;
        FlatIn(secs, secs[i], secs[i].buf[0]);
      }
    }
  }

  // ------------------------------------------------------------- the new text

  lemma {:induction false} UnderTables(u: Option<string>, t: Option<string>, bufs: seq<seq<string>>)
    requires forall b <- bufs :: Opens(b)
    ensures Under(u, t, TablesContents(bufs)) == TablesUnder(u, bufs)
  {
    hide Opens, Under, Homing, Content, ContentsOf, TableName;
    if bufs == [] {
      NothingUnder(u, t);
      NothingPlain();
    } else {
      var front, b := bufs[..|bufs|-1], bufs[|bufs|-1];
      UnderTables(u, t, front);
      assert b in bufs;
      var cs := TablesContents(front);
      UnderBoth(u, t, cs + [""], ContentsOf(b));
      UnderBoth(u, t, cs, [""]);
      BlankUnder(u, TableAfter(t, cs));
      OpensRules(u, TableAfter(t, cs + [""]), b);
    }
  }

  lemma OpensRules(u: Option<string>, t: Option<string>, b: seq<string>)
    requires Opens(b)
    ensures Under(u, t, ContentsOf(b)) == Under(u, None, ContentsOf(b))
  {
    hide Under, Homing, TableName, Content;
    HeaderRules(u, t, ContentsOf(b), true);
  }

  lemma BlankUnder(u: Option<string>, t: Option<string>)
    ensures Under(u, t, [""]) == []
  {
    assert [""][..0] == [];
  }

  lemma ForgeUnder(u: Option<string>, t: Option<string>)
    ensures Under(u, t, ["", "[forge]"]) == Header(u) && TableAfter(t, ["", "[forge]"]) == FORGE
  {
    hide TableName;
    ForgeHeader();
    BlankUnder(u, t);
    ForgeLines(t);
    assert ["", "[forge]"][..1] == [""];
  }

  /** Where the lines of the pieces stand, in order. */
  lemma PiecesUnder(u: Option<string>, front: seq<string>, keys: seq<string>, rest: seq<string>, bufs: seq<seq<string>>)
    requires (rest == [] || Opens(rest)) && forall b <- bufs :: Opens(b)
    ensures
      Under(u, None, ContentsOf(front) + ["", "[forge]"] + ContentsOf(keys) + ContentsOf(rest) + TablesContents(bufs)) ==
        Under(u, None, ContentsOf(front)) + Header(u) + Under(u, FORGE, ContentsOf(keys)) + Under(u, None, ContentsOf(rest))
        + TablesUnder(u, bufs)
  {
    hide Opens, Under, Content, ContentsOf, TableName, TableAfter, TablesContents, TablesUnder, Header;
    var f, k, r, t := ContentsOf(front), ContentsOf(keys), ContentsOf(rest), TablesContents(bufs);
    var head := ["", "[forge]"];
    UnderBoth(u, None, f + head + k + r, t);
    UnderBoth(u, None, f + head + k, r);
    UnderBoth(u, None, f + head, k);
    UnderBoth(u, None, f, head);
    TableAfterBoth(None, f, head);
    ForgeUnder(u, TableAfter(None, f));
    UnderTables(u, TableAfter(None, f + head + k + r), bufs);
    if rest == [] {
      NothingUnder(u, None);
      NothingUnder(u, TableAfter(None, f + head + k));
    } else {
      OpensRules(u, TableAfter(None, f + head + k), rest);
    }
  }

  lemma AroundKeys(u: Option<string>, front: seq<string>, rest: seq<string>)
    requires front == [] || rest == [] || Opens(rest)
    ensures Under(u, None, ContentsOf(front + rest)) == Under(u, None, ContentsOf(front)) + Under(u, None, ContentsOf(rest))
  {
    hide Under, Homing, Opens, ContentsOf;
    if rest == [] {
      assert front + rest == front;
      NothingUnder(u, None);
    } else {
      FollowedInOrder(u, front, rest, true);
    }
  }

  /** Unless a key stands stranded, every table keeps its lines in order. */
  lemma TableInOrder(u: Option<string>, secs: seq<Section>)
    requires Broken(secs) && !Stranded(secs) && NoForge(secs)
    ensures
      Under(u, None, Contents(Assembled(secs))) ==
        Homing(u, None, ContentsOf(Flat(secs)), false) + Header(u) + Homing(u, None, ContentsOf(Flat(secs)), true)
  {
    hide AllProper, Flat, Chain, AllEnded, Contents, ContentsOf, Assembled, NewSections, AllKeys, AllRenamed, Under, Homing,
      TablesContents, TablesUnder, Opens, Plain, Stranded, UpToSkill, EndedSections, NoForge;
    var kept, keys, bufs := NewSections(secs), AllKeys(secs), AllRenamed(secs);
    var n := UpToSkill(kept, 0);
    var front, rest := Flat(kept[..n]), Flat(kept[n..]);
    ContentsOfPieces(secs);
    NewAreProper(secs);
    KeptRest(kept);
    PiecesUnder(u, front, keys, rest, bufs);
    KeptInOrder(u, secs);
    FlatSplits(kept, n);
    AroundKeys(u, front, rest);
    if u == FORGE {
      KeysArrive(secs);
      NoTablesUnderForge(secs);
      NoNewForge(secs);
      NothingAround(kept, n);
    } else {
      TablesArrive(u, secs);
      BodyElsewhere(u, FORGE, ContentsOf(keys));
    }
  }

  lemma KeptRest(kept: seq<Section>)
    requires AllProper(kept)
    ensures
      var rest := Flat(kept[UpToSkill(kept, 0)..]);
      rest == [] || Opens(rest)
  {
    hide AllProper, Flat, Opens, UpToSkill;
    if kept != [] {
      SomethingBefore(kept);
      RestOpens(kept, UpToSkill(kept, 0));
    } else {
      NothingFlat();
    }
  }

  lemma NothingAround(kept: seq<Section>, n: nat)
    requires AllProper(kept) && NoForge(kept) && n <= |kept|
    ensures Under(FORGE, None, ContentsOf(Flat(kept[..n]))) == [] && Under(FORGE, None, ContentsOf(Flat(kept[n..]))) == []
  {
    hide Under, ContentsOf, Flat, Proper;
    NothingUnderForge(kept[..n]);
    NothingUnderForge(kept[n..]);
  }

  /** The migration loses no line, misplaces none, and keeps the order of every
      table, unless the text ends without a line break in a provenance key of a
      `[skill]` table that is not the first: then, and only then, it does not. */
  lemma MigrationIsFaithful(text: string)
    requires Moves(text)
    ensures
      var plan := Migration(text);
      Conserved(text, plan.after, |plan.subtables|) && InOrder(text, plan.after) <==> !LastKeyStrands(text)
  {
    hide Cut, Lines, Contents, ContentsOf, Flat, Chain, AllEnded, LastKeyStrands, Assembled, AllProper, Migration, Stranded, Conserved;
    MigrationConserves.MigrationConserves(text);
    if !LastKeyStrands(text) {
      SectionsHold(text);
      MovesMeans(text);
      StrandedMeans(text);
      NoForgeYet(text);
      var secs := SectionsOf(text);
      forall u ensures
        Under(u, None, Contents(Migration(text).after)) ==
          Homing(u, None, Contents(text), false) + Header(u) + Homing(u, None, Contents(text), true)
      {
        TableInOrder(u, secs);
      }
    }
  }

  lemma NoForgeYet(text: string)
    requires Moves(text)
    ensures NoForge(SectionsOf(text))
  {
    hide Cut, Lines, Assembled, NoForge, HasForge, AllKeyNames, AllSuffixes;
    assert !HasForge(Lines(text));
    NoForgeBefore(text);
  }

  /** With at most one `[skill]` table no line is ever lost, and none changes
      places with another of its table. */
  lemma OneSkillTable(text: string)
    requires Moves(text) && SkillTables(Contents(text)) <= 1
    ensures Conserved(text, Migration(text).after, |Migration(text).subtables|) && InOrder(text, Migration(text).after)
  {
    hide Contents, Migration, Moves, Conserved, TableAfter, Provenance, InOrder;
    MigrationIsFaithful(text);
  }
}
