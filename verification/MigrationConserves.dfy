/** The migration loses no line, misplaces none, and does nothing the second time. */
module MigrationConserves {
  import opened Options
  import opened MarkdownLines
  import opened TextLines
  import opened SkillMigration

  // ------------------------------------------------------------- places, piece by piece

  lemma {:induction false} TableAfterBoth(t: Option<string>, a: seq<string>, b: seq<string>)
    ensures TableAfter(t, a + b) == TableAfter(TableAfter(t, a), b)
  {
    hide TableName;
    if b == [] {
      assert a + b == a;
    } else {
      assert (a + b)[..|a+b|-1] == a + b[..|b|-1];
      TableAfterBoth(t, a, b[..|b|-1]);
    }
  }

  lemma {:induction false} PlacesOfBoth(t: Option<string>, a: seq<string>, b: seq<string>)
    ensures Places(t, a + b) == Places(t, a) + Places(TableAfter(t, a), b)
  {
    hide TableName, PlaceOf, TableAfter;
    if b == [] {
      assert a + b == a;
    } else {
      assert (a + b)[..|a+b|-1] == a + b[..|b|-1];
      PlacesOfBoth(t, a, b[..|b|-1]);
      TableAfterBoth(t, a, b);
    }
  }

  lemma {:induction false} HomesOfBoth(t: Option<string>, a: seq<string>, b: seq<string>)
    ensures Homes(t, a + b) == Homes(t, a) + Homes(TableAfter(t, a), b)
  {
    hide TableName, Home, TableAfter;
    if b == [] {
      assert a + b == a;
    } else {
      assert (a + b)[..|a+b|-1] == a + b[..|b|-1];
      HomesOfBoth(t, a, b[..|b|-1]);
      TableAfterBoth(t, a, b);
    }
  }

  /** Behind a header it does not matter what table was in force before. */
  lemma {:induction false} HeaderDecides(t: Option<string>, u: Option<string>, cs: seq<string>)
    requires cs != [] && TableName(cs[0]).Some?
    ensures TableAfter(t, cs) == TableAfter(u, cs) && Places(t, cs) == Places(u, cs) && Homes(t, cs) == Homes(u, cs)
  {
    hide TableName, PlaceOf, Home;
    if |cs| > 1 {
      HeaderDecides(t, u, cs[..|cs|-1]);
    } else {
      assert cs[..|cs|-1] == [];
    }
  }

  /** No line is a table header. */
  predicate Plain(cs: seq<string>) {
    forall i | 0 <= i < |cs| :: TableName(cs[i]).None?
  }

  lemma {:induction false} PlainKeepsTable(t: Option<string>, cs: seq<string>)
    requires Plain(cs)
    ensures TableAfter(t, cs) == t
  {
    hide TableName;
    if cs != [] {
      PlainKeepsTable(t, cs[..|cs|-1]);
    }
  }

  // ------------------------------------------------------------- the sections, piece by piece

  /** A section: its header, if it has one, then lines that are not headers. */
  predicate Proper(s: Section) {
    if s.table.Some? then s.buf != [] && TableName(Content(s.buf[0])) == s.table && Plain(ContentsOf(s.buf[1..]))
    else Plain(ContentsOf(s.buf))
  }

  predicate AllProper(secs: seq<Section>) {
    && (forall i | 0 <= i < |secs| :: Proper(secs[i]))
    && (forall i | 0 < i < |secs| :: secs[i].table.Some?)
  }

  lemma {:induction false} CutIsProper(lines: seq<string>)
    ensures AllProper(Cut(lines)) && Cut(lines)[0].table.None?
  {
    hide TableName, Content;
    if lines != [] {
      CutIsProper(lines[..|lines|-1]);
      var done, l := Cut(lines[..|lines|-1]), lines[|lines|-1];
      if TableName(Content(l)).None? {
        LongerIsProper(done[|done|-1], l);
      }
    }
  }

  lemma LongerIsProper(s: Section, l: string)
    requires Proper(s) && TableName(Content(l)).None?
    ensures Proper(Section(s.table, s.buf + [l]))
  {
    hide TableName, Content, Plain;
    if s.table.Some? {
      assert (s.buf + [l])[1..] == s.buf[1..] + [l];
      PlainLonger(s.buf[1..], l);
    } else {
      PlainLonger(s.buf, l);
    }
  }

  lemma PlainLonger(ls: seq<string>, l: string)
    ensures Plain(ContentsOf(ls + [l])) <==> Plain(ContentsOf(ls)) && TableName(Content(l)).None?
  {
    hide TableName, Content;
    var cs := ContentsOf(ls + [l]);
    assert cs[|ls|] == Content(l);
    assert forall i | 0 <= i < |ls| :: cs[i] == ContentsOf(ls)[i];
  }

  /** A header is no assignment. */
  lemma HeaderIsNoKey(c: string)
    requires TableName(c).Some?
    ensures !Provenance(c) && c != ""
  {
  }

  /** The lines of a section are at home in what becomes of it. */
  lemma SectionIsConserved(s: Section)
    requires Proper(s)
    ensures
      Homes(None, ContentsOf(s.buf)) ==
        (if Lifted(s.table) then Places(None, ContentsOf(Renamed(s))) else Places(None, ContentsOf(Kept(s))))
        + Places(FORGE, ContentsOf(Keys(s)))
  {
    hide TableName, Content, ContentsOf, Homes, Places, Lifted, Others, Provenances;
    if s.table == SKILL {
      SkillIsConserved(s);
    } else if Lifted(s.table) {
      LiftedIsConserved(s);
    } else {
      OtherIsConserved(s.table, s.buf);
    }
    NoPlaces();
    LiftedTables(s.table);
  }

  lemma NoPlaces()
    ensures Places(FORGE, ContentsOf([])) == multiset{}
  {
  }

  lemma OneHome(t: Option<string>, h: string)
    requires TableName(h).Some?
    ensures Homes(t, [h]) == multiset{Home(TableName(h), h)} && Places(t, [h]) == multiset{At(TableName(h), h)}
    ensures TableAfter(t, [h]) == TableName(h)
  {
    HeaderIsNoKey(h);
    hide TableName, Home;
    assert [h][..0] == [];
    assert TableAfter(t, [h]) == TableName(h);
  }

  /** A section, header first. */
  lemma Beheaded(s: Section)
    requires Proper(s) && s.table.Some?
    ensures
      var h, rest := Content(s.buf[0]), ContentsOf(s.buf[1..]);
      && ContentsOf(s.buf) == [h] + rest
      && Homes(None, ContentsOf(s.buf)) == multiset{Home(s.table, h)} + Homes(s.table, rest)
      && Places(None, ContentsOf(s.buf)) == multiset{At(s.table, h)} + Places(s.table, rest)
  {
    hide TableName, Content, Homes, Places, Home, Plain;
    var h, rest := Content(s.buf[0]), ContentsOf(s.buf[1..]);
    assert ContentsOf(s.buf) == [h] + rest;
    OneHome(None, h);
    HomesOfBoth(None, [h], rest);
    PlacesOfBoth(None, [h], rest);
  }

  lemma {:induction false} OtherIsConserved(t: Option<string>, buf: seq<string>)
    requires Proper(Section(t, buf)) && t != SKILL && !Lifted(t)
    ensures Homes(None, ContentsOf(buf)) == Places(None, ContentsOf(buf))
  {
    hide TableName, Content, Lifted;
    if t.Some? {
      Beheaded(Section(t, buf));
      HeaderIsNoKey(Content(buf[0]));
      SameTableSamePlaces(t, ContentsOf(buf[1..]));
    } else {
      SameTableSamePlaces(t, ContentsOf(buf));
    }
  }

  lemma {:induction false} SameTableSamePlaces(t: Option<string>, cs: seq<string>)
    requires Plain(cs) && t != SKILL && !Lifted(t)
    ensures Homes(t, cs) == Places(t, cs)
  {
    hide TableName, Lifted;
    if cs != [] {
      SameTableSamePlaces(t, cs[..|cs|-1]);
      PlainKeepsTable(t, cs);
    }
  }

  lemma LiftedIsConserved(s: Section)
    requires Proper(s) && Lifted(s.table)
    ensures Homes(None, ContentsOf(s.buf)) == Places(None, ContentsOf(Renamed(s)))
  {
    hide TableName, Homes, Places, Lifted, Suffix;
    LiftedTables(s.table);
    var name := "forge." + Suffix(s.table);
    var header := "[" + name + "]";
    Beheaded(s);
    HeaderIsNoKey(Content(s.buf[0]));
    RenamedIsProper(s);
    Beheaded(Section(Some(name), Renamed(s)));
    LiftedBody(s.table, ContentsOf(s.buf[1..]));
  }

  lemma RenamedIsProper(s: Section)
    requires Proper(s) && Lifted(s.table)
    ensures Proper(Section(Some("forge." + Suffix(s.table)), Renamed(s)))
    ensures Content(Renamed(s)[0]) == "[forge." + Suffix(s.table) + "]"
  {
    hide TableName, Plain, Content;
    var name := "forge." + Suffix(s.table);
    LiftedName(s.table);
    PlainHeader(name);
    assert "[forge." + Suffix(s.table) + "]" == "[" + name + "]";
    HeaderContent("[" + name + "]");
    assert Renamed(s)[1..] == s.buf[1..];
  }

  lemma LiftedName(t: Option<string>)
    requires Lifted(t)
    ensures forall c <- "forge." + Suffix(t) :: NameChar(c)
  {
  }

  lemma HeaderContent(h: string)
    requires h != "" && h[|h|-1] == ']'
    ensures Content(h + "\n") == h == Content(h + "")
  {
    assert h + "" == h;
  }

  /** A name in brackets is a header of that name. */
  lemma PlainHeader(name: string)
    requires name != "" && forall c <- name :: NameChar(c)
    ensures TableName("[" + name + "]") == Some(name)
  {
    var c := "[" + name + "]";
    forall i | 0 <= i < |name| ensures c[i+1] == name[i] && !Space(c[i+1]) {
      assert name[i] in name;
    }
    assert c[0] == '[' && c[|c|-1] == ']' && c[1] == name[0];
    var k := 1 + Run(c, 1, NameChar);
    assert k <= |c| - 1;
    forall i | 1 <= i < |c| - 1 ensures NameChar(c[i]) {
      assert c[i] == name[i-1] && name[i-1] in name;
    }
    assert c[1..k] == name;
  }

  lemma {:induction false} LiftedBody(t: Option<string>, cs: seq<string>)
    requires Plain(cs) && Lifted(t)
    ensures Homes(t, cs) == Places(Some("forge." + Suffix(t)), cs)
  {
    hide TableName, Lifted, Suffix;
    LiftedTables(t);
    if cs != [] {
      LiftedBody(t, cs[..|cs|-1]);
      PlainKeepsTable(t, cs);
      PlainKeepsTable(Some("forge." + Suffix(t)), cs);
    }
  }

  lemma LiftedTables(t: Option<string>)
    ensures Lifted(t) ==> t.Some? && t != SKILL
  {
  }

  lemma SkillIsConserved(s: Section)
    requires Proper(s) && s.table == SKILL
    ensures Homes(None, ContentsOf(s.buf)) == Places(None, ContentsOf(Kept(s))) + Places(FORGE, ContentsOf(Keys(s)))
  {
    hide TableName, Homes, Places, Lifted, Content, Others, Provenances;
    LiftedTables(SKILL);
    Beheaded(s);
    HeaderIsNoKey(Content(s.buf[0]));
    SkillBody(s.buf[1..]);
    PlainParts(s.buf[1..]);
    assert Kept(s)[1..] == Others(s.buf[1..]);
    Beheaded(Section(SKILL, Kept(s)));
  }

  lemma {:induction false} PlainParts(ls: seq<string>)
    requires Plain(ContentsOf(ls))
    ensures Plain(ContentsOf(Others(ls))) && Plain(ContentsOf(Provenances(ls)))
  {
    hide TableName, Content, Provenance, Plain, ContentsOf;
    NothingPlain();
    if ls != [] {
      var front, l := ls[..|ls|-1], ls[|ls|-1];
      assert ls == front + [l];
      PlainLonger(front, l);
      PlainParts(front);
      PlainLonger(Provenances(front), l);
      PlainLonger(Others(front), l);
      assert Others(front) + [] == Others(front) && Provenances(front) + [] == Provenances(front);
    }
  }

  lemma {:induction false} SkillBody(ls: seq<string>)
    requires Plain(ContentsOf(ls))
    ensures Homes(SKILL, ContentsOf(ls)) == Places(SKILL, ContentsOf(Others(ls))) + Places(FORGE, ContentsOf(Provenances(ls)))
  {
    hide TableName, Content, Provenance, Lifted, Plain, ContentsOf, Places, TableAfter;
    LiftedTables(SKILL);
    NothingPlain();
    if ls == [] {
      NoPlaces();
      assert Places(SKILL, []) == multiset{} by { NoPlacesIn(SKILL); }
    } else {
      var front, l := ls[..|ls|-1], ls[|ls|-1];
      assert ls == front + [l];
      ContentsOfSnoc(front, l);
      PlainLonger(front, l);
      PlainParts(front);
      SkillBody(front);
      PlainKeepsTable(SKILL, ContentsOf(ls));
      assert ContentsOf(ls)[..|front|] == ContentsOf(front);
      if Provenance(Content(l)) {
        OnePlainPlace(FORGE, ContentsOf(Provenances(front)), Content(l));
        ContentsOfSnoc(Provenances(front), l);
        assert Others(front) + [] == Others(front);
      } else {
        OnePlainPlace(SKILL, ContentsOf(Others(front)), Content(l));
        ContentsOfSnoc(Others(front), l);
        assert Provenances(front) + [] == Provenances(front);
      }
    }
  }

  lemma NoPlacesIn(t: Option<string>)
    ensures Places(t, []) == multiset{}
  {
  }

  lemma NothingPlain()
    ensures ContentsOf([]) == [] && Plain([])
  {
  }

  lemma OnePlainPlace(t: Option<string>, cs: seq<string>, c: string)
    requires Plain(cs) && TableName(c).None?
    ensures Places(t, cs + [c]) == Places(t, cs) + multiset{PlaceOf(t, c)} && Plain(cs + [c])
  {
    hide TableName;
    assert (cs + [c])[..|cs|] == cs;
    assert Plain(cs + [c]);
    PlainKeepsTable(t, cs + [c]);
  }

  // ------------------------------------------------------------- all sections

  function TablesPlaces(bufs: seq<seq<string>>): multiset<Place> {
    if bufs == [] then multiset{} else TablesPlaces(bufs[..|bufs|-1]) + Places(None, ContentsOf(bufs[|bufs|-1]))
  }

  /** The contents of the lifted tables, a blank line before each. */
  function TablesContents(bufs: seq<seq<string>>): seq<string> {
    if bufs == [] then [] else TablesContents(bufs[..|bufs|-1]) + [""] + ContentsOf(bufs[|bufs|-1])
  }

  /** It opens with a table header. */
  predicate Opens(buf: seq<string>) {
    buf != [] && TableName(Content(buf[0])).Some?
  }

  lemma ProperOpens(s: Section)
    requires Proper(s) && s.table.Some?
    ensures Opens(s.buf) && ContentsOf(s.buf) != [] && TableName(ContentsOf(s.buf)[0]).Some?
  {
    hide TableName, Content;
  }

  lemma NewIsProper(s: Section)
    requires Proper(s)
    ensures Headed(s)
    ensures if Lifted(s.table) then Opens(Renamed(s)) else Proper(Section(s.table, Kept(s)))
    ensures Plain(ContentsOf(Keys(s)))
  {
    hide TableName, Content, Lifted, Plain;
    NothingPlain();
    LiftedTables(s.table);
    if s.table == SKILL {
      PlainParts(s.buf[1..]);
      assert Kept(s)[1..] == Others(s.buf[1..]);
    } else if Lifted(s.table) {
      RenamedIsProper(s);
      ProperOpens(Section(Some("forge." + Suffix(s.table)), Renamed(s)));
    }
  }

  lemma {:induction false} NewAreProper(secs: seq<Section>)
    requires AllProper(secs)
    ensures AllHeaded(secs) && AllProper(NewSections(secs)) && Plain(ContentsOf(AllKeys(secs)))
    ensures forall b <- AllRenamed(secs) :: Opens(b)
    ensures |NewSections(secs)| <= |secs|
  {
    hide TableName, Content, Lifted, Plain, ContentsOf, Proper, Opens;
    NothingPlain();
    if secs != [] {
      var s := secs[|secs|-1];
      NewAreProper(secs[..|secs|-1]);
      NewIsProper(s);
      PlainTogether(AllKeys(secs[..|secs|-1]), Keys(s));
      forall i | 0 <= i < |secs| ensures Headed(secs[i]) {
        NewIsProper(secs[i]);
      }
    }
  }

  lemma PlainTogether(a: seq<string>, b: seq<string>)
    requires Plain(ContentsOf(a)) && Plain(ContentsOf(b))
    ensures Plain(ContentsOf(a + b))
  {
    hide TableName, Content;
    ContentsOfBoth(a, b);
  }

  /** More lines, of which the first is a header unless there are none before. */
  lemma FollowedBy(a: seq<string>, b: seq<string>)
    requires a == [] || Opens(b)
    ensures Places(None, ContentsOf(a + b)) == Places(None, ContentsOf(a)) + Places(None, ContentsOf(b))
    ensures Homes(None, ContentsOf(a + b)) == Homes(None, ContentsOf(a)) + Homes(None, ContentsOf(b))
  {
    hide TableName, Places, Homes, Content, TableAfter;
    ContentsOfBoth(a, b);
    PlacesOfBoth(None, ContentsOf(a), ContentsOf(b));
    HomesOfBoth(None, ContentsOf(a), ContentsOf(b));
    if a == [] {
      PlainKeepsTable(None, ContentsOf(a));
    } else {
      HeaderDecides(TableAfter(None, ContentsOf(a)), None, ContentsOf(b));
    }
  }

  lemma KeysTogether(a: seq<string>, b: seq<string>)
    requires Plain(ContentsOf(a))
    ensures Places(FORGE, ContentsOf(a + b)) == Places(FORGE, ContentsOf(a)) + Places(FORGE, ContentsOf(b))
  {
    hide TableName, Places, Content;
    ContentsOfBoth(a, b);
    PlacesOfBoth(FORGE, ContentsOf(a), ContentsOf(b));
    PlainKeepsTable(FORGE, ContentsOf(a));
  }

  lemma OneSectionMore(secs: seq<Section>, s: Section)
    requires Proper(s) && (secs == [] || s.table.Some?)
    ensures Homes(None, ContentsOf(Flat(secs + [s]))) == Homes(None, ContentsOf(Flat(secs))) + Homes(None, ContentsOf(s.buf))
    ensures Places(None, ContentsOf(Flat(secs + [s]))) == Places(None, ContentsOf(Flat(secs))) + Places(None, ContentsOf(s.buf))
  {
    hide TableName, Places, Homes, Content, ContentsOf, Plain, Opens, Proper;
    if secs == [] {
      assert Flat(secs) == [];
    } else {
      ProperOpens(s);
    }
    FlatSnoc(secs, s);
    FollowedBy(Flat(secs), s.buf);
  }

  /** Behind another section that stays, one has a header. */
  lemma KeptHeads(secs: seq<Section>)
    requires secs != [] && AllProper(secs) && AllHeaded(secs)
    ensures NewSections(secs[..|secs|-1]) == [] || secs[|secs|-1].table.Some?
  {
    hide Lifted, Kept, Proper;
    if |secs| == 1 {
      assert secs[..0] == [];
    }
  }

  lemma OneKeptMore(secs: seq<Section>)
    requires secs != [] && AllProper(secs) && AllHeaded(secs)
    ensures
      var s := secs[|secs|-1];
      Places(None, ContentsOf(Flat(NewSections(secs)))) ==
        Places(None, ContentsOf(Flat(NewSections(secs[..|secs|-1]))))
        + (if Lifted(s.table) then multiset{} else Places(None, ContentsOf(Kept(s))))
  {
    hide Places, Homes, ContentsOf, Lifted, Kept, Proper, Flat, Keys, Renamed, Opens, Plain;
    var init, s := secs[..|secs|-1], secs[|secs|-1];
    if Lifted(s.table) {
      assert NewSections(secs) == NewSections(init);
    } else {
      KeptHeads(secs);
      NewIsProper(s);
      assert NewSections(secs) == NewSections(init) + [Section(s.table, Kept(s))];
      hide AllProper, NewSections;
      OneSectionMore(NewSections(init), Section(s.table, Kept(s)));
    }
  }

  lemma OneTableMore(secs: seq<Section>)
    requires secs != [] && AllHeaded(secs)
    ensures
      var s := secs[|secs|-1];
      TablesPlaces(AllRenamed(secs)) ==
        TablesPlaces(AllRenamed(secs[..|secs|-1])) + (if Lifted(s.table) then Places(None, ContentsOf(Renamed(s))) else multiset{})
  {
    hide Places, Lifted, Renamed, ContentsOf;
    var init, s := secs[..|secs|-1], secs[|secs|-1];
    if Lifted(s.table) {
      assert AllRenamed(secs)[..|AllRenamed(init)|] == AllRenamed(init);
    } else {
      assert AllRenamed(secs) == AllRenamed(init);
    }
  }

  /** What stays, what moves to `[forge]` and what is lifted: together every line. */
  lemma {:induction false} SectionsAreConserved(secs: seq<Section>)
    requires AllProper(secs) && AllHeaded(secs)
    ensures
      Homes(None, ContentsOf(Flat(secs))) ==
        Places(None, ContentsOf(Flat(NewSections(secs)))) + Places(FORGE, ContentsOf(AllKeys(secs))) + TablesPlaces(AllRenamed(secs))
  {
    hide Places, Homes, ContentsOf, Lifted, Plain, Proper, Opens, Kept, Keys, Renamed, TablesPlaces, NewSections, AllRenamed, Flat;
    if secs == [] {
      NothingConserved();
    } else {
      var init, s := secs[..|secs|-1], secs[|secs|-1];
      SectionsAreConserved(init);
      SectionIsConserved(s);
      assert secs == init + [s];
      OneSectionMore(init, s);
      OneKeptMore(secs);
      OneTableMore(secs);
      NewAreProper(init);
      KeysTogether(AllKeys(init), Keys(s));
    }
  }

  lemma NothingConserved()
    ensures Homes(None, ContentsOf(Flat([]))) == multiset{} == Places(None, ContentsOf(Flat(NewSections([]))))
    ensures Places(FORGE, ContentsOf(AllKeys([]))) == multiset{} == TablesPlaces(AllRenamed([]))
  {
  }

  // ------------------------------------------------------------- line breaks

  ghost predicate EndedSections(secs: seq<Section>) {
    forall i | 0 <= i < |secs| :: AllEnded(secs[i].buf)
  }

  /** Only the last line of the last section may lack its line break. */
  lemma {:induction false} CutBreaks(lines: seq<string>)
    requires Chain(lines)
    ensures AllEnded(lines) ==> EndedSections(Cut(lines))
    ensures EndedSections(Cut(lines)[..|Cut(lines)|-1]) && Chain(Cut(lines)[|Cut(lines)|-1].buf)
  {
    hide TableName, Content, OneLine, Ended;
    if lines != [] {
      var front, l := lines[..|lines|-1], lines[|lines|-1];
      EndedIsChain(front);
      CutBreaks(front);
      var done := Cut(front);
      EndedThenChain(done[|done|-1].buf, [l]);
      assert AllEnded(lines) ==> OneLine(l) && Ended(l) by {
        assert l in lines;
      }
    }
  }

  lemma EndedSnoc(ls: seq<string>, l: string)
    ensures AllEnded(ls + [l]) <==> AllEnded(ls) && OneLine(l) && Ended(l)
    ensures Chain(ls + [l]) <==> AllEnded(ls) && OneLine(l)
  {
    hide OneLine, Ended;
    assert (ls + [l])[..|ls|] == ls;
    assert l in ls + [l];
    assert forall x <- ls :: x in ls + [l];
  }

  lemma AddNothing(ls: seq<string>)
    ensures ls + [] == ls
  {
  }

  lemma NoBreaks()
    ensures AllEnded([]) && Chain([])
  {
  }

  lemma {:induction false} OthersBreaks(ls: seq<string>)
    requires Chain(ls)
    ensures Chain(Others(ls)) && (AllEnded(ls) ==> AllEnded(Others(ls)))
  {
    hide Provenance, Content, OneLine, Ended, AllEnded, Chain;
    NoBreaks();
    if ls != [] {
      var front, l := ls[..|ls|-1], ls[|ls|-1];
      assert ls == front + [l];
      EndedSnoc(front, l);
      EndedIsChain(front);
      OthersBreaks(front);
      EndedSnoc(Others(front), l);
      EndedIsChain(Others(front));
      AddNothing(Others(front));
    }
  }

  lemma {:induction false} KeysBreaks(ls: seq<string>)
    requires Chain(ls)
    ensures Chain(Provenances(ls)) && (AllEnded(ls) ==> AllEnded(Provenances(ls)))
  {
    hide Provenance, Content, OneLine, Ended, AllEnded, Chain;
    NoBreaks();
    if ls != [] {
      var front, l := ls[..|ls|-1], ls[|ls|-1];
      assert ls == front + [l];
      EndedSnoc(front, l);
      EndedIsChain(front);
      KeysBreaks(front);
      EndedSnoc(Provenances(front), l);
      EndedIsChain(Provenances(front));
      AddNothing(Provenances(front));
    }
  }

  lemma LastKeyBreaks(ls: seq<string>)
    requires ls != [] && Chain(ls)
    ensures !Provenance(Content(ls[|ls|-1])) ==> AllEnded(Provenances(ls))
    ensures Provenance(Content(ls[|ls|-1])) ==> Provenances(ls) != [] && Provenances(ls)[|Provenances(ls)|-1] == ls[|ls|-1]
  {
    hide Provenance, Content, OneLine, Ended, AllEnded, Chain;
    var front, l := ls[..|ls|-1], ls[|ls|-1];
    assert ls == front + [l];
    EndedSnoc(front, l);
    EndedIsChain(front);
    KeysBreaks(front);
    AddNothing(Provenances(front));
  }

  lemma TailBreaks(ls: seq<string>)
    requires ls != [] && Chain(ls)
    ensures Chain(ls[1..]) && Chain([ls[0]]) && (|ls| > 1 ==> AllEnded([ls[0]])) && (AllEnded(ls) ==> AllEnded(ls[1..]))
  {
    hide OneLine, Ended;
    if |ls| > 1 {
      assert ls[1..][..|ls|-2] == ls[..|ls|-1][1..];
      assert ls[0] == ls[..|ls|-1][0];
    }
  }

  lemma SectionBreaks(s: Section)
    requires Headed(s) && Chain(s.buf)
    ensures AllEnded(s.buf) ==> AllEnded(Kept(s)) && AllEnded(Keys(s))
    ensures Chain(Kept(s)) && Chain(Keys(s))
    ensures Lifted(s.table) ==> Chain(Renamed(s))
    ensures Lifted(s.table) && AllEnded(s.buf) ==> AllEnded(Renamed(s))
  {
    hide Provenance, Content, OneLine, Lifted, Ended, AllEnded, Chain;
    NoBreaks();
    LiftedTables(s.table);
    if s.table == SKILL {
      TailBreaks(s.buf);
      OthersBreaks(s.buf[1..]);
      KeysBreaks(s.buf[1..]);
      HeadBreaks(s.buf[0], Others(s.buf[1..]));
      HeadBreaks(s.buf[0], s.buf[1..]);
      assert s.buf == [s.buf[0]] + s.buf[1..];
      if |s.buf| == 1 {
        assert Others(s.buf[1..]) == [] && [s.buf[0]] + [] == [s.buf[0]];
      } else {
        EndedThenChain([s.buf[0]], Others(s.buf[1..]));
      }
    } else if Lifted(s.table) {
      RenamedBreaks(s);
    }
  }

  lemma HeadBreaks(h: string, ls: seq<string>)
    ensures AllEnded([h] + ls) <==> AllEnded([h]) && AllEnded(ls)
    ensures AllEnded([h]) <==> OneLine(h) && Ended(h)
  {
    hide OneLine, Ended;
    assert h in [h] + ls && h in [h];
    assert forall l <- ls :: l in [h] + ls;
  }

  lemma RenamedBreaks(s: Section)
    requires Headed(s) && Chain(s.buf) && Lifted(s.table)
    ensures Chain(Renamed(s)) && (AllEnded(s.buf) ==> AllEnded(Renamed(s)))
  {
    LiftedTables(s.table);
    LiftedName(s.table);
    hide Lifted, Suffix, OneLine, Ended, NameChar, Chain, AllEnded;
    TailBreaks(s.buf);
    var name := "forge." + Suffix(s.table);
    var h := Renamed(s)[0];
    NamedHeader(name);
    assert "[forge." + Suffix(s.table) + "]" == "[" + name + "]";
    assert OneLine(h) && (Ended(s.buf[0]) ==> Ended(h));
    RenamedLines(s.buf, h);
  }

  lemma RenamedLines(buf: seq<string>, h: string)
    requires buf != [] && Chain(buf) && Chain(buf[1..]) && OneLine(h) && (Ended(buf[0]) ==> Ended(h))
    ensures Chain([h] + buf[1..]) && (AllEnded(buf) ==> AllEnded([h] + buf[1..]))
  {
    hide OneLine, Ended;
    assert buf == [buf[0]] + buf[1..];
    HeadBreaks(buf[0], buf[1..]);
    HeadBreaks(h, buf[1..]);
    if |buf| > 1 {
      TailBreaks(buf);
      EndedThenChain([h], buf[1..]);
    }
  }

  lemma NamedHeader(name: string)
    requires forall c <- name :: NameChar(c)
    ensures OneLine("[" + name + "]" + "\n") && Ended("[" + name + "]" + "\n") && OneLine("[" + name + "]" + "")
  {
    var h := "[" + name + "]";
    forall i | 0 <= i < |h| ensures h[i] != '\n' {
      if 0 < i < |h| - 1 {
        assert h[i] == name[i-1] && name[i-1] in name;
      }
    }
    assert h + "" == h;
  }

  // ------------------------------------------------------------- the new text

  lemma ContentsOfHeader()
    ensures Contents(HEADER) == ["", "[forge]"] && Ended(HEADER)
  {
    hide Contents;
    var line := "[forge]\n";
    assert HEADER == "\n" + line && line[..7] == "[forge]";
    OneBreak();
    Concatenated("\n", line);
    ContentsOfOne(line);
  }

  lemma ContentsOfBody(kept: seq<Section>, keys: seq<string>)
    ensures
      var n := UpToSkill(kept, 0);
      Contents(Body(kept, keys)) ==
        Contents(Text(Flat(kept[..n]))) + ["", "[forge]"] + Contents(Text(keys) + Text(Flat(kept[n..])))
  {
    hide Contents, Text, Flat, Terminated, Ended;
    var n := UpToSkill(kept, 0);
    var front, rest := Text(Flat(kept[..n])), Text(keys) + Text(Flat(kept[n..]));
    ContentsTerminated(front);
    ContentsOfHeader();
    Concatenated(Terminated(front), HEADER + rest);
    Concatenated(HEADER, rest);
    assert Body(kept, keys) == Terminated(front) + (HEADER + rest);
  }

  lemma {:induction false} ContentsOfTables(text: string, bufs: seq<seq<string>>)
    requires forall b <- bufs :: Chain(b)
    ensures Contents(AddTables(text, bufs)) == Contents(text) + TablesContents(bufs)
  {
    hide Contents, Text, Terminated, Chain, Ended;
    if bufs != [] {
      var front, b := bufs[..|bufs|-1], bufs[|bufs|-1];
      ContentsOfTables(text, front);
      assert b in bufs;
      ContentsOfChain(b);
      AddedTable(AddTables(text, front), b);
    }
  }

  lemma AddedTable(t: string, b: seq<string>)
    ensures Contents(Terminated(t) + "\n" + Text(b)) == Contents(t) + [""] + Contents(Text(b))
  {
    hide Contents, Text, Terminated, Ended;
    ContentsTerminated(t);
    OneBreak();
    Concatenated(Terminated(t), "\n" + Text(b));
    Concatenated("\n", Text(b));
    assert Terminated(t) + "\n" + Text(b) == Terminated(t) + ("\n" + Text(b));
  }

  lemma OneBreak()
    ensures Ended("\n") && Contents("\n") == [""]
  {
    ContentsOfOne("\n");
  }

  /** How the sections of a text stand: what may lack its line break. */
  ghost predicate Broken(secs: seq<Section>) {
    secs != [] && AllProper(secs) && AllHeaded(secs) && EndedSections(secs[..|secs|-1]) && Chain(secs[|secs|-1].buf)
  }

  lemma {:induction false} EndedParts(secs: seq<Section>)
    requires AllHeaded(secs) && EndedSections(secs)
    ensures EndedSections(NewSections(secs)) && AllEnded(AllKeys(secs))
    ensures forall b <- AllRenamed(secs) :: AllEnded(b)
  {
    hide AllEnded, Chain, Lifted, Kept, Keys, Renamed;
    NoBreaks();
    if secs != [] {
      var init, s := secs[..|secs|-1], secs[|secs|-1];
      EndedParts(init);
      EndedIsChain(s.buf);
      SectionBreaks(s);
      EndedBoth(AllKeys(init), Keys(s));
    }
  }

  lemma EndedBoth(a: seq<string>, b: seq<string>)
    ensures AllEnded(a + b) <==> AllEnded(a) && AllEnded(b)
  {
    hide OneLine, Ended;
    assert forall l <- a :: l in a + b;
    assert forall l <- b :: l in a + b;
  }

  lemma {:induction false} EndedFlat(secs: seq<Section>)
    requires EndedSections(secs)
    ensures AllEnded(Flat(secs))
  {
    hide AllEnded;
    NoBreaks();
    if secs != [] {
      EndedFlat(secs[..|secs|-1]);
      EndedBoth(Flat(secs[..|secs|-1]), secs[|secs|-1].buf);
    }
  }

  /** Sections that are ended, and one more that is a chain. */
  lemma ChainFlat(secs: seq<Section>, s: Section)
    requires EndedSections(secs) && Chain(s.buf)
    ensures Chain(Flat(secs + [s]))
  {
    hide AllEnded, Chain;
    EndedFlat(secs);
    EndedThenChain(Flat(secs), s.buf);
    FlatSnoc(secs, s);
  }

  /** A key stands without a line break, and a section follows it. */
  ghost predicate Stranded(secs: seq<Section>)
    requires AllHeaded(secs)
  {
    UpToSkill(NewSections(secs), 0) < |NewSections(secs)| && !AllEnded(AllKeys(secs))
  }

  /** The pieces of the new text: what comes before the keys, the keys, the rest. */
  lemma PiecesBreaks(secs: seq<Section>)
    requires Broken(secs)
    ensures
      var kept := NewSections(secs);
      var n := UpToSkill(kept, 0);
      && Chain(Flat(kept[..n])) && Chain(AllKeys(secs)) && Chain(Flat(kept[n..]))
      && (n == |kept| ==> kept[n..] == [])
      && forall b <- AllRenamed(secs) :: Chain(b)
  {
    hide AllEnded, Chain, Lifted, Kept, Keys, Renamed, Flat, UpToSkill, Proper, AllProper;
    var init, s := secs[..|secs|-1], secs[|secs|-1];
    var kept := NewSections(secs);
    var n := UpToSkill(kept, 0);
    EndedParts(init);
    SectionBreaks(s);
    EndedThenChain(AllKeys(init), Keys(s));
    forall b | b in AllRenamed(secs) ensures Chain(b) {
      if b in AllRenamed(init) {
        EndedIsChain(b);
      }
    }
    if Lifted(s.table) {
      EndedSlices(kept, n);
    } else {
      var last := Section(s.table, Kept(s));
      assert kept == NewSections(init) + [last];
      ChainSlices(NewSections(init), last, n);
    }
  }

  lemma EndedSlices(secs: seq<Section>, n: nat)
    requires EndedSections(secs) && n <= |secs|
    ensures Chain(Flat(secs[..n])) && Chain(Flat(secs[n..]))
  {
    hide AllEnded, Chain, Flat;
    EndedFlat(secs[..n]);
    EndedFlat(secs[n..]);
    EndedIsChain(Flat(secs[..n]));
    EndedIsChain(Flat(secs[n..]));
  }

  lemma ChainSlices(secs: seq<Section>, s: Section, n: nat)
    requires EndedSections(secs) && Chain(s.buf) && n <= |secs| + 1
    ensures Chain(Flat((secs + [s])[..n])) && Chain(Flat((secs + [s])[n..]))
  {
    hide AllEnded, Chain, Flat;
    if n <= |secs| {
      EndedSlices(secs, n);
      assert (secs + [s])[..n] == secs[..n] && (secs + [s])[n..] == secs[n..] + [s];
      ChainFlat(secs[n..], s);
    } else {
      assert (secs + [s])[..n] == secs + [s] && (secs + [s])[n..] == [];
      ChainFlat(secs, s);
      NoBreaks();
      assert Flat([]) == [] by { NothingFlat(); }
    }
  }

  lemma NothingFlat()
    ensures Flat([]) == []
  {
  }

  /** Unless a key stands stranded, the new text has exactly the lines of its pieces. */
  lemma ContentsOfPieces(secs: seq<Section>)
    requires Broken(secs) && !Stranded(secs)
    ensures
      var kept := NewSections(secs);
      var n := UpToSkill(kept, 0);
      Contents(Assembled(secs)) ==
        ContentsOf(Flat(kept[..n])) + ["", "[forge]"] + ContentsOf(AllKeys(secs)) + ContentsOf(Flat(kept[n..]))
        + TablesContents(AllRenamed(secs))
  {
    hide AllEnded, Chain, Lifted, Kept, Keys, Renamed, Flat, UpToSkill, Proper, AllProper, Contents, Text, NewSections, AllKeys, AllRenamed, Body, AddTables, TablesContents, EndedSections;
    var kept, keys := NewSections(secs), AllKeys(secs);
    var n := UpToSkill(kept, 0);
    PiecesBreaks(secs);
    ContentsOfTables(Body(kept, keys), AllRenamed(secs));
    ContentsOfBody(kept, keys);
    ContentsOfChain(Flat(kept[..n]));
    if n < |kept| {
      EndedThenChain(keys, Flat(kept[n..]));
    } else {
      assert keys + [] == keys && Flat(kept[n..]) == [] by { NothingFlat(); }
    }
    TextOfBoth(keys, Flat(kept[n..]));
    ContentsOfChain(keys + Flat(kept[n..]));
    ContentsOfBoth(keys, Flat(kept[n..]));
  }

  // ------------------------------------------------------------- where its lines stand

  lemma {:induction false} PlacesOfTables(t: Option<string>, bufs: seq<seq<string>>)
    requires forall b <- bufs :: Opens(b)
    ensures Places(t, TablesContents(bufs)) == Blanks(|bufs|) + TablesPlaces(bufs)
  {
    hide Opens, Places, Content, ContentsOf, TableName;
    if bufs == [] {
      NoPlacesIn(t);
    } else {
      var front, b := bufs[..|bufs|-1], bufs[|bufs|-1];
      PlacesOfTables(t, front);
      assert b in bufs;
      var cs := TablesContents(front);
      PlacesOfBoth(t, cs + [""], ContentsOf(b));
      PlacesOfBoth(t, cs, [""]);
      BlankLine(TableAfter(t, cs));
      OpensDecides(TableAfter(t, cs + [""]), b);
    }
  }

  lemma OpensDecides(t: Option<string>, b: seq<string>)
    requires Opens(b)
    ensures Places(t, ContentsOf(b)) == Places(None, ContentsOf(b))
  {
    hide Places, Homes, TableName, Content;
    HeaderDecides(t, None, ContentsOf(b));
  }

  lemma BlankLine(t: Option<string>)
    ensures Places(t, [""]) == multiset{Blank} && TableAfter(t, [""]) == t
  {
    assert [""][..0] == [];
    assert TableName("").None?;
  }

  lemma ForgeHeader()
    ensures TableName("[forge]") == FORGE
  {
    PlainHeader("forge");
    assert "[" + "forge" + "]" == "[forge]";
  }

  lemma ForgeLines(t: Option<string>)
    ensures Places(t, ["", "[forge]"]) == multiset{Blank, At(FORGE, "[forge]")} && TableAfter(t, ["", "[forge]"]) == FORGE
  {
    hide TableName;
    ForgeHeader();
    BlankLine(t);
    assert ["", "[forge]"][..1] == [""];
  }

  /** Where the lines of the pieces stand. */
  lemma PlacesOfPieces(front: seq<string>, keys: seq<string>, rest: seq<string>, bufs: seq<seq<string>>)
    requires Plain(ContentsOf(keys)) && (rest == [] || Opens(rest)) && forall b <- bufs :: Opens(b)
    ensures
      Places(None, ContentsOf(front) + ["", "[forge]"] + ContentsOf(keys) + ContentsOf(rest) + TablesContents(bufs)) ==
        Places(None, ContentsOf(front + rest)) + Places(FORGE, ContentsOf(keys)) + TablesPlaces(bufs)
        + multiset{At(FORGE, "[forge]")} + Blanks(1 + |bufs|)
  {
    hide Opens, Places, Content, ContentsOf, TableName, TableAfter, TablesContents, TablesPlaces, Plain;
    var f, k, r, t := ContentsOf(front), ContentsOf(keys), ContentsOf(rest), TablesContents(bufs);
    var head := ["", "[forge]"];
    PlacesOfBoth(None, f + head + k + r, t);
    PlacesOfBoth(None, f + head + k, r);
    PlacesOfBoth(None, f + head, k);
    PlacesOfBoth(None, f, head);
    TableAfterBoth(None, f, head);
    ForgeLines(TableAfter(None, f));
    PlacesOfTables(TableAfter(None, f + head + k + r), bufs);
    RestDecides(TableAfter(None, f + head + k), front, rest);
  }

  lemma RestDecides(t: Option<string>, front: seq<string>, rest: seq<string>)
    requires rest == [] || Opens(rest)
    ensures Places(None, ContentsOf(front + rest)) == Places(None, ContentsOf(front)) + Places(t, ContentsOf(rest))
  {
    hide Places, Content, TableName, Homes;
    if rest == [] {
      assert front + rest == front && ContentsOf(rest) == [];
      NoPlacesIn(t);
    } else {
      OpensDecides(t, rest);
      if front == [] {
        assert front + rest == rest && ContentsOf(front) == [];
        NoPlacesIn(None);
      } else {
        FollowedBy(front, rest);
      }
    }
  }

  // ------------------------------------------------------------- the text

  function SectionsOf(text: string): seq<Section> {
    Cut(Lines(text))
  }

  /** Something is to be moved. */
  predicate Moves(text: string) {
    Migration(text).keys != [] || Migration(text).subtables != []
  }

  lemma SectionsHold(text: string)
    ensures Broken(SectionsOf(text)) && Flat(SectionsOf(text)) == Lines(text)
    ensures ContentsOf(Flat(SectionsOf(text))) == Contents(text)
  {
    hide Cut, Lines, Contents, ContentsOf, Flat, AllProper, Chain;
    var lines := Lines(text);
    LinesAreAChain(text);
    ContentsOfLines(text);
    CutIsHeaded(lines);
    CutIsProper(lines);
    CutBreaks(lines);
    FlatCut(lines);
  }

  lemma MovesMeans(text: string)
    requires Moves(text)
    ensures AllHeaded(SectionsOf(text)) && Migration(text).after == Assembled(SectionsOf(text))
    ensures |AllRenamed(SectionsOf(text))| == |Migration(text).subtables|
  {
    hide Cut, Lines, Assembled, TableName;
    CutIsHeaded(Lines(text));
    SameCounts(SectionsOf(text));
  }

  lemma {:induction false} FlatSplits(secs: seq<Section>, n: nat)
    requires n <= |secs|
    ensures Flat(secs) == Flat(secs[..n]) + Flat(secs[n..])
  {
    if n == |secs| {
      assert secs[..n] == secs && Flat(secs[n..]) == [];
    } else {
      var front := secs[..|secs|-1];
      FlatSplits(front, n);
      assert front[..n] == secs[..n] && secs[n..] == front[n..] + [secs[|secs|-1]];
      FlatSnoc(front[n..], secs[|secs|-1]);
    }
  }

  /** What follows the first `[skill]` opens with a header. */
  lemma {:induction false} RestOpens(secs: seq<Section>, n: nat)
    requires AllProper(secs) && 0 < n <= |secs|
    ensures Flat(secs[n..]) == [] || Opens(Flat(secs[n..]))
  {
    hide TableName, Content, Opens, Proper;
    if n < |secs| {
      var front, last := secs[..|secs|-1], secs[|secs|-1];
      ProperOpens(last);
      assert secs[n..] == front[n..] + [last];
      FlatSnoc(front[n..], last);
      if n < |front| {
        RestOpens(front, n);
        OpensLonger(Flat(front[n..]), last.buf);
      } else {
        assert Flat(front[n..]) == [];
        assert Flat(secs[n..]) == last.buf;
      }
    }
  }

  lemma OpensLonger(a: seq<string>, b: seq<string>)
    requires (a == [] || Opens(a)) && Opens(b)
    ensures Opens(a + b)
  {
    hide TableName, Content;
    if a == [] {
      assert a + b == b;
    }
  }

  lemma SomethingBefore(secs: seq<Section>)
    requires secs != []
    ensures UpToSkill(secs, 0) > 0
  {
  }

  /** Unless a key stands stranded, every line of the sections is at home. */
  lemma PiecesAreConserved(secs: seq<Section>)
    requires Broken(secs) && !Stranded(secs)
    ensures
      Places(None, Contents(Assembled(secs))) ==
        Homes(None, ContentsOf(Flat(secs))) + multiset{At(FORGE, "[forge]")} + Blanks(1 + |AllRenamed(secs)|)
  {
    hide AllProper, Flat, Chain, AllEnded, Contents, ContentsOf, Assembled, NewSections, AllKeys, AllRenamed, Places, Homes,
      TablesContents, TablesPlaces, Opens, Plain, Stranded, UpToSkill, Blanks, EndedSections;
    var kept, keys := NewSections(secs), AllKeys(secs);
    var n := UpToSkill(kept, 0);
    ContentsOfPieces(secs);
    NewAreProper(secs);
    SectionsAreConserved(secs);
    FlatSplits(kept, n);
    if kept != [] {
      SomethingBefore(kept);
      RestOpens(kept, n);
    } else {
      assert Flat(kept[n..]) == [] by { NothingFlat(); }
    }
    PlacesOfPieces(Flat(kept[..n]), keys, Flat(kept[n..]), AllRenamed(secs));
  }

  // ------------------------------------------------------------- the stranded key

  function Lengths(bufs: seq<seq<string>>): nat {
    if bufs == [] then 0 else Lengths(bufs[..|bufs|-1]) + 1 + |bufs[|bufs|-1]|
  }

  lemma {:induction false} TablesLengths(bufs: seq<seq<string>>)
    ensures |TablesContents(bufs)| == Lengths(bufs) == |TablesPlaces(bufs)| + |bufs|
  {
    hide Places, ContentsOf;
    if bufs != [] {
      TablesLengths(bufs[..|bufs|-1]);
    }
  }

  /** A stranded key costs a line break: the new text is a line short. */
  lemma StrandedIsShort(secs: seq<Section>)
    requires Broken(secs) && Stranded(secs) && "" !in Flat(NewSections(secs)[UpToSkill(NewSections(secs), 0)..])
    requires Flat(NewSections(secs)[UpToSkill(NewSections(secs), 0)..]) != []
    requires "" !in AllKeys(secs)
    ensures |Contents(Assembled(secs))| == |Flat(secs)| + 1 + |AllRenamed(secs)|
  {
    hide AllProper, Flat, Chain, AllEnded, Contents, ContentsOf, NewSections, AllKeys, AllRenamed, Places, Homes,
      TablesContents, TablesPlaces, Plain, UpToSkill, EndedSections, Body, AddTables, Text, OneLine, Ended;
    var kept, keys := NewSections(secs), AllKeys(secs);
    var n := UpToSkill(kept, 0);
    PiecesBreaks(secs);
    ContentsOfTables(Body(kept, keys), AllRenamed(secs));
    ContentsOfBody(kept, keys);
    var front, rest := Flat(kept[..n]), Flat(kept[n..]);
    ContentsOfChain(front);
    ContentsOfChain(keys);
    ContentsOfChain(rest);
    LastIsOpen(keys);
    TextEnded(keys);
    TextEnded(rest);
    Merged(Text(keys), Text(rest));
    TablesLengths(AllRenamed(secs));
    SectionsAreConserved(secs);
    FlatSplits(kept, n);
  }

  lemma LastIsOpen(ls: seq<string>)
    requires Chain(ls) && !AllEnded(ls)
    ensures ls != [] && !Ended(ls[|ls|-1])
  {
    hide OneLine, Ended;
    if ls != [] {
      assert ls == ls[..|ls|-1] + [ls[|ls|-1]];
      EndedSnoc(ls[..|ls|-1], ls[|ls|-1]);
    }
  }

  // ------------------------------------------------------------- when it happens

  function CountSkill(secs: seq<Section>): nat {
    if secs == [] then 0 else CountSkill(secs[..|secs|-1]) + (if secs[|secs|-1].table == SKILL then 1 else 0)
  }

  lemma {:induction false} SkillTablesOfBoth(a: seq<string>, b: seq<string>)
    ensures SkillTables(a + b) == SkillTables(a) + SkillTables(b)
  {
    hide TableName;
    if b == [] {
      assert a + b == a;
    } else {
      assert (a + b)[..|a+b|-1] == a + b[..|b|-1];
      SkillTablesOfBoth(a, b[..|b|-1]);
    }
  }

  lemma {:induction false} PlainHasNone(cs: seq<string>)
    requires Plain(cs)
    ensures SkillTables(cs) == 0
  {
    hide TableName;
    if cs != [] {
      PlainHasNone(cs[..|cs|-1]);
    }
  }

  lemma SectionHasOne(s: Section)
    requires Proper(s)
    ensures SkillTables(ContentsOf(s.buf)) == if s.table == SKILL then 1 else 0
    ensures TableAfter(None, ContentsOf(s.buf)) == s.table
  {
    hide TableName, Content, Plain;
    if s.table.Some? {
      var h, rest := Content(s.buf[0]), ContentsOf(s.buf[1..]);
      assert ContentsOf(s.buf) == [h] + rest;
      assert [h][..0] == [];
      SkillTablesOfBoth([h], rest);
      TableAfterBoth(None, [h], rest);
      PlainHasNone(rest);
      PlainKeepsTable(s.table, rest);
    } else {
      PlainHasNone(ContentsOf(s.buf));
      PlainKeepsTable(None, ContentsOf(s.buf));
    }
  }

  lemma {:induction false} TablesCounted(secs: seq<Section>)
    requires AllProper(secs)
    ensures SkillTables(ContentsOf(Flat(secs))) == CountSkill(secs)
    ensures secs != [] ==> TableAfter(None, ContentsOf(Flat(secs))) == secs[|secs|-1].table
  {
    hide TableName, Content, ContentsOf, SkillTables, Plain, Proper, TableAfter, Places, Homes;
    if secs == [] {
      NothingCounted();
    } else {
      var init, s := secs[..|secs|-1], secs[|secs|-1];
      TablesCounted(init);
      SectionHasOne(s);
      ContentsOfBoth(Flat(init), s.buf);
      SkillTablesOfBoth(ContentsOf(Flat(init)), ContentsOf(s.buf));
      TableAfterBoth(None, ContentsOf(Flat(init)), ContentsOf(s.buf));
      if init != [] {
        ProperOpens(s);
        HeaderDecides(TableAfter(None, ContentsOf(Flat(init))), None, ContentsOf(s.buf));
      } else {
        NothingCounted();
      }
    }
  }

  lemma NothingCounted()
    ensures SkillTables(ContentsOf(Flat([]))) == 0 && TableAfter(None, ContentsOf(Flat([]))) == None
  {
  }

  ghost predicate HasSkill(secs: seq<Section>, i: nat) {
    exists j :: i <= j < |secs| && secs[j].table == SKILL
  }

  lemma {:induction false} SkillStays(secs: seq<Section>)
    requires AllHeaded(secs)
    ensures CountSkill(secs) > 0 <==> HasSkill(NewSections(secs), 0)
  {
    hide Lifted, Kept;
    LiftedTables(SKILL);
    if secs != [] {
      var init, s := secs[..|secs|-1], secs[|secs|-1];
      SkillStays(init);
      var before, after := NewSections(init), NewSections(secs);
      if HasSkill(before, 0) {
        var j :| 0 <= j < |before| && before[j].table == SKILL;
        assert after[j] == before[j];
      } else if s.table == SKILL {
        assert after[|before|].table == SKILL;
      }
    }
  }

  lemma {:induction false} AnotherSkill(secs: seq<Section>, s: Section, i: nat)
    requires i <= |secs| && s.table == SKILL
    ensures UpToSkill(secs + [s], i) <= |secs| <==> HasSkill(secs, i)
    decreases |secs| - i
  {
    if i < |secs| {
      AnotherSkill(secs, s, i + 1);
      assert (secs + [s])[i] == secs[i];
    } else {
      assert (secs + [s])[i] == s;
    }
  }

  /** The keys of the last section: one is not ended exactly when the last line is. */
  lemma LastKey(s: Section)
    requires Proper(s) && s.table == SKILL && Chain(s.buf)
    ensures
      var l := s.buf[|s.buf|-1];
      !AllEnded(Keys(s)) <==> !Ended(l) && Provenance(Content(l))
  {
    hide TableName, Content, Provenance, Plain, OneLine, Ended, AllEnded, Chain, Provenances;
    var ls := s.buf[1..];
    TailBreaks(s.buf);
    NoBreaks();
    if ls == [] {
      assert Provenances(ls) == [] by { NothingProvenance(); }
      HeaderIsNoKey(Content(s.buf[0]));
    } else {
      assert ls[|ls|-1] == s.buf[|s.buf|-1];
      KeysBreaks(ls);
      LastKeyBreaks(ls);
      LastDecides(ls);
      if Provenances(ls) != [] {
        LastDecides(Provenances(ls));
      }
    }
  }

  lemma NothingProvenance()
    ensures Provenances([]) == []
  {
  }

  lemma LastDecides(ls: seq<string>)
    requires ls != [] && Chain(ls)
    ensures AllEnded(ls) <==> Ended(ls[|ls|-1])
  {
    hide OneLine, Ended;
    assert ls == ls[..|ls|-1] + [ls[|ls|-1]];
    EndedSnoc(ls[..|ls|-1], ls[|ls|-1]);
  }

  /** The condition on the text says exactly when a key stands stranded. */
  lemma StrandedMeans(text: string)
    requires Broken(SectionsOf(text))
    ensures Stranded(SectionsOf(text)) <==> LastKeyStrands(text)
  {
    hide Cut, Lines, Contents, ContentsOf, Flat, Chain, AllEnded, Ended, OneLine, Content, Provenance, TableName, TableAfter,
      SkillTables, Kept, Keys, Proper, UpToSkill;
    var secs := SectionsOf(text);
    var init, s := secs[..|secs|-1], secs[|secs|-1];
    SectionsHold(text);
    TablesCounted(secs);
    EndedParts(init);
    EndedBoth(AllKeys(init), Keys(s));
    NoBreaks();
    if s.table == SKILL {
      LiftedTables(SKILL);
      LastKey(s);
      SkillStays(init);
      assert NewSections(secs) == NewSections(init) + [Section(s.table, Kept(s))];
      AnotherSkill(NewSections(init), Section(s.table, Kept(s)), 0);
      LastLine(text, secs);
    } else {
      assert Keys(s) == [] by { NoKeys(s); }
    }
  }

  lemma NoKeys(s: Section)
    requires Headed(s) && s.table != SKILL
    ensures Keys(s) == []
  {
  }

  lemma LastLine(text: string, secs: seq<Section>)
    requires secs != [] && secs[|secs|-1].buf != [] && Flat(secs) == Lines(text) && ContentsOf(Flat(secs)) == Contents(text)
    ensures
      var l := secs[|secs|-1].buf[|secs[|secs|-1].buf|-1];
      Contents(text) != [] && Contents(text)[|Contents(text)|-1] == Content(l) && Ended(text) == Ended(l)
  {
    hide Contents, Ended, Lines, Chain;
    var lines := Lines(text);
    TextOfLines(text);
    LinesAreAChain(text);
    ChainNonEmpty(lines);
    TextEnded(lines);
  }

  // ------------------------------------------------------------- what is promised, proved

  /** The migration loses no line and misplaces none, unless the text ends
      without a line break in a provenance key of a `[skill]` table that is not
      the first: then, and only then, a line is lost. */
  lemma MigrationConserves(text: string)
    requires Moves(text)
    ensures
      var plan := Migration(text);
      Conserved(text, plan.after, |plan.subtables|) <==> !LastKeyStrands(text)
  {
    hide Cut, Lines, Contents, ContentsOf, Flat, Chain, AllEnded, LastKeyStrands, Assembled, AllProper, Migration, Stranded;
    SectionsHold(text);
    MovesMeans(text);
    StrandedMeans(text);
    var secs := SectionsOf(text);
    if Stranded(secs) {
      ShortIsNotConserved(text);
    } else {
      PiecesAreConserved(secs);
    }
  }

  lemma ShortIsNotConserved(text: string)
    requires Moves(text) && Broken(SectionsOf(text)) && Stranded(SectionsOf(text))
    ensures |Contents(Migration(text).after)| == |Contents(text)| + 1 + |Migration(text).subtables|
    ensures !Conserved(text, Migration(text).after, |Migration(text).subtables|)
  {
    hide Cut, Lines, Contents, ContentsOf, Flat, Chain, AllEnded, Assembled, AllProper, Places, Homes, Migration, NewSections,
      AllKeys, AllRenamed, Moves, Blanks;
    var secs := SectionsOf(text);
    SectionsHold(text);
    MovesMeans(text);
    NothingEmpty(text);
    RestHasLines(secs);
    StrandedIsShort(secs);
  }

  lemma RestHasLines(secs: seq<Section>)
    requires Broken(secs) && Stranded(secs) && AllNonEmpty(NewSections(secs))
    ensures
      var rest := Flat(NewSections(secs)[UpToSkill(NewSections(secs), 0)..]);
      rest != [] && "" !in rest
  {
    hide Flat, Chain, AllEnded, Proper, NewSections, AllKeys, UpToSkill, Opens;
    var kept := NewSections(secs);
    var n := UpToSkill(kept, 0);
    NewAreProper(secs);
    SomethingBefore(kept);
    assert kept[n..] == kept[n..|kept|-1] + [kept[|kept|-1]];
    FlatSnoc(kept[n..|kept|-1], kept[|kept|-1]);
    ProperOpens(kept[|kept|-1]);
    assert kept[|kept|-1].buf != [] by { OpensHasLines(kept[|kept|-1].buf); }
    FlatNonEmpty(kept[n..]);
  }

  lemma OpensHasLines(b: seq<string>)
    requires Opens(b)
    ensures b != []
  {
  }

  lemma {:induction false} FlatNonEmpty(secs: seq<Section>)
    requires AllNonEmpty(secs)
    ensures "" !in Flat(secs)
  {
    if secs != [] {
      FlatNonEmpty(secs[..|secs|-1]);
    }
  }

  /** Once migrated, a text has its `[forge]` table. */
  lemma {:induction false} ForgeAppears(text: string, bufs: seq<seq<string>>)
    requires "[forge]" in Contents(text)
    ensures "[forge]" in Contents(AddTables(text, bufs))
  {
    hide Contents, Text, Terminated, Ended;
    if bufs != [] {
      var t, b := AddTables(text, bufs[..|bufs|-1]), Text(bufs[|bufs|-1]);
      ForgeAppears(text, bufs[..|bufs|-1]);
      ContentsTerminated(t);
      Concatenated(Terminated(t), "\n" + b);
      assert AddTables(text, bufs) == Terminated(t) + ("\n" + b);
    }
  }

  lemma MigratedHasForge(text: string)
    requires Moves(text)
    ensures HasForge(Lines(Migration(text).after))
  {
    hide Contents, Cut, Lines, TableName, Migration, Moves, NewSections, AllKeys, AllRenamed, Body, ContentsOf;
    MovesMeans(text);
    var secs := SectionsOf(text);
    var kept, keys := NewSections(secs), AllKeys(secs);
    ContentsOfBody(kept, keys);
    assert "[forge]" in ["", "[forge]"];
    ForgeAppears(Body(kept, keys), AllRenamed(secs));
    var after := Migration(text).after;
    assert "[forge]" in Contents(after);
    ContentsOfLines(after);
    ForgeHeader();
    ForgeLine(Lines(after));
  }

  lemma ForgeLine(lines: seq<string>)
    requires "[forge]" in ContentsOf(lines) && TableName("[forge]") == FORGE
    ensures HasForge(lines)
  {
    hide TableName, Content;
    var i :| 0 <= i < |lines| && ContentsOf(lines)[i] == "[forge]";
    assert lines[i] in lines;
  }

  /** A second run changes nothing; it finds the text migrated when the first
      run moved something. */
  lemma MigrationIsIdempotent(text: string)
    ensures Migration(Migration(text).after).after == Migration(text).after
    ensures Moves(text) ==> Migration(Migration(text).after).alreadyMigrated
    ensures Migration(text).alreadyMigrated <==> HasForge(Lines(text))
  {
    hide Cut, Lines, TableName, Assembled, AllKeyNames, AllSuffixes, HasForge;
    if Moves(text) {
      MigratedHasForge(text);
    }
  }

  /** The text changes exactly when something is moved: then it gains lines. */
  lemma ChangedMeansMoved(text: string)
    ensures Migration(text).before == text
    ensures Migration(text).after != text <==> Moves(text)
    ensures Moves(text) ==> |Contents(Migration(text).after)| > |Contents(text)|
  {
    hide Cut, Lines, TableName, Assembled, AllKeyNames, AllSuffixes, HasForge, Contents, Places, Homes, Stranded, Broken, LastKeyStrands;
    if Moves(text) {
      MigrationConserves(text);
      SectionsHold(text);
      if LastKeyStrands(text) {
        StrandedMeans(text);
        ShortIsNotConserved(text);
      }
    }
  }

  lemma StrandedMoves(text: string)
    requires LastKeyStrands(text) && !HasForge(Lines(text))
    ensures Moves(text)
  {
    hide Cut, Lines, Contents, ContentsOf, TableName, Chain, AllEnded, Assembled, AllKeys, AllKeyNames, AllProper, LastKeyStrands,
      HasForge, AllSuffixes;
    SectionsHold(text);
    StrandedMeans(text);
    SameCounts(SectionsOf(text));
    NoBreaks();
  }

  const TWICE := "[skill]\n[skill]\nowner=me"

  lemma LinesOfTwice()
    ensures Contents(TWICE) == ["[skill]", "[skill]", "owner=me"]
  {
    var h, l := "[skill]\n", "owner=me";
    hide Contents;
    ContentsOfOne(h);
    ContentsOfOne(l);
    Concatenated(h, h + l);
    Concatenated(h, l);
    assert TWICE == h + (h + l);
    assert Content(h) == "[skill]" && Content(l) == l;
  }

  /** A key before an equals sign is an assignment to that key. */
  lemma PlainKey(k: string, v: string)
    requires k != "" && forall c <- k :: KeyChar(c)
    ensures KeyName(k + "=" + v) == Some(k) && TableName(k + "=" + v).None?
  {
    var c := k + "=" + v;
    forall i | 0 <= i < |k| ensures c[i] == k[i] && KeyChar(c[i]) && !Space(c[i]) {
      assert k[i] in k;
    }
    assert c[|k|] == '=';
    var j := Run(c, 0, KeyChar);
    assert j <= |k|;
    assert c[0..|k|] == k;
  }

  lemma OwnerIsKey()
    ensures KeyName("owner=me") == Some("owner") && TableName("owner=me").None? && TableName("[skill]") == SKILL
  {
    hide KeyName, TableName;
    PlainKey("owner", "me");
    assert "owner" + "=" + "me" == "owner=me";
    PlainHeader("skill");
    assert "[" + "skill" + "]" == "[skill]";
  }

  lemma TablesOfTwice()
    ensures SkillTables(["[skill]", "[skill]", "owner=me"]) == 2 && TableAfter(None, ["[skill]", "[skill]", "owner=me"]) == SKILL
  {
    hide TableName, KeyName;
    OwnerIsKey();
    var one, two := ["[skill]"], ["[skill]", "[skill]"];
    assert one[..0] == [] && two[..1] == one && (two + ["owner=me"])[..2] == two;
    assert SkillTables(one) == 1 && SkillTables(two) == 2;
    assert two + ["owner=me"] == ["[skill]", "[skill]", "owner=me"];
    assert TableAfter(None, two) == SKILL;
  }

  /** A text that loses a line: the owner of the second table runs into the
      header before which it is put. */
  lemma ALineMayBeLost()
    ensures Moves(TWICE) && !Conserved(TWICE, Migration(TWICE).after, |Migration(TWICE).subtables|)
  {
    hide Contents, Migration, Moves, Conserved, TableName, KeyName, Lines, Content;
    LinesOfTwice();
    OwnerIsKey();
    var cs := Contents(TWICE);
    TablesOfTwice();
    assert PROVENANCE_KEYS[1] == "owner";
    assert LastKeyStrands(TWICE);
    ContentsOfLines(TWICE);
    forall l | l in Lines(TWICE) ensures TableName(Content(l)) != FORGE {
      var i :| 0 <= i < |Lines(TWICE)| && Lines(TWICE)[i] == l;
      assert ContentsOf(Lines(TWICE))[i] == cs[i];
    }
    StrandedMoves(TWICE);
    MigrationConserves(TWICE);
  }
}
