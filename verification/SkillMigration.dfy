/** Moving the provenance that a retired generator left in `[skill]` to a
    `[forge]` table, line by line. */
module SkillMigration {
  import opened Options
  import opened MarkdownLines
  import opened TextLines

  // ------------------------------------------------------------- the patterns

  predicate Alphanumeric(c: char) {
    'A' <= c <= 'Z' || 'a' <= c <= 'z' || '0' <= c <= '9'
  }

  predicate NameChar(c: char) {
    Alphanumeric(c) || c == '_' || c == '.' || c == '-'
  }

  predicate KeyChar(c: char) {
    Alphanumeric(c) || c == '_' || c == '-'
  }

  /** `RE_TABLE`: the name in a table header; the text is a line without its
      line break, which the pattern skips. */
  function TableName(c: string): Option<string> {
    var i := Run(c, 0, Space);
    if i == |c| || c[i] != '[' then None else
      var j := i + 1 + Run(c, i + 1, Space);
      var k := j + Run(c, j, NameChar);
      var l := k + Run(c, k, Space);
      if j == k || l == |c| || c[l] != ']' || l + 1 + Run(c, l + 1, Space) != |c| then None else Some(c[j..k])
  }

  /** `RE_KEY`: the key of an assignment. */
  function KeyName(c: string): Option<string> {
    var i := Run(c, 0, Space);
    var j := i + Run(c, i, KeyChar);
    var k := j + Run(c, j, Space);
    if i == j || k == |c| || c[k] != '=' then None else Some(c[i..j])
  }

  const PROVENANCE_KEYS := ["source", "owner", "language", "license", "stars", "updated_at"]

  const PROVENANCE_SUBTABLES := ["requirements", "metadata"]

  const SKILL := Some("skill")

  const FORGE := Some("forge")

  predicate Provenance(c: string) {
    KeyName(c).Some? && KeyName(c).value in PROVENANCE_KEYS
  }

  /** A table that is moved as a whole. */
  predicate Lifted(t: Option<string>) {
    t.Some? && "skill." <= t.value && t.value[6..] in PROVENANCE_SUBTABLES
  }

  function Suffix(t: Option<string>): string
    requires Lifted(t)
  {
    t.value[6..]
  }

  // ------------------------------------------------------------- what is promised

  /** Where a line stands: a blank one anywhere, any other under its table. */
  datatype Place = Blank | At(table: Option<string>, line: string)

  function PlaceOf(t: Option<string>, c: string): Place {
    if c == "" then Blank else At(t, c)
  }

  /** The table in force after the lines, if it was `t` before. */
  function TableAfter(t: Option<string>, cs: seq<string>): Option<string> {
    if cs == [] then t
    else if TableName(cs[|cs|-1]).Some? then TableName(cs[|cs|-1])
    else TableAfter(t, cs[..|cs|-1])
  }

  /** Where the lines stand. */
  function Places(t: Option<string>, cs: seq<string>): (r: multiset<Place>)
    ensures |r| == |cs|
  {
    if cs == [] then multiset{} else
      Places(t, cs[..|cs|-1]) + multiset{PlaceOf(TableAfter(t, cs), cs[|cs|-1])}
  }

  /** Where a line of table `t` is to stand after the migration. */
  function Home(t: Option<string>, c: string): Place {
    if c == "" then Blank
    else if t == SKILL && Provenance(c) then At(FORGE, c)
    else if Lifted(t) then At(Some("forge." + Suffix(t)), if TableName(c).Some? then "[forge." + Suffix(t) + "]" else c)
    else At(t, c)
  }

  function Homes(t: Option<string>, cs: seq<string>): (r: multiset<Place>)
    ensures |r| == |cs|
  {
    if cs == [] then multiset{} else
      Homes(t, cs[..|cs|-1]) + multiset{Home(TableAfter(t, cs), cs[|cs|-1])}
  }

  function Blanks(n: nat): (r: multiset<Place>)
    ensures |r| == n
  {
    if n == 0 then multiset{} else Blanks(n - 1) + multiset{Blank}
  }

  /** Every line is at home; new are one table header, and a blank line before
      it and before each lifted table. */
  ghost predicate Conserved(before: string, after: string, lifted: nat) {
    Places(None, Contents(after)) == Homes(None, Contents(before)) + multiset{At(FORGE, "[forge]")} + Blanks(1 + lifted)
  }

  function SkillTables(cs: seq<string>): nat {
    if cs == [] then 0 else SkillTables(cs[..|cs|-1]) + (if TableName(cs[|cs|-1]) == SKILL then 1 else 0)
  }

  /** The text ends without a line break in a provenance key, and the `[skill]`
      table it ends in is not the first. */
  predicate LastKeyStrands(text: string) {
    var cs := Contents(text);
    && cs != [] && !Ended(text)
    && TableAfter(None, cs) == SKILL && Provenance(cs[|cs|-1]) && SkillTables(cs) > 1
  }

  // ------------------------------------------------------------- the plan

  datatype Section = Section(table: Option<string>, buf: seq<string>)

  datatype Plan = Plan(before: string, after: string, keys: seq<string>, subtables: seq<string>, alreadyMigrated: bool)

  predicate HasForge(lines: seq<string>) {
    exists l <- lines :: TableName(Content(l)) == FORGE
  }

  /** The lines by table. */
  function Cut(lines: seq<string>): (r: seq<Section>)
    ensures r != []
  {
    if lines == [] then [Section(None, [])] else
      var done, l := Cut(lines[..|lines|-1]), lines[|lines|-1];
      if TableName(Content(l)).Some? then done + [Section(TableName(Content(l)), [l])]
      else done[|done|-1 := Section(done[|done|-1].table, done[|done|-1].buf + [l])]
  }

  function Provenances(ls: seq<string>): seq<string> {
    if ls == [] then [] else
      Provenances(ls[..|ls|-1]) + (if Provenance(Content(ls[|ls|-1])) then [ls[|ls|-1]] else [])
  }

  function Others(ls: seq<string>): seq<string> {
    if ls == [] then [] else
      Others(ls[..|ls|-1]) + (if Provenance(Content(ls[|ls|-1])) then [] else [ls[|ls|-1]])
  }

  function KeyNames(ls: seq<string>): seq<string> {
    if ls == [] then [] else
      KeyNames(ls[..|ls|-1]) + (if Provenance(Content(ls[|ls|-1])) then [KeyName(Content(ls[|ls|-1])).value] else [])
  }

  predicate Headed(s: Section) {
    s.table.Some? ==> s.buf != []
  }

  /** What stays of a section. */
  function Kept(s: Section): seq<string>
    requires Headed(s)
  {
    if s.table == SKILL then [s.buf[0]] + Others(s.buf[1..]) else s.buf
  }

  /** The lines of a section that go to `[forge]`. */
  function Keys(s: Section): seq<string>
    requires Headed(s)
  {
    if s.table == SKILL then Provenances(s.buf[1..]) else []
  }

  /** The section under its new header. */
  function Renamed(s: Section): seq<string>
    requires Headed(s) && Lifted(s.table)
  {
    ["[forge." + Suffix(s.table) + "]" + (if Ended(s.buf[0]) then "\n" else "")] + s.buf[1..]
  }

  ghost predicate AllHeaded(secs: seq<Section>) {
    forall i | 0 <= i < |secs| :: Headed(secs[i])
  }

  function NewSections(secs: seq<Section>): seq<Section>
    requires AllHeaded(secs)
  {
    if secs == [] then [] else
      var s := secs[|secs|-1];
      NewSections(secs[..|secs|-1]) + (if Lifted(s.table) then [] else [Section(s.table, Kept(s))])
  }

  function AllKeys(secs: seq<Section>): seq<string>
    requires AllHeaded(secs)
  {
    if secs == [] then [] else AllKeys(secs[..|secs|-1]) + Keys(secs[|secs|-1])
  }

  function AllKeyNames(secs: seq<Section>): seq<string>
    requires AllHeaded(secs)
  {
    if secs == [] then [] else
      var s := secs[|secs|-1];
      AllKeyNames(secs[..|secs|-1]) + (if s.table == SKILL then KeyNames(s.buf[1..]) else [])
  }

  function AllRenamed(secs: seq<Section>): seq<seq<string>>
    requires AllHeaded(secs)
  {
    if secs == [] then [] else
      var s := secs[|secs|-1];
      AllRenamed(secs[..|secs|-1]) + (if Lifted(s.table) then [Renamed(s)] else [])
  }

  function AllSuffixes(secs: seq<Section>): seq<string> {
    if secs == [] then [] else
      var s := secs[|secs|-1];
      AllSuffixes(secs[..|secs|-1]) + (if Lifted(s.table) then [Suffix(s.table)] else [])
  }

  function Flat(secs: seq<Section>): seq<string> {
    if secs == [] then [] else Flat(secs[..|secs|-1]) + secs[|secs|-1].buf
  }

  /** How many sections there are up to the first `[skill]`, all if there is none. */
  function UpToSkill(secs: seq<Section>, i: nat): (r: nat)
    requires i <= |secs|
    ensures i <= r <= |secs|
    decreases |secs| - i
  {
    if i == |secs| then i else if secs[i].table == SKILL then i + 1 else UpToSkill(secs, i + 1)
  }

  const HEADER := "\n[forge]\n"

  function AddTables(text: string, bufs: seq<seq<string>>): string {
    if bufs == [] then text else
      Terminated(AddTables(text, bufs[..|bufs|-1])) + "\n" + Text(bufs[|bufs|-1])
  }

  /** The new text without the lifted tables. */
  function Body(kept: seq<Section>, keys: seq<string>): string {
    var n := UpToSkill(kept, 0);
    Terminated(Text(Flat(kept[..n]))) + HEADER + Text(keys) + Text(Flat(kept[n..]))
  }

  function Assembled(secs: seq<Section>): string
    requires AllHeaded(secs)
  {
    AddTables(Body(NewSections(secs), AllKeys(secs)), AllRenamed(secs))
  }

  lemma {:induction false} CutIsHeaded(lines: seq<string>)
    ensures AllHeaded(Cut(lines))
  {
    if lines != [] {
      CutIsHeaded(lines[..|lines|-1]);
    }
  }

  /** What `plan_migration` returns for a text. */
  function Migration(text: string): Plan {
    if HasForge(Lines(text)) then Plan(text, text, [], [], true) else
      CutIsHeaded(Lines(text));
      var secs := Cut(Lines(text));
      var keys, subtables := AllKeyNames(secs), AllSuffixes(secs);
      if keys == [] && subtables == [] then Plan(text, text, [], [], false)
      else Plan(text, Assembled(secs), keys, subtables, false)
  }

  // ------------------------------------------------------------- the program

  predicate NonEmpty(ls: seq<string>) {
    "" !in ls
  }

  ghost predicate AllNonEmpty(secs: seq<Section>) {
    forall i | 0 <= i < |secs| :: NonEmpty(secs[i].buf)
  }

  /** The loop that cuts the lines into sections. */
  method CutSections(lines: seq<string>) returns (sections: seq<Section>)
    ensures sections == Cut(lines)
  {
    sections := [];
    var table: Option<string>, buf := None, [];
    for i := 0 to |lines|
      invariant sections + [Section(table, buf)] == Cut(lines[..i])
    {
      assert lines[..i+1][..i] == lines[..i];
      var name := TableName(Content(lines[i]));
      if name.Some? {
        sections := sections + [Section(table, buf)];
        table, buf := name, [lines[i]];
      } else {
        buf := buf + [lines[i]];
      }
    }
    assert lines[..|lines|] == lines;
    sections := sections + [Section(table, buf)];
  }

  /** The loop over the lines of a `[skill]` section. */
  method SplitSkill(buf: seq<string>) returns (kept: seq<string>, keys: seq<string>, names: seq<string>)
    requires buf != []
    ensures kept == [buf[0]] + Others(buf[1..]) && keys == Provenances(buf[1..]) && names == KeyNames(buf[1..])
  {
    hide KeyName, Content;
    kept, keys, names := [], [], [];
    for i := 0 to |buf|
      invariant i == 0 ==> kept == [] && keys == [] && names == []
      invariant i > 0 ==> kept == [buf[0]] + Others(buf[1..i]) && keys == Provenances(buf[1..i]) && names == KeyNames(buf[1..i])
    {
      if i == 0 {
        kept := [buf[0]];
        continue;
      }
      assert buf[1..i+1][..i-1] == buf[1..i] && buf[1..i+1][i-1] == buf[i];
      if Provenance(Content(buf[i])) {
        keys := keys + [buf[i]];
        names := names + [KeyName(Content(buf[i])).value];
      } else {
        kept := kept + [buf[i]];
      }
    }
    assert buf[1..|buf|] == buf[1..];
  }

  /** The loop that sorts the sections into what stays and what moves. */
  method Distribute(sections: seq<Section>)
    returns (kept: seq<Section>, keys: seq<string>, tables: seq<seq<string>>, names: seq<string>, suffixes: seq<string>)
    requires AllHeaded(sections)
    ensures kept == NewSections(sections) && keys == AllKeys(sections) && tables == AllRenamed(sections)
    ensures names == AllKeyNames(sections) && suffixes == AllSuffixes(sections)
  {
    hide Others, Provenances, KeyNames;
    kept, keys, tables, names, suffixes := [], [], [], [], [];
    for i := 0 to |sections|
      invariant kept == NewSections(sections[..i]) && keys == AllKeys(sections[..i]) && tables == AllRenamed(sections[..i])
      invariant names == AllKeyNames(sections[..i]) && suffixes == AllSuffixes(sections[..i])
    {
      assert sections[..i+1][..i] == sections[..i];
      var s := sections[i];
      if s.table == SKILL {
        var stays, moves, moved := SplitSkill(s.buf);
        keys, names := keys + moves, names + moved;
        kept := kept + [Section(s.table, stays)];
      } else if Lifted(s.table) {
        var header := "[forge." + Suffix(s.table) + "]\n";
        if !Ended(s.buf[0]) {
          header := header[..|header|-1];
          assert header == "[forge." + Suffix(s.table) + "]" + "";
        } else {
          assert header == "[forge." + Suffix(s.table) + "]" + "\n";
        }
        tables := tables + [[header] + s.buf[1..]];
        suffixes := suffixes + [Suffix(s.table)];
      } else {
        kept := kept + [s];
      }
    }
    assert sections[..|sections|] == sections;
  }

  /** End the last line, if it is not. */
  method EndLine(lines: seq<string>) returns (r: seq<string>)
    requires NonEmpty(lines)
    ensures NonEmpty(r) && Text(r) == Terminated(Text(lines))
  {
    r := lines;
    TextEnded(lines);
    if lines != [] && !Ended(lines[|lines|-1]) {
      r := r + ["\n"];
    }
  }

  /** The loop that puts `[forge]` behind the first `[skill]`. */
  method AssembleBody(kept: seq<Section>, keys: seq<string>) returns (lines: seq<string>, inserted: bool)
    requires AllNonEmpty(kept) && NonEmpty(keys)
    ensures NonEmpty(lines)
    ensures inserted ==> Text(lines) == Body(kept, keys)
    ensures !inserted ==> UpToSkill(kept, 0) == |kept| && Text(lines) == Text(Flat(kept))
  {
    hide Flat, Text, Terminated;
    ghost var n := UpToSkill(kept, 0);
    lines, inserted := [], false;
    assert kept[..0] == [] && Text(Flat([])) == "" == Text([]) by { NoText(); }
    for i := 0 to |kept|
      invariant NonEmpty(lines)
      invariant !inserted ==> UpToSkill(kept, 0) == UpToSkill(kept, i) && Text(lines) == Text(Flat(kept[..i]))
      invariant inserted ==> n <= i && Text(lines) == Terminated(Text(Flat(kept[..n]))) + HEADER + Text(keys) + Text(Flat(kept[n..i]))
    {
      FlatOneMore(kept, 0, i);
      if inserted {
        FlatOneMore(kept, n, i);
      }
      TextOfBoth(lines, kept[i].buf);
      lines := lines + kept[i].buf;
      if kept[i].table == SKILL && !inserted {
        assert Text(lines) == Text(Flat(kept[..n]));
        lines := EndLine(lines);
        lines := AppendHeader(lines, keys);
        assert kept[n..i+1] == [] && Text(Flat([])) == "" by { NoText(); }
        inserted := true;
      }
    }
    assert kept[..|kept|] == kept && kept[n..|kept|] == kept[n..];
  }

  /** The loops that put the new text together. */
  method Assemble(kept: seq<Section>, keys: seq<string>, tables: seq<seq<string>>) returns (text: string)
    requires AllNonEmpty(kept) && NonEmpty(keys) && forall b <- tables :: NonEmpty(b)
    requires keys != [] || tables != []
    ensures text == AddTables(Body(kept, keys), tables)
  {
    hide Flat, Terminated, Text;
    var lines, inserted := AssembleBody(kept, keys);
    if !inserted && (keys != [] || tables != []) {
      lines := EndLine(lines);
      lines := AppendHeader(lines, keys);
      assert kept[..|kept|] == kept && kept[|kept|..] == [] && Text(Flat([])) == "" by { NoText(); }
    }
    hide Body;
    for i := 0 to |tables|
      invariant NonEmpty(lines) && Text(lines) == AddTables(Body(kept, keys), tables[..i])
    {
      assert tables[..i+1][..i] == tables[..i];
      lines := EndLine(lines);
      assert tables[i] in tables;
      TextOfBoth(lines + ["\n"], tables[i]);
      TextOfBoth(lines, ["\n"]);
      OneText("\n");
      lines := lines + ["\n"] + tables[i];
    }
    assert tables[..|tables|] == tables;
    text := Text(lines);
  }

  lemma OneText(l: string)
    ensures Text([l]) == l
  {
    assert Text([]) == "";
  }

  lemma FlatOneMore(secs: seq<Section>, n: nat, i: nat)
    requires n <= i < |secs|
    ensures Text(Flat(secs[n..i+1])) == Text(Flat(secs[n..i])) + Text(secs[i].buf)
  {
    hide Text;
    assert secs[n..i+1][..i-n] == secs[n..i] && secs[n..i+1][i-n] == secs[i];
    TextOfBoth(Flat(secs[n..i]), secs[i].buf);
  }

  lemma NoText()
    ensures Text(Flat([])) == "" == Text([])
  {
  }

  method AppendHeader(lines: seq<string>, keys: seq<string>) returns (r: seq<string>)
    requires NonEmpty(lines) && NonEmpty(keys)
    ensures NonEmpty(r) && Text(r) == Text(lines) + HEADER + Text(keys)
  {
    r := lines + [HEADER];
    TextOfBoth(r, keys);
    r := r + keys;
  }

  /** `plan_migration`. */
  method PlanMigration(text: string) returns (plan: Plan)
    ensures plan == Migration(text)
  {
    hide Cut, TableName, Assembled, NewSections, AllKeys, AllRenamed, AllKeyNames, AllSuffixes, Lines;
    var lines := Lines(text);
    for i := 0 to |lines|
      invariant forall l <- lines[..i] :: TableName(Content(l)) != FORGE
    {
      if TableName(Content(lines[i])) == FORGE {
        return Plan(text, text, [], [], true);
      }
    }
    assert lines[..|lines|] == lines;
    var sections := CutSections(lines);
    CutIsHeaded(lines);
    var kept, keys, tables, names, suffixes := Distribute(sections);
    if names == [] && suffixes == [] {
      return Plan(text, text, [], [], false);
    }
    SameCounts(sections);
    NothingEmpty(text);
    var after := Assemble(kept, keys, tables);
    assert after == Assembled(sections) by { AssembledIs(sections); }
    return Plan(text, after, names, suffixes, false);
  }

  lemma AssembledIs(secs: seq<Section>)
    requires AllHeaded(secs)
    ensures Assembled(secs) == AddTables(Body(NewSections(secs), AllKeys(secs)), AllRenamed(secs))
  {
  }

  lemma {:induction false} SameCounts(secs: seq<Section>)
    requires AllHeaded(secs)
    ensures |AllKeys(secs)| == |AllKeyNames(secs)| && |AllRenamed(secs)| == |AllSuffixes(secs)|
  {
    if secs != [] {
      SameCounts(secs[..|secs|-1]);
      if secs[|secs|-1].table == SKILL {
        SameKeyCounts(secs[|secs|-1].buf[1..]);
      }
    }
  }

  lemma {:induction false} SameKeyCounts(ls: seq<string>)
    ensures |Provenances(ls)| == |KeyNames(ls)|
  {
    if ls != [] {
      SameKeyCounts(ls[..|ls|-1]);
    }
  }

  lemma {:induction false} FlatCut(lines: seq<string>)
    ensures Flat(Cut(lines)) == lines
  {
    hide TableName, Content, Flat;
    if lines == [] {
      FlatOne(Section(None, []));
    } else {
      FlatCut(lines[..|lines|-1]);
      var done, l := Cut(lines[..|lines|-1]), lines[|lines|-1];
      FlatSnoc(done, Section(TableName(Content(l)), [l]));
      FlatLonger(done, l);
      assert lines == lines[..|lines|-1] + [l];
    }
  }

  lemma FlatSnoc(secs: seq<Section>, s: Section)
    ensures Flat(secs + [s]) == Flat(secs) + s.buf
  {
    assert (secs + [s])[..|secs|] == secs;
  }

  lemma FlatOne(s: Section)
    ensures Flat([s]) == s.buf
  {
    FlatSnoc([], s);
    assert [] + [s] == [s];
  }

  lemma FlatLonger(secs: seq<Section>, l: string)
    requires secs != []
    ensures Flat(secs[|secs|-1 := Section(secs[|secs|-1].table, secs[|secs|-1].buf + [l])]) == Flat(secs) + [l]
  {
    var last := secs[|secs|-1];
    var longer := secs[|secs|-1 := Section(last.table, last.buf + [l])];
    assert longer[..|secs|-1] == secs[..|secs|-1];
    assert Flat(secs) == Flat(secs[..|secs|-1]) + last.buf;
  }

  lemma {:induction false} FlatIn(secs: seq<Section>, s: Section, l: string)
    requires s in secs && l in s.buf
    ensures l in Flat(secs)
  {
    if s != secs[|secs|-1] {
      assert s in secs[..|secs|-1];
      FlatIn(secs[..|secs|-1], s, l);
    }
  }

  lemma NothingEmpty(text: string)
    requires AllHeaded(Cut(Lines(text)))
    ensures
      var secs := Cut(Lines(text));
      AllNonEmpty(NewSections(secs)) && NonEmpty(AllKeys(secs)) && forall b <- AllRenamed(secs) :: NonEmpty(b)
  {
    hide TableName, NewSections, AllKeys, AllRenamed, Lines, Flat;
    var lines := Lines(text);
    LinesAreAChain(text);
    FlatCut(lines);
    assert "" !in lines by { ChainNonEmpty(lines); }
    forall i | 0 <= i < |Cut(lines)| ensures NonEmpty(Cut(lines)[i].buf) {
      if "" in Cut(lines)[i].buf {
        FlatIn(Cut(lines), Cut(lines)[i], "");
      }
    }
    KeptNonEmpty(Cut(lines));
    KeysNonEmpty(Cut(lines));
    RenamedNonEmpty(Cut(lines));
  }

  lemma ChainNonEmpty(ls: seq<string>)
    requires Chain(ls)
    ensures NonEmpty(ls)
  {
    if ls != [] {
      assert ls == ls[..|ls|-1] + [ls[|ls|-1]];
    }
  }

  lemma {:induction false} KeptNonEmpty(secs: seq<Section>)
    requires AllHeaded(secs) && AllNonEmpty(secs)
    ensures AllNonEmpty(NewSections(secs))
  {
    hide Lifted, Others;
    if secs != [] {
      var s := secs[|secs|-1];
      KeptNonEmpty(secs[..|secs|-1]);
      if s.table == SKILL {
        PartsNonEmpty(s.buf[1..]);
      }
      assert NonEmpty(Kept(s));
    }
  }

  lemma {:induction false} KeysNonEmpty(secs: seq<Section>)
    requires AllHeaded(secs) && AllNonEmpty(secs)
    ensures NonEmpty(AllKeys(secs))
  {
    hide Provenances;
    if secs != [] {
      var s := secs[|secs|-1];
      KeysNonEmpty(secs[..|secs|-1]);
      if s.table == SKILL {
        PartsNonEmpty(s.buf[1..]);
      }
    }
  }

  lemma {:induction false} RenamedNonEmpty(secs: seq<Section>)
    requires AllHeaded(secs) && AllNonEmpty(secs)
    ensures forall b <- AllRenamed(secs) :: NonEmpty(b)
  {
    if secs != [] {
      var s := secs[|secs|-1];
      RenamedNonEmpty(secs[..|secs|-1]);
      if Lifted(s.table) {
        assert "" !in s.buf[1..];
        assert NonEmpty(Renamed(s));
      }
    }
  }

  lemma {:induction false} PartsNonEmpty(ls: seq<string>)
    requires NonEmpty(ls)
    ensures NonEmpty(Others(ls)) && NonEmpty(Provenances(ls))
  {
    hide Provenance, Content;
    if ls != [] {
      assert ls == ls[..|ls|-1] + [ls[|ls|-1]];
      PartsNonEmpty(ls[..|ls|-1]);
    }
  }
}
