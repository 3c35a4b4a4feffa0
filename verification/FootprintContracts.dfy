/** What the contracts of a policy promise about the captured trees. */
module FootprintContracts {
  import opened Options
  import opened MarkdownLines
  import opened Ordering
  import opened Footprint
  import opened FootprintAgreement

  /** The line names the contract's package, with its feature if it asks for one. */
  predicate Says(c: Contract, l: string) {
    ParseLine(l).Package? && ParseLine(l).key.name == c.package && (c.feature.Some? ==> c.feature.value in ParseLine(l).features)
  }

  /** What the contract looks for is in the tree exactly when a line says so. */
  lemma FoundMeans(c: Contract, lines: seq<string>, root: string)
    requires TreeOf(lines, root).Some?
    ensures Found(c, TreeOf(lines, root).value) <==> exists l <- lines :: Says(c, l)
  {
    hide ParseLine, Empty, CountsOf, SortedNames, SortedPairs, Increasing, PairBefore, EnabledOf;
    var packages := PackagesOf(lines);
    var pairs := SortedPairs(packages.Keys);
    SortedPairsOnce(packages.Keys);
    EnabledMeans(pairs, packages);
    if c.feature.Some? {
      EnabledSays(c, lines, pairs);
    }
  }

  lemma EnabledSays(c: Contract, lines: seq<string>, pairs: seq<Pair>)
    requires c.feature.Some? && (forall p :: p in pairs <==> p in KeysOf(lines))
    ensures (exists e <- EnabledOf(pairs, PackagesOf(lines)) :: e.name == c.package && c.feature.value in e.features) <==> exists l <- lines :: Says(c, l)
  {
    hide ParseLine, SortedNames, EnabledOf;
    var packages := PackagesOf(lines);
    var enabled := EnabledOf(pairs, packages);
    var f := c.feature.value;
    EnabledRecordsMean(pairs, packages);
    if e :| e in enabled && e.name == c.package && f in e.features {
      assert f in packages[KeyOf(e)];
      var l :| l in lines && ParseLine(l).Package? && ParseLine(l).key == KeyOf(e) && f in ParseLine(l).features;
      assert Says(c, l);
    }
    if l :| l in lines && Says(c, l) {
      var k := ParseLine(l).key;
      assert f in packages[k] && k in KeysOfAll(enabled);
      var i :| 0 <= i < |enabled| && KeysOfAll(enabled)[i] == k;
      assert enabled[i] in enabled && f in enabled[i].features;
    }
  }

  ghost predicate Holds(c: Contract, records: map<string, Record>) {
    c.profile in records && (Found(c, records[c.profile].tree) <==> c.expected)
  }

  /** The contracts pass exactly when each one holds. */
  lemma {:induction false} PassedWhen(cs: seq<Contract>, records: map<string, Record>)
    ensures PassedContracts(cs, records).Some? <==> forall c <- cs :: Holds(c, records)
  {
    hide Found;
    if cs != [] {
      var front, last := cs[..|cs|-1], cs[|cs|-1];
      PassedWhen(front, records);
      assert cs == front + [last];
      assert PassedContracts(cs, records).Some? <==> PassedContracts(front, records).Some? && Holds(last, records);
      assert forall c :: c in cs <==> c in front || c == last;
    }
  }

  ghost predicate DifferentIds(cs: seq<Contract>) {
    forall i, j | 0 <= i < j < |cs| :: cs[i].id != cs[j].id
  }

  lemma LastIsDifferent(cs: seq<Contract>)
    requires cs != [] && DifferentIds(cs)
    ensures DifferentIds(cs[..|cs|-1]) && forall c <- cs[..|cs|-1] :: c.id != cs[|cs|-1].id
    ensures forall c :: c in cs <==> c in cs[..|cs|-1] || c == cs[|cs|-1]
  {
    assert cs == cs[..|cs|-1] + [cs[|cs|-1]];
  }

  /** And then each one is recorded, and nothing else. */
  lemma {:induction false} PassedMeans(cs: seq<Contract>, records: map<string, Record>)
    requires PassedContracts(cs, records).Some? && DifferentIds(cs)
    ensures
      var passed := PassedContracts(cs, records).value;
      && (forall c <- cs :: c.id in passed && passed[c.id] == Passed(c.id, c.profile))
      && forall id <- passed :: exists c <- cs :: c.id == id
  {
    hide Found, DifferentIds;
    if cs != [] {
      LastIsDifferent(cs);
      PassedMeans(cs[..|cs|-1], records);
    }
  }

  lemma {:induction false} AllRecorded(ps: seq<Profile>, resolved: Selections, captures: Captures)
    requires Captured(ps, captures)
    ensures Records(ps, resolved, captures).Some? <==> forall i | 0 <= i < |ps| :: RecordOf(ps[i], resolved, captures).Some?
  {
    hide RecordOf;
    if ps != [] {
      var front := ps[..|ps|-1];
      AllRecorded(front, resolved, captures);
      assert forall i | 0 <= i < |front| :: front[i] == ps[i];
    }
  }

  /** Some line says something, no line is malformed, and one names the root. */
  ghost predicate Readable(lines: seq<string>, root: string) {
    && (exists l <- lines :: !Empty(l)) && (forall l <- lines :: !ParseLine(l).Malformed?)
    && exists l <- lines :: ParseLine(l).Package? && ParseLine(l).key.name == root
  }

  lemma TreeMeans(lines: seq<string>, root: string)
    ensures TreeOf(lines, root).Some? <==> Readable(lines, root)
  {
    hide ParseLine, Empty, Rendered;
  }

  ghost predicate Told(cs: seq<Contract>, captures: Captures) {
    forall c <- cs :: c.profile in captures && ((exists l <- captures[c.profile] :: Says(c, l)) <==> c.expected)
  }

  /** The inputs of a profile of the policy are there when its selection is. */
  lemma RecordMade(p: Profile, policy: Policy, resolved: Selections, captures: Captures)
    requires ValidProfile(p) && p in policy.profiles && resolved.Keys == PolicySelections(policy) && p.id in captures
    ensures RecordOf(p, resolved, captures).Some? <==> Readable(captures[p.id], p.package)
    ensures RecordOf(p, resolved, captures).Some? ==> Some(RecordOf(p, resolved, captures).value.tree) == TreeOf(captures[p.id], p.package)
  {
    hide TreeOf, SortedNames, Readable, PackageName, ProfileId, RefList;
    TreeMeans(captures[p.id], p.package);
  }

  lemma ContractsTold(policy: Policy, resolved: Selections, captures: Captures)
    requires ValidPolicy(policy) && Captured(policy.profiles, captures) && resolved.Keys == PolicySelections(policy)
    requires Records(policy.profiles, resolved, captures).Some?
    ensures PassedContracts(policy.contracts, Records(policy.profiles, resolved, captures).value).Some? <==> Told(policy.contracts, captures)
  {
    hide ValidProfile, Records, RecordOf, PassedContracts, Found, TreeOf, Says, Readable, PolicySelections;
    var records := Records(policy.profiles, resolved, captures).value;
    RecordsMean(policy.profiles, resolved, captures);
    PassedWhen(policy.contracts, records);
    forall c | c in policy.contracts
      ensures Holds(c, records) <==> c.profile in captures && ((exists l <- captures[c.profile] :: Says(c, l)) <==> c.expected)
    {
      var p :| p in policy.profiles && p.id == c.profile;
      RecordMade(p, policy, resolved, captures);
      FoundMeans(c, captures[p.id], p.package);
    }
  }

  /** A report can be built from a policy that was let through exactly when the
      selections are well-formed and are those the policy names, every captured tree
      can be read, and every contract is told by the lines of its profile's tree. */
  lemma BuiltExactlyWhen(policy: Policy, digest: string, context: Context, captures: Captures)
    requires ValidPolicy(policy) && Captured(policy.profiles, captures)
    ensures BuiltReport(policy, digest, context, captures).Some? <==>
              && (forall s <- context.selections :: ProfileId(s) && RefList(context.selections[s]))
              && context.selections.Keys == PolicySelections(policy)
              && (forall i | 0 <= i < |policy.profiles| :: Readable(captures[policy.profiles[i].id], policy.profiles[i].package))
              && Told(policy.contracts, captures)
  {
    hide ProfileId, RefList, PolicySelections, Readable, Told, Records, RecordOf, PassedContracts, ValidProfile, SortedNames, InOrder;
    var normal := Normalized(context.selections);
    if normal.Some? && normal.value.Keys == PolicySelections(policy) {
      AllRecorded(policy.profiles, normal.value, captures);
      forall i | 0 <= i < |policy.profiles|
        ensures RecordOf(policy.profiles[i], normal.value, captures).Some? <==> Readable(captures[policy.profiles[i].id], policy.profiles[i].package)
      {
        RecordMade(policy.profiles[i], policy, normal.value, captures);
      }
      if Records(policy.profiles, normal.value, captures).Some? {
        ContractsTold(policy, normal.value, captures);
      }
    }
  }
}
