/** The loops that build a footprint report and check one. */
module FootprintProgram {
  import opened Options
  import opened MarkdownLines
  import opened Ordering
  import opened Footprint

  // ------------------------------------------------------------- the tree

  /** Names and their versions. */
  function VersionMap(ps: set<Pair>): map<string, set<string>> {
    map n | n in NamesOf(ps) :: VersionsOf(ps, n)
  }

  lemma OneVersionMore(ps: set<Pair>, p: Pair)
    ensures
      var before := VersionMap(ps);
      VersionMap(ps + {p}) == before[p.name := (if p.name in before then before[p.name] else {}) + {p.version}]
  {
    var more := ps + {p};
    assert NamesOf(more) == NamesOf(ps) + {p.name};
    forall n | n in NamesOf(more) ensures VersionsOf(more, n) == VersionsOf(ps, n) + (if n == p.name then {p.version} else {}) {
    }
    if p.name !in NamesOf(ps) {
      assert VersionsOf(ps, p.name) == {};
    }
    var before := VersionMap(ps);
    var after := before[p.name := (if p.name in before then before[p.name] else {}) + {p.version}];
    assert VersionMap(more).Keys == after.Keys;
    forall n | n in after ensures VersionMap(more)[n] == after[n] {
    }
  }

  /** The loop that collects the versions of each name. */
  method VersionsByName(pairs: seq<Pair>) returns (versions: map<string, set<string>>)
    ensures versions == VersionMap(SetOf(pairs))
  {
    hide VersionMap;
    versions := map[];
    assert VersionMap(SetOf(pairs[..0])) == map[] by { NoVersions(); }
    for i := 0 to |pairs|
      invariant versions == VersionMap(SetOf(pairs[..i]))
    {
      var p := pairs[i];
      OneVersionMore(SetOf(pairs[..i]), p);
      assert SetOf(pairs[..i+1]) == SetOf(pairs[..i]) + {p};
      versions := versions[p.name := (if p.name in versions then versions[p.name] else {}) + {p.version}];
    }
    assert pairs[..|pairs|] == pairs;
  }

  lemma NoVersions()
    ensures VersionMap(SetOf([])) == map[]
  {
  }

  /** How many names have more than one version. */
  method CountRepeated(versions: map<string, set<string>>) returns (count: nat)
    ensures count == |set n | n in versions && |versions[n]| > 1|
  {
    count := 0;
    var names := versions.Keys;
    ghost var counted: set<string> := {};
    while names != {}
      invariant names <= versions.Keys
      invariant counted == set n | n in versions && n !in names && |versions[n]| > 1
      invariant count == |counted|
      decreases |names|
    {
      var n :| n in names;
      names := names - {n};
      if |versions[n]| > 1 {
        count := count + 1;
        counted := counted + {n};
      }
    }
    assert counted == set n | n in versions && |versions[n]| > 1;
  }

  method CountAll(pairs: seq<Pair>, enabled: seq<EnabledRecord>) returns (counts: Counts)
    requires |pairs| == |SetOf(pairs)|
    ensures counts == CountsOf(SetOf(pairs), enabled)
  {
    var versions := VersionsByName(pairs);
    var repeated := CountRepeated(versions);
    var total := 0;
    for i := 0 to |enabled|
      invariant total == Total(enabled[..i])
    {
      assert enabled[..i+1][..i] == enabled[..i];
      total := total + |enabled[i].features|;
    }
    assert enabled[..|enabled|] == enabled;
    ghost var ps := SetOf(pairs);
    assert versions.Keys == NamesOf(ps);
    assert (set n | n in versions && |versions[n]| > 1) == RepeatedNames(ps);
    counts := Counts(|pairs|, |versions|, repeated, total);
  }

  lemma OneLineMore(lines: seq<string>, l: string)
    requires ParseLine(l).Package?
    ensures
      var before, line := PackagesOf(lines), ParseLine(l);
      PackagesOf(lines + [l]) == before[line.key := (if line.key in before then before[line.key] else {}) + line.features]
  {
    hide ParseLine;
    var line, more := ParseLine(l), lines + [l];
    forall x ensures x in more <==> x in lines || x == l {
    }
    assert KeysOf(more) == KeysOf(lines) + {line.key};
    forall k ensures FeaturesOf(more, k) == FeaturesOf(lines, k) + (if k == line.key then line.features else {}) {
      FeaturesGrow(lines, l, k);
    }
    if line.key !in KeysOf(lines) {
      assert FeaturesOf(lines, line.key) == {};
    }
    var before := PackagesOf(lines);
    var after := before[line.key := (if line.key in before then before[line.key] else {}) + line.features];
    assert PackagesOf(more).Keys == after.Keys;
    forall k | k in after ensures PackagesOf(more)[k] == after[k] {
    }
  }

  lemma FeaturesGrow(lines: seq<string>, l: string, k: Pair)
    requires ParseLine(l).Package?
    ensures FeaturesOf(lines + [l], k) == FeaturesOf(lines, k) + (if k == ParseLine(l).key then ParseLine(l).features else {})
  {
    hide ParseLine;
    forall x ensures x in lines + [l] <==> x in lines || x == l {
    }
  }

  lemma OneSkippedMore(lines: seq<string>, l: string)
    requires ParseLine(l).Skipped?
    ensures PackagesOf(lines + [l]) == PackagesOf(lines)
  {
    hide ParseLine;
    forall x ensures x in lines + [l] <==> x in lines || x == l {
    }
    assert KeysOf(lines + [l]) == KeysOf(lines);
    forall k ensures FeaturesOf(lines + [l], k) == FeaturesOf(lines, k) {
    }
  }

  /** The loop over the lines of a tree. */
  method ReadLines(lines: seq<string>) returns (packages: Option<Packages>)
    ensures packages.None? <==> exists l <- lines :: ParseLine(l).Malformed?
    ensures packages.Some? ==> packages.value == PackagesOf(lines)
  {
    hide ParseLine, PackagesOf;
    var found: Packages := map[];
    assert PackagesOf(lines[..0]) == map[] by { NoPackages(); }
    for i := 0 to |lines|
      invariant found == PackagesOf(lines[..i])
      invariant forall l <- lines[..i] :: !ParseLine(l).Malformed?
    {
      var line := ParseLine(lines[i]);
      assert lines[..i+1] == lines[..i] + [lines[i]];
      match line {
        case Malformed =>
          assert lines[i] in lines;
          return None;
        case Skipped =>
          OneSkippedMore(lines[..i], lines[i]);
        case Package(key, features) =>
          OneLineMore(lines[..i], lines[i]);
          found := found[key := (if key in found then found[key] else {}) + features];
      }
    }
    assert lines[..|lines|] == lines;
    return Some(found);
  }

  lemma NoPackages()
    ensures PackagesOf([]) == map[]
  {
  }

  /** The features of the packages that have some. */
  method EnabledFeatures(pairs: seq<Pair>, packages: Packages) returns (enabled: seq<EnabledRecord>)
    requires forall p <- pairs :: p in packages
    ensures enabled == EnabledOf(pairs, packages)
  {
    hide SortedNames;
    enabled := [];
    for i := 0 to |pairs|
      invariant enabled == EnabledOf(pairs[..i], packages)
    {
      assert pairs[..i+1][..i] == pairs[..i];
      var p := pairs[i];
      if packages[p] != {} {
        enabled := enabled + [EnabledRecord(p.name, p.version, SortedNames(packages[p]))];
      }
    }
    assert pairs[..|pairs|] == pairs;
  }

  /** `parse_tree`. */
  method ParseTree(lines: seq<string>, root: string) returns (tree: Option<Tree>)
    ensures tree == TreeOf(lines, root)
  {
    hide ParseLine, FeaturesOf, Empty, SortedPairs, EnabledOf, CountsOf;
    if forall l <- lines :: Empty(l) {
      return None;
    }
    var read := ReadLines(lines);
    if read.None? {
      return None;
    }
    var packages := read.value;
    assert packages.Keys == KeysOf(lines);
    hide PackagesOf, KeysOf;
    if packages == map[] || forall p <- packages :: p.name != root {
      return None;
    }
    assert root in NamesOf(packages.Keys);
    var pairs := SortedPairs(packages.Keys);
    var enabled := EnabledFeatures(pairs, packages);
    assert SetOf(pairs) == packages.Keys;
    var counts := CountAll(pairs, enabled);
    return Some(Tree(pairs, enabled, counts));
  }

  // ------------------------------------------------------------- the report

  /** `normalize_resolved_selections`. */
  method NormalizeSelections(selections: Selections) returns (r: Option<Selections>)
    ensures r == Normalized(selections)
  {
    hide ProfileId, RefList, SortedNames;
    var normal: Selections := map[];
    var names := selections.Keys;
    while names != {}
      invariant names <= selections.Keys
      invariant forall s <- selections | s !in names :: ProfileId(s) && RefList(selections[s])
      invariant normal == map s | s in selections && s !in names :: SortedNames(SetOf(selections[s]))
      decreases |names|
    {
      var s :| s in names;
      if !ProfileId(s) || !RefList(selections[s]) {
        return None;
      }
      normal := normal[s := SortedNames(SetOf(selections[s]))];
      names := names - {s};
    }
    assert normal == map s | s in selections :: SortedNames(SetOf(selections[s]));
    return Some(normal);
  }

  /** `validate_contracts`. */
  method ValidateContracts(cs: seq<Contract>, records: map<string, Record>) returns (r: Option<seq<Passed>>)
    ensures r == match PassedContracts(cs, records) case Some(passed) => Some(InOrder(passed)) case None => None
  {
    hide Found, InOrder;
    var passing: map<string, Passed> := map[];
    for i := 0 to |cs|
      invariant PassedContracts(cs[..i], records) == Some(passing)
    {
      assert cs[..i+1][..i] == cs[..i];
      var c := cs[i];
      if c.profile !in records || Found(c, records[c.profile].tree) != c.expected {
        FailureStays(cs, records, i + 1);
        return None;
      }
      passing := passing[c.id := Passed(c.id, c.profile)];
    }
    assert cs[..|cs|] == cs;
    return Some(InOrder(passing));
  }

  lemma {:induction false} FailureStays(cs: seq<Contract>, records: map<string, Record>, i: nat)
    requires i <= |cs| && PassedContracts(cs[..i], records).None?
    ensures PassedContracts(cs, records).None?
  {
    hide Found;
    if i == |cs| {
      assert cs[..i] == cs;
    } else {
      assert cs[..|cs|-1][..i] == cs[..i];
      FailureStays(cs[..|cs|-1], records, i);
    }
  }

  lemma {:induction false} MissingStays(ps: seq<Profile>, resolved: Selections, captures: Captures, i: nat)
    requires Captured(ps, captures) && i <= |ps| && Records(ps[..i], resolved, captures).None?
    ensures Records(ps, resolved, captures).None?
  {
    hide RecordOf;
    if i == |ps| {
      assert ps[..i] == ps;
    } else {
      assert ps[..|ps|-1][..i] == ps[..i];
      MissingStays(ps[..|ps|-1], resolved, captures, i);
    }
  }

  /** `build_report`. */
  method BuildReport(policy: Policy, digest: string, context: Context, captures: Captures) returns (report: Option<Report>)
    requires Captured(policy.profiles, captures)
    ensures report == BuiltReport(policy, digest, context, captures)
  {
    hide Normalized, ProfileInputs, TreeOf, PassedContracts, InOrder;
    var resolved := NormalizeSelections(context.selections);
    if resolved.None? || resolved.value.Keys != PolicySelections(policy) {
      return None;
    }
    var records: map<string, Record> := map[];
    var ps := policy.profiles;
    for i := 0 to |ps|
      invariant Records(ps[..i], resolved.value, captures) == Some(records)
    {
      assert ps[..i+1][..i] == ps[..i];
      var inputs := ProfileInputs(ps[i], resolved.value);
      if inputs.None? {
        MissingStays(ps, resolved.value, captures, i + 1);
        return None;
      }
      var tree := ParseTree(captures[ps[i].id], ps[i].package);
      if tree.None? {
        MissingStays(ps, resolved.value, captures, i + 1);
        return None;
      }
      records := records[ps[i].id := Record(ps[i].id, ps[i].package, inputs.value, tree.value)];
    }
    assert ps[..|ps|] == ps;
    var contracts := ValidateContracts(policy.contracts, records);
    if contracts.None? {
      return None;
    }
    return Some(Report(SCHEMA_VERSION, Context(context.facts, resolved.value), UNITS, digest, EDGE_KINDS, InOrder(records), contracts.value));
  }

  // ------------------------------------------------------------- the check

  /** `validate_profile`. */
  method ValidateProfile(r: Record) returns (ok: bool)
    ensures ok == ValidRecord(r)
  {
    hide Spelled, ValidInputs, SortedUnique, FeatureName, SortedPairs;
    if !ProfileId(r.id) || !PackageName(r.package) || !ValidInputs(r.inputs) || r.tree.pairs == [] {
      if r.tree.pairs == [] {
        assert NamesOf(SetOf(r.tree.pairs)) == {};
      }
      return false;
    }
    var pairs := r.tree.pairs;
    var named := ValidatePairs(pairs);
    if !named {
      return false;
    }
    if pairs != SortedPairs(SetOf(pairs)) {
      return false;
    }
    var versions := VersionsByName(pairs);
    assert versions.Keys == NamesOf(SetOf(pairs));
    if r.package !in versions {
      return false;
    }
    var enabled := r.tree.enabled;
    var known, keys := ValidateEnabled(enabled, pairs);
    if !known || keys != SortedPairs(SetOf(keys)) {
      return false;
    }
    var counts := CountAll(pairs, enabled);
    return r.tree.counts == counts;
  }

  /** Its loop over the packages. */
  method ValidatePairs(pairs: seq<Pair>) returns (ok: bool)
    ensures ok <==> forall p <- pairs :: PackageName(p.name) && Version(p.version)
  {
    hide PackageName, Version;
    for i := 0 to |pairs|
      invariant forall p <- pairs[..i] :: PackageName(p.name) && Version(p.version)
    {
      if !PackageName(pairs[i].name) || !Version(pairs[i].version) {
        assert pairs[i] in pairs;
        return false;
      }
    }
    assert pairs[..|pairs|] == pairs;
    return true;
  }

  /** Its loop over the enabled features. */
  method ValidateEnabled(enabled: seq<EnabledRecord>, pairs: seq<Pair>) returns (ok: bool, keys: seq<Pair>)
    ensures ok <==> forall e <- enabled :: ValidEnabled(e, pairs)
    ensures ok ==> keys == KeysOfAll(enabled)
  {
    hide ValidEnabled;
    keys := [];
    for i := 0 to |enabled|
      invariant forall e <- enabled[..i] :: ValidEnabled(e, pairs)
      invariant keys == KeysOfAll(enabled[..i])
    {
      if !ValidEnabled(enabled[i], pairs) {
        assert enabled[i] in enabled;
        return false, keys;
      }
      assert enabled[..i+1] == enabled[..i] + [enabled[i]];
      keys := keys + [KeyOf(enabled[i])];
    }
    assert enabled[..|enabled|] == enabled;
    ok := true;
  }

  /** The loop over the records of a report. */
  method ValidateProfiles(rs: seq<Record>) returns (ok: bool, ids: seq<string>, records: map<string, Record>)
    ensures ok <==> forall r <- rs :: ValidRecord(r)
    ensures ok ==> ids == Ids(rs) && records == RecordsById(rs)
  {
    hide ValidRecord;
    ids, records := [], map[];
    for i := 0 to |rs|
      invariant forall r <- rs[..i] :: ValidRecord(r)
      invariant ids == Ids(rs[..i]) && records == RecordsById(rs[..i])
    {
      ok := ValidateProfile(rs[i]);
      if !ok {
        assert rs[i] in rs;
        return;
      }
      assert rs[..i+1][..i] == rs[..i] && rs[..i+1] == rs[..i] + [rs[i]];
      ids := ids + [rs[i].id];
      records := records[rs[i].id := rs[i]];
    }
    assert rs[..|rs|] == rs;
    ok := true;
  }

  /** The loop that holds the records against the policy. */
  method MatchProfiles(rs: seq<Record>, expected: map<string, Profile>, resolved: Selections) returns (ok: bool)
    requires forall r <- rs :: r.id in expected
    ensures ok <==> forall r <- rs :: Matches(r, expected[r.id], resolved)
  {
    hide Matches;
    for i := 0 to |rs|
      invariant forall r <- rs[..i] :: Matches(r, expected[r.id], resolved)
    {
      if !Matches(rs[i], expected[rs[i].id], resolved) {
        assert rs[i] in rs;
        return false;
      }
    }
    assert rs[..|rs|] == rs;
    return true;
  }

  /** `validate_report`. */
  method ValidateReport(report: Report, policy: Policy, digest: string) returns (ok: bool)
    ensures ok == Accepted(report, policy, digest)
  {
    hide Normalized, ValidFacts, ValidRecord, SortedNames, PassedContracts, InOrder, Matches, PolicySelections, ById, RecordsById;
    if report.schema != SCHEMA_VERSION || !ValidFacts(report.context.facts) {
      return false;
    }
    var resolved := NormalizeSelections(report.context.selections);
    if resolved != Some(report.context.selections) || resolved.value.Keys != PolicySelections(policy) {
      return false;
    }
    if report.units != UNITS || report.edgeKinds != EDGE_KINDS || report.digest != digest || report.profiles == [] {
      return false;
    }
    var valid, ids, records := ValidateProfiles(report.profiles);
    var expected := ById(policy.profiles);
    if !valid || ids != SortedNames(expected.Keys) {
      return false;
    }
    forall r | r in report.profiles ensures r.id in expected {
      var i :| 0 <= i < |report.profiles| && report.profiles[i] == r;
      assert ids[i] in SortedNames(expected.Keys);
    }
    var matching := MatchProfiles(report.profiles, expected, report.context.selections);
    if !matching {
      return false;
    }
    var proven := ValidateContracts(policy.contracts, records);
    return proven == Some(report.contracts);
  }
}
