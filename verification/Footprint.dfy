/** Reports of dependency footprints: how one is built from captured trees, and
    how one is checked. Every error is the tool's one error; its words are left out. */
module Footprint {
  import opened Characters
  import opened Options
  import opened MarkdownLines
  import opened Ordering
  import opened Splitting

  // ------------------------------------------------------------- the patterns

  predicate Lower(c: char) {
    'a' <= c <= 'z'
  }

  predicate Alnum(c: char) {
    Lower(c) || 'A' <= c <= 'Z' || Digit(c)
  }

  predicate PackageChar(c: char) {
    Alnum(c) || c == '_' || c == '-'
  }

  predicate VersionChar(c: char) {
    Alnum(c) || c == '.' || c == '+' || c == '-'
  }

  predicate FeatureNameChar(c: char) {
    Alnum(c) || c in "_:+.-"
  }

  predicate Spelled(s: string, first: char -> bool, later: char -> bool) {
    s != "" && first(s[0]) && forall i | 1 <= i < |s| :: later(s[i])
  }

  predicate ProfileId(s: string) {
    Spelled(s, Lower, c => Lower(c) || Digit(c) || c == '-')
  }

  predicate PackageName(s: string) {
    Spelled(s, Alnum, PackageChar)
  }

  predicate Version(s: string) {
    Spelled(s, Alnum, VersionChar)
  }

  predicate FeatureName(s: string) {
    Spelled(s, c => Alnum(c) || c == '_', FeatureNameChar)
  }

  /** A feature, possibly of another package. */
  predicate FeatureRef(s: string) {
    FeatureName(s) || exists i :: 0 <= i < |s| && s[i] == '/' && PackageName(s[..i]) && FeatureName(s[i+1..])
  }

  // ------------------------------------------------------------- the data

  datatype Pair = Pair(name: string, version: string)

  datatype EnabledRecord = EnabledRecord(name: string, version: string, features: seq<string>)

  datatype Counts = Counts(pairs: int, names: int, repeated: int, features: int)

  /** What one captured tree says. */
  datatype Tree = Tree(pairs: seq<Pair>, enabled: seq<EnabledRecord>, counts: Counts)

  datatype Mode = Defaults | NoDefaultFeatures | Features | Selection

  datatype Inputs = Inputs(mode: Mode, noDefault: bool, features: seq<string>, selection: Option<string>)

  datatype Record = Record(id: string, package: string, inputs: Inputs, tree: Tree)

  datatype Passed = Passed(id: string, profile: string)

  datatype Profile = Profile(id: string, package: string, mode: Mode, features: seq<string>, selection: Option<string>)

  /** A contract on a package, or on a feature of it. */
  datatype Contract = Contract(id: string, profile: string, package: string, feature: Option<string>, expected: bool)

  datatype Policy = Policy(profiles: seq<Profile>, contracts: seq<Contract>)

  /** What is recorded of the machine and the worktree. */
  datatype Facts = Facts(revision: string, dirty: bool, worktree: string, lock: string, cargo: string, rustc: string, host: string, target: string)

  type Selections = map<string, seq<string>>

  datatype Context = Context(facts: Facts, selections: Selections)

  datatype Report = Report(schema: int, context: Context, units: map<string, string>, digest: string, edgeKinds: seq<string>,
    profiles: seq<Record>, contracts: seq<Passed>)

  const SCHEMA_VERSION := 1

  const EDGE_KINDS := ["normal", "build"]

  const UNITS := map["cargo_package_name_version_pairs" := "measured", "binary_bytes" := "not measured", "runtime_memory" := "not measured"]

  function SetOf<T>(s: seq<T>): set<T> {
    set x | x in s
  }

  /** `s == sorted(set(s))`. */
  predicate SortedUnique(s: seq<string>) {
    s == SortedNames(SetOf(s))
  }

  predicate PairBefore(a: Pair, b: Pair) {
    if a.name != b.name then Before(a.name, b.name) else Before(a.version, b.version)
  }

  lemma PairBeforeIsTotal()
    ensures TotalOrder(PairBefore)
  {
    BeforeIsTotal();
    assert forall a, b :: PairBefore(a, b) || PairBefore(b, a);
    assert forall a, b :: PairBefore(a, b) && PairBefore(b, a) ==> a == b;
    assert forall a, b, c :: PairBefore(a, b) && PairBefore(b, c) ==> PairBefore(a, c);
  }

  function SortedPairs(s: set<Pair>): (r: seq<Pair>)
    ensures |r| == |s| && forall x :: x in r <==> x in s
    ensures Increasing(r, PairBefore)
  {
    PairBeforeIsTotal();
    Sorted(s, PairBefore)
  }

  // ------------------------------------------------------------- the tree

  datatype Line = Skipped | Malformed | Package(key: Pair, features: set<string>)

  /** `PACKAGE_FIELD_RE`: a name, a version, and perhaps a source in parentheses. */
  function PackageField(f: string): Option<Pair> {
    var i := Run(f, 0, PackageChar);
    var j := i + Run(f, i, Space);
    if i == 0 || !Alnum(f[0]) || j == i || j == |f| || f[j] != 'v' then None else
      var l := j + 1 + Run(f, j + 1, VersionChar);
      var m := l + Run(f, l, Space);
      if l == j + 1 || !Alnum(f[j+1]) then None
      else if l == |f| || (l < m < |f| && f[m] == '(' && InParentheses(f, m)) then Some(Pair(f[..i], f[j+1..l]))
      else None
  }

  predicate InParentheses(f: string, m: nat) {
    m + 2 < |f| && f[|f|-1] == ')' && forall k | m < k < |f| - 1 :: f[k] !in "\t\r\n"
  }

  predicate Repeats(s: seq<string>) {
    exists i, j :: 0 <= i < j < |s| && s[i] == s[j]
  }

  /** `parse_feature_field`. */
  function FeatureField(v: string): Option<set<string>> {
    if v == "" then Some({}) else
      var parts := Split(v, ',');
      if (exists p <- parts :: !FeatureName(p)) || Repeats(parts) then None else Some(SetOf(parts))
  }

  const PREFIX := "features:"

  const AGAIN := " (*)"

  function RemoveSuffix(s: string, suffix: string): string {
    if |suffix| <= |s| && s[|s|-|suffix|..] == suffix then s[..|s|-|suffix|] else s
  }

  function RemovePrefix(s: string, prefix: string): string {
    if prefix <= s then s[|prefix|..] else s
  }

  function ParseLine(line: string): Line {
    if line == "" then Skipped else
      var fields := Split(line, '\t');
      if |fields| != 2 || !(PREFIX <= fields[1]) then Malformed
      else
        var package := PackageField(fields[0]);
        var features := FeatureField(RemovePrefix(RemoveSuffix(fields[1], AGAIN), PREFIX));
        if package.None? || features.None? then Malformed else Package(package.value, features.value)
  }

  function KeysOf(lines: seq<string>): set<Pair> {
    set l | l in lines && ParseLine(l).Package? :: ParseLine(l).key
  }

  function FeaturesOf(lines: seq<string>, k: Pair): set<string> {
    set l, f | l in lines && ParseLine(l).Package? && ParseLine(l).key == k && f in ParseLine(l).features :: f
  }

  type Packages = map<Pair, set<string>>

  /** Every package the lines name, with every feature a line gives it. */
  function PackagesOf(lines: seq<string>): Packages {
    map k | k in KeysOf(lines) :: FeaturesOf(lines, k)
  }

  function NamesOf(ps: set<Pair>): set<string> {
    set p | p in ps :: p.name
  }

  function VersionsOf(ps: set<Pair>, n: string): set<string> {
    set p | p in ps && p.name == n :: p.version
  }

  function RepeatedNames(ps: set<Pair>): set<string> {
    set n | n in NamesOf(ps) && |VersionsOf(ps, n)| > 1
  }

  function EnabledOf(pairs: seq<Pair>, packages: Packages): seq<EnabledRecord>
    requires forall p <- pairs :: p in packages
  {
    if pairs == [] then [] else
      var p := pairs[|pairs|-1];
      EnabledOf(pairs[..|pairs|-1], packages) +
        (if packages[p] == {} then [] else [EnabledRecord(p.name, p.version, SortedNames(packages[p]))])
  }

  function Total(enabled: seq<EnabledRecord>): nat {
    if enabled == [] then 0 else Total(enabled[..|enabled|-1]) + |enabled[|enabled|-1].features|
  }

  function CountsOf(ps: set<Pair>, enabled: seq<EnabledRecord>): Counts {
    Counts(|ps|, |NamesOf(ps)|, |RepeatedNames(ps)|, Total(enabled))
  }

  /** How packages are recorded. */
  function Rendered(packages: Packages): Tree {
    var pairs := SortedPairs(packages.Keys);
    var enabled := EnabledOf(pairs, packages);
    Tree(pairs, enabled, CountsOf(packages.Keys, enabled))
  }

  /** What `parse_tree` returns for the lines of a tree. */
  function TreeOf(lines: seq<string>, root: string): Option<Tree> {
    if (forall l <- lines :: Empty(l)) || (exists l <- lines :: ParseLine(l).Malformed?) then None
    else if root !in NamesOf(KeysOf(lines)) then None
    else Some(Rendered(PackagesOf(lines)))
  }

  // ------------------------------------------------------------- the report

  predicate RefList(fs: seq<string>) {
    !Repeats(fs) && forall f <- fs :: FeatureRef(f)
  }

  /** `normalize_resolved_selections`. */
  function Normalized(selections: Selections): Option<Selections> {
    if exists s <- selections :: !ProfileId(s) || !RefList(selections[s]) then None
    else Some(map s | s in selections :: SortedNames(SetOf(selections[s])))
  }

  /** The selections the policy names. */
  function PolicySelections(policy: Policy): set<string> {
    set p | p in policy.profiles && p.selection.Some? :: p.selection.value
  }

  /** `profile_inputs`. */
  function ProfileInputs(p: Profile, resolved: Selections): Option<Inputs> {
    if p.mode == Selection && (p.selection.None? || p.selection.value !in resolved) then None
    else
      var features := if p.mode == Selection then resolved[p.selection.value] else p.features;
      Some(Inputs(p.mode, p.mode != Defaults, SortedNames(SetOf(features)), p.selection))
  }

  type Captures = map<string, seq<string>>

  function RecordOf(p: Profile, resolved: Selections, captures: Captures): Option<Record>
    requires p.id in captures
  {
    match (ProfileInputs(p, resolved), TreeOf(captures[p.id], p.package))
    case (Some(inputs), Some(tree)) => Some(Record(p.id, p.package, inputs, tree))
    case _ => None
  }

  predicate Captured(ps: seq<Profile>, captures: Captures) {
    forall i | 0 <= i < |ps| :: ps[i].id in captures
  }

  function Records(ps: seq<Profile>, resolved: Selections, captures: Captures): Option<map<string, Record>>
    requires Captured(ps, captures)
  {
    if ps == [] then Some(map[]) else
      var p := ps[|ps|-1];
      match (Records(ps[..|ps|-1], resolved, captures), RecordOf(p, resolved, captures))
      case (Some(before), Some(record)) => Some(before[p.id := record])
      case _ => None
  }

  /** Whether a contract's package or feature is there. */
  predicate Found(c: Contract, tree: Tree) {
    match c.feature
    case None => exists p <- tree.pairs :: p.name == c.package
    case Some(f) => exists e <- tree.enabled :: e.name == c.package && f in e.features
  }

  /** `validate_contracts`, before sorting: nothing when a contract fails. */
  function PassedContracts(cs: seq<Contract>, records: map<string, Record>): Option<map<string, Passed>> {
    if cs == [] then Some(map[]) else
      var c := cs[|cs|-1];
      match PassedContracts(cs[..|cs|-1], records)
      case None => None
      case Some(before) =>
        if c.profile !in records || Found(c, records[c.profile].tree) != c.expected then None
        else Some(before[c.id := Passed(c.id, c.profile)])
  }

  /** The values in the order of their keys. */
  function InOrder<T>(m: map<string, T>): (r: seq<T>)
    ensures |r| == |m.Keys|
  {
    var keys := SortedNames(m.Keys);
    SortedIsAsLong(m.Keys);
    seq(|keys|, i requires 0 <= i < |keys| => assert keys[i] in keys; m[keys[i]])
  }

  lemma SortedIsAsLong(s: set<string>)
    ensures |SortedNames(s)| == |s| && Increasing(SortedNames(s), Before) && TotalOrder(Before)
  {
    BeforeIsTotal();
  }

  /** What `build_report` returns. */
  function BuiltReport(policy: Policy, digest: string, context: Context, captures: Captures): Option<Report>
    requires Captured(policy.profiles, captures)
  {
    match Normalized(context.selections)
    case None => None
    case Some(resolved) =>
      if resolved.Keys != PolicySelections(policy) then None else
        match Records(policy.profiles, resolved, captures)
        case None => None
        case Some(records) =>
          match PassedContracts(policy.contracts, records)
          case None => None
          case Some(passed) =>
            Some(Report(SCHEMA_VERSION, Context(context.facts, resolved), UNITS, digest, EDGE_KINDS, InOrder(records), InOrder(passed)))
  }

  // ------------------------------------------------------------- what is accepted

  predicate Hex(s: string, digit: char -> bool) {
    forall c <- s :: digit(c)
  }

  predicate LowerHex(c: char) {
    Digit(c) || 'a' <= c <= 'f'
  }

  /** `require_stable_context_string`. */
  predicate Stable(s: string) {
    && s != "" && s[0] !in "/\\"
    && !(|s| >= 3 && (Lower(s[0]) || 'A' <= s[0] <= 'Z') && s[1] == ':' && s[2] in "\\/")
    && forall marker <- ["/tmp/", "/private/tmp/", "/var/folders/", "CARGO_HOME", "RUSTUP_HOME"] :: !Contains(s, marker)
  }

  predicate Contains(s: string, part: string) {
    exists i :: 0 <= i <= |s| && part <= s[i..]
  }

  predicate ValidFacts(f: Facts) {
    && Stable(f.revision) && Stable(f.cargo) && Stable(f.rustc) && Stable(f.host) && Stable(f.target)
    && 7 <= |f.revision| <= 64 && Hex(f.revision, c => LowerHex(c) || 'A' <= c <= 'F')
    && |f.worktree| == 64 && Hex(f.worktree, LowerHex) && |f.lock| == 64 && Hex(f.lock, LowerHex)
  }

  /** `validate_resolved_inputs`. */
  predicate ValidInputs(i: Inputs) {
    && i.noDefault == (i.mode != Defaults)
    && RefList(i.features) && SortedUnique(i.features)
    && (i.mode == Features ==> i.features != [])
    && (i.mode != Features && i.mode != Selection ==> i.features == [])
    && if i.mode == Selection then i.selection.Some? && ProfileId(i.selection.value) else i.selection.None?
  }

  function KeyOf(e: EnabledRecord): Pair {
    Pair(e.name, e.version)
  }

  function KeysOfAll(enabled: seq<EnabledRecord>): seq<Pair> {
    seq(|enabled|, i requires 0 <= i < |enabled| => KeyOf(enabled[i]))
  }

  predicate ValidEnabled(e: EnabledRecord, pairs: seq<Pair>) {
    && e.features != [] && (forall f <- e.features :: FeatureName(f)) && SortedUnique(e.features)
    && KeyOf(e) in pairs
  }

  /** `validate_profile`. */
  predicate ValidRecord(r: Record) {
    && ProfileId(r.id) && PackageName(r.package) && ValidInputs(r.inputs)
    && (forall p <- r.tree.pairs :: PackageName(p.name) && Version(p.version))
    && r.tree.pairs == SortedPairs(SetOf(r.tree.pairs))
    && r.package in NamesOf(SetOf(r.tree.pairs))
    && (forall e <- r.tree.enabled :: ValidEnabled(e, r.tree.pairs))
    && KeysOfAll(r.tree.enabled) == SortedPairs(SetOf(KeysOfAll(r.tree.enabled)))
    && r.tree.counts == CountsOf(SetOf(r.tree.pairs), r.tree.enabled)
  }

  function ById(ps: seq<Profile>): map<string, Profile> {
    if ps == [] then map[] else ById(ps[..|ps|-1])[ps[|ps|-1].id := ps[|ps|-1]]
  }

  function RecordsById(rs: seq<Record>): map<string, Record> {
    if rs == [] then map[] else RecordsById(rs[..|rs|-1])[rs[|rs|-1].id := rs[|rs|-1]]
  }

  function Ids(rs: seq<Record>): seq<string> {
    seq(|rs|, i requires 0 <= i < |rs| => rs[i].id)
  }

  /** A record says what the policy asks of its profile. */
  predicate Matches(r: Record, p: Profile, resolved: Selections) {
    && r.package == p.package && r.inputs.mode == p.mode && r.inputs.selection == p.selection
    && if p.mode == Selection then
         p.selection.Some? && p.selection.value in resolved && r.inputs.features == resolved[p.selection.value]
       else r.inputs.features == SortedNames(SetOf(p.features))
  }

  /** `validate_report`. */
  predicate Accepted(report: Report, policy: Policy, digest: string) {
    && report.schema == SCHEMA_VERSION && ValidFacts(report.context.facts)
    && Normalized(report.context.selections) == Some(report.context.selections)
    && report.context.selections.Keys == PolicySelections(policy)
    && report.units == UNITS && report.edgeKinds == EDGE_KINDS && report.digest == digest
    && report.profiles != [] && (forall r <- report.profiles :: ValidRecord(r))
    && Ids(report.profiles) == SortedNames(ById(policy.profiles).Keys)
    && (forall r <- report.profiles :: r.id in ById(policy.profiles) && Matches(r, ById(policy.profiles)[r.id], report.context.selections))
    && var passed := PassedContracts(policy.contracts, RecordsById(report.profiles));
       passed.Some? && report.contracts == InOrder(passed.value)
  }

  /** What `load_policy` lets through. */
  predicate ValidProfile(p: Profile) {
    && ProfileId(p.id) && PackageName(p.package)
    && (if p.mode == Features then p.features != [] && RefList(p.features) else p.features == [])
    && if p.mode == Selection then p.selection.Some? && ProfileId(p.selection.value) else p.selection.None?
  }

  predicate ValidPolicy(policy: Policy) {
    && policy.profiles != [] && (forall p <- policy.profiles :: ValidProfile(p))
    && (forall i, j | 0 <= i < j < |policy.profiles| :: policy.profiles[i].id != policy.profiles[j].id)
    && (forall i, j | 0 <= i < j < |policy.contracts| :: policy.contracts[i].id != policy.contracts[j].id)
    && forall c <- policy.contracts :: exists p <- policy.profiles :: p.id == c.profile
  }
}
