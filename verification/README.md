# Proofs about the exporter and the repository's scripts

A Dafny 4.11 model of the algorithms in this repository that are easy to get
wrong, and proofs of what they promise. `dafny verify dfyconfig.toml` checks
everything. There is one group of modules per part of the program.

**Exporting an agent** (`src/alias_cli/export.rs`).
`Filesystem` has the directory that holds the destination, the staged and the
retired bundle, and the system calls made on it; `Publish` is the protocol as a
state machine, one state per system call, with failing calls, calls of others
in between, and a crash as a run that stops. `PublishSafety` proves what holds
under interference, `PublishUndo` what becomes of an object that was set aside,
`PublishCrash` what holds after a crash or an error, and `PublishOutcome` how an
export ends that nobody disturbs, for each start and each set of failing calls.
`PublishSession` is the program itself, whose every execution is a run of the
machine. `LiveTree` is a tree that may be another one at each system call;
`SourceRoot`, `CopyTree` and `SkillBundles` are the walks and copies over it, as
functions of everything the system answers and as the methods that compute
them; `CopySafety`, `CopyCounts`, `CopyFates`, `SkillSafety` and `SkillFates` prove
where the carried files come from and what is counted, `QuietExport` that
everything admitted is carried when nobody changes the install, `ExportSafety`
that publication leaves their roots alone. `--force`, the plan's filter, the
sources and the names of the staging directory are parameters.

**Reading text** (`scripts/`).
`RustText` and `RustComments` are two scanners for Rust, one over a whole file
and one line by line, over common `RustLexemes`; `RustReading` is a third reading,
without any scanner, that the first one is proved against, and `LexerAgreement`
proves that the second one follows it too. `MarkdownLines` and `CodeSpans` are the
scanner for Markdown links with its lookahead and its includes; `CodeVisible` says
what it shows by the code spans of a document, `IncludesRead` which files it reads.
`UnifiedDiff` parses patches, and `PatchReading` says which are accepted. `TestOnly`
judges whether a pull request touches nothing but tests, `ConfinedScript` says
exactly when, and `HiddenBraces` is a change that passes. `GlobPatterns` compiles
path patterns, `LinePatterns` says which lines the scripts' patterns match.
`TextLines`, `SkillMigration`, `MigrationConserves` and `MigrationOrder` are the
migration of `SKILL.toml` files.

**Graphs and inventories** (`scripts/`).
`ReleaseOrder` is the order of publication, `WindowsScope` the choice of tests,
`ReleaseArchive` the check and the extraction of a release archive, with
`ArchivePlan` for its names and its manifest, `Footprint`, `FootprintProgram`,
`FootprintAgreement` and `FootprintContracts` the report of dependency footprints.
`Ordering` and `Splitting` are Python's `sorted`, `split` and `join`; `Options` and
`Characters` are shared by all.

A function says what a loop of the program computes, the method beside it is the
loop, and the theorems are about the function. An error is a value. Where the
text of an error plays no part, errors with the same effect are one.

Four places where the code does not do what its own comments say:

- `src/alias_cli/export.rs:17-18` says that a returned error leaves the
  destination as it was. A failing probe at line 695 returns without undoing the
  rename at line 689 (`PublishCrash.OneFailedProbeStrands`); the exact condition
  is in `PublishCrash.RolledBackUnlessStranded`.
- Line 674 puts back an empty directory, but a new one
  (`PublishCrash.BareRolledBack`).
- Lines 1305-1307 leave out an entry that was replaced by something that is not
  a file, and count it nowhere (`CopySafety.NoTraceMeans`,
  `CopySafety.SkippedWithoutCount`).
- `scripts/migrate-skill-toml.py` moves whole lines, but in one family of inputs
  two lines become one (`MigrationOrder.MigrationIsFaithful`,
  `MigrationConserves.ALineMayBeLost`).

And one property that one would expect of the judgement on tests does not hold:
`scripts/github/pr_risk_label.py:750-756` lets no changed line carry a structural
brace, but a change can open and close a comment around lines it leaves alone, and
their braces go with them (`HiddenBraces.ConfinedYetBracesGo`).
`ConfinedScript.BracesAreKept` says exactly when the braces stay.

## Model

| member | source | states |
|---|---|---|
| PublishSafety.RunKeepsInvariant | src/alias_cli/export.rs:607-730 | what each stage of publication knows (the staging directory is where it was made, the admitted identity is bound, the proven object is under the retired name, no staged tree is a source) holds in every state of every run, with others changing the destination between any two calls |
| PublishSafety.ForcedWasGiven | src/alias_cli/export.rs:450-511 | an admission `Forced(id)` was made with `--force`, to the non-empty directory `id` that stood at the destination when it was opened |
| PublishSafety.OnlyTheseAreTouched | src/alias_cli/export.rs:607-730 | in any run under interference, every object a call removes, empties, changes or overwrites is the directory admitted as `Forced` at the final delete, the export's own stage while it is filled or dropped, or what stands at the name something is moved to: an empty directory, or a non-directory when what is set aside or put back is none either |
| PublishSafety.OnlyTheForcedIsDeleted | src/alias_cli/export.rs:607-708 | so a non-empty directory the export removes, empties or changes, even by a recursive delete that fails midway, is its own stage or the one admitted as `Forced`, and never the root of a tree that was read |
| PublishSafety.NoSourceIsDeleted | src/alias_cli/export.rs:561-655 | the roots the copy reports, wherever others move them after the copy, are never deleted, emptied or changed; only an empty one can be replaced |
| PublishSafety.NeverPartlyWritten | src/alias_cli/export.rs:15-21 | each call leaves the destination name free, unchanged, a new empty directory, the retired object or the whole bundle; a move that succeeds leaves the whole bundle |
| PublishCrash.CrashSafe | src/alias_cli/export.rs:233-262 | after any prefix of a forced export without interference the old bundle is whole at the destination, or whole under the retired name with the destination free, or the whole new bundle is at the destination |
| PublishCrash.RolledBackUnlessStranded | src/alias_cli/export.rs:635-730 | a forced export that returns an error leaves the same object with the same contents at the destination exactly when no probe of the retired name and no compensating rename failed; otherwise the old bundle is whole under the retired name |
| PublishCrash.OneFailedProbeStrands | src/alias_cli/export.rs:689-698 | from every forced start one failing probe is enough to return an error with the destination gone and the old bundle aside |
| PublishCrash.BareRolledBack | src/alias_cli/export.rs:655-680 | over nothing an error leaves nothing; over an empty directory it leaves an empty one exactly when putting one back did not fail, and the same one exactly when the move did not fail |
| PublishUndo.SetAsideIsAccountedFor | src/alias_cli/export.rs:682-730 | in any run under interference an object that was set aside, whosever it is, is moved back before a changed destination or a failed move is reported, and the new bundle is moved in and the old one deleted only if it is the one admitted; only an error while looking at it leaves it aside |
| PublishOutcome.StepGoesOn | src/alias_cli/export.rs:163-262 | every call, however it goes and whatever others do, brings the export nearer to its end |
| PublishOutcome.CalmOutcome | src/alias_cli/export.rs:450-730 | an export that nobody disturbs ends as a decision table tells from the start state, the trees that were read and the calls that failed; published, the whole new bundle is at the destination |
| PublishOutcome.FaultFreeOutcome | src/alias_cli/export.rs:450-730 | without failing calls it is published exactly when the name is free, or holds an empty directory, or under `--force` any directory with the retired name free, in each case none that was read; otherwise it is refused for the first reason that applies, and what stood there is untouched |
| PublishOutcome.QuietOutcome | src/alias_cli/export.rs:450-730 | every run in which only the export moves is over after thirteen calls, as that table tells |
| PublishSession.Session.CheckDestination | src/alias_cli/export.rs:450-511 | the admission it returns is the one the machine records, its errors are the machine's refusals |
| PublishSession.Session.DestinationIdentity | src/alias_cli/export.rs:532-558 | its answer leads the machine where the comparison with the admitted object leads, for the destination and for the retired name |
| PublishSession.Session.SwapIntoPlace | src/alias_cli/export.rs:607-730 | every execution extends the run, and ends published or with the error it returns |
| PublishSession.Session.ReplaceBundle | src/alias_cli/export.rs:682-730 | the branch for an admitted bundle, as calls of the run |
| PublishSession.Session.WriteBundle | src/alias_cli/export.rs:163-262 | an export is a run from the initial state that is over, so all that is proved of runs holds of it; undisturbed it ends as the decision table tells, and without failing calls it succeeds exactly when the destination may be replaced |
| SourceRoot.WalkDown | src/alias_cli/export.rs:796-861 | the loop over the components computes the walk |
| SourceRoot.OpenAnchoredRoot | src/alias_cli/export.rs:780-864 | the function computes the anchored walk, with the time it ends |
| SourceRoot.OpenConfiguredRoot | src/alias_cli/export.rs:877-970 | the same for a configured workspace, from the directory that holds its last component |
| SourceRoot.AnchoredIsTraced | src/alias_cli/export.rs:750-779 | a source root that is opened lies in its family, and this walk itself classified each component as a directory and opened it as that same object by its next call, three calls a component |
| SourceRoot.AnchoredUndisturbed | src/alias_cli/export.rs:780-864 | on an unchanging tree a root is opened exactly when its path starts in the family and every component is a real directory, and absent exactly when one is missing below real directories |
| SourceRoot.ConfiguredUndisturbed | src/alias_cli/export.rs:877-970 | the same for a configured workspace |
| SourceRoot.AnchoredRefused | src/alias_cli/export.rs:780-864 | on an unchanging tree the first component that is no directory decides: a path outside its family, a jump, or a link on the way is an escape, a link at the end is a link, a missing one absent, anything else an error |
| CopyTree.Copier.CarryTree | src/alias_cli/export.rs:1240-1343 | the recursive loop computes the copy, its tally and its clock from everything the system answers |
| CopyTree.Copier.CarryFile | src/alias_cli/export.rs:1296-1340 | the branch for files: checks on the handle in the order of the code, then the bytes and the mode |
| CopyTree.Copier.CarryFolder | src/alias_cli/export.rs:1278-1295 | the branch for directories: the bundle's directory is made before identities are compared |
| CopySafety.CopyIsGenuine | src/alias_cli/export.rs:1190-1343 | whoever changes the tree meanwhile, each file in the bundle is the object that this copy itself classified at its path when it turned to that entry, the same object under that name at its next call, a regular file of one name when its handle was looked at, with the bytes read through the handle and its mode, below directories that this copy classified and opened one inside the other, parents first; a directory is genuine too unless it is empty |
| CopySafety.TurnsWithin | src/alias_cli/export.rs:1240-1343 | all these calls lie between the start of the copy and its end, those for a directory before those below it |
| CopySafety.SwappedIsNotGenuine | src/alias_cli/export.rs:1314-1325 | for a file that is replaced by anything just after it was classified, no bundle that holds bytes under its name is genuine |
| CopySafety.AdmittedAtEveryPrefix | src/alias_cli/export.rs:1256-1260 | what is in the bundle passes the filter at every prefix of its path |
| CopySafety.NoTraceMeans | src/alias_cli/export.rs:1297-1307 | an admitted entry leaves no trace in bundle or counts exactly when it was classified as a file and what was opened is none |
| CopyFates.CopyAccounts | src/alias_cli/export.rs:1240-1343 | under any interference, over a whole copy: each count is the number of entries that met its fate, the bundle has one file for each that was carried, and the admitted entries are those carried, counted, entered, and left unmentioned |
| CopyFates.UnmentionedMeans | src/alias_cli/export.rs:1297-1307 | an entry is left unmentioned exactly when it is admitted, was classified as a file and what was opened is none |
| CopySafety.SkippedWithoutCount | src/alias_cli/export.rs:1305-1307 | an input where a file is left out and nothing says so |
| CopyCounts.CopyIsCounted | src/alias_cli/export.rs:98-116 | the file and byte counts grow by exactly the files and bytes in the bundle, under any interference |
| CopyCounts.CopyIsPruned | src/alias_cli/export.rs:1240-1343 | on an unchanging tree the copy is the tree recursively pruned, and the tally is the census of the admitted entries |
| CopyCounts.EveryEntryIsOneThing | src/alias_cli/export.rs:98-116 | each admitted entry is exactly one of file, directory, symlink, special entry, hard link |
| SkillBundles.Exporter.CopyAdmitted | src/alias_cli/export.rs:1137-1209 | the loop over skills computes the copy of the admitted ones |
| SkillBundles.Exporter.CopySkillBundles | src/alias_cli/export.rs:1048-1131 | the loop over bundles computes what is carried, counted, and listed as without content; no `skills` directory stays when nothing was carried, unless removing it fails |
| SkillBundles.Exporter.CopyWorkspace | src/alias_cli/export.rs:989-1037 | the method opens the workspace where it lies, anchored or configured; an absent one is no error, otherwise it computes the copy, and the identity of the opened root joins the sources |
| SkillSafety.SkillsAreCounted | src/alias_cli/export.rs:1193-1206 | the number of skills is the number of directories that stay, each with at least one file; files and bytes are counted once |
| SkillSafety.SkillsAreGenuine | src/alias_cli/export.rs:1132-1209 | under interference every skill carried is one the bundle admits, whose directory this loop classified and opened as the same object, and every file below it is a genuine one of the copy of that directory |
| SkillSafety.BundlesAddUp | src/alias_cli/export.rs:1109-1131 | bundles counted plus bundles without content are the sources, and a bundle is counted exactly when it carries a file |
| SkillSafety.BundlesAreSourced | src/alias_cli/export.rs:1048-1131 | under interference each carried bundle comes from a source of its name, by this export's own walk from the install root in its family, its files are genuine, and its root is among the sources the export reports |
| SkillSafety.WorkspaceIsSourced | src/alias_cli/export.rs:989-1037 | the same for the workspace, anchored in its own family or configured |
| SkillFates.SkillsAccount | src/alias_cli/export.rs:1132-1209 | under any interference each count of a skill bundle is the number of entries, of the bundle and of its skills, that met its fate |
| QuietExport.SkillsAreComplete | src/alias_cli/export.rs:1132-1209 | from a bundle that nobody changes exactly the admitted directories with a file to carry are carried, each as its pruned tree, their number is the count, and the tally is the census of all that is admitted |
| QuietExport.BundlesAreComplete | src/alias_cli/export.rs:1048-1131 | from an unchanging install the loop succeeds exactly when each source is absent or opens; then it carries exactly the bundles with a skill to carry, each with all its skills, lists the others as without content in order, reports every root opened, and counts everything |
| QuietExport.WorkspaceIsComplete | src/alias_cli/export.rs:989-1037 | from an unchanging install a workspace that is there is taken, as its pruned tree with its census, an absent one is no error, and anything else fails |
| ExportSafety.SkillRootsSurvive | src/alias_cli/export.rs:163-262 | when publication is given these sources, the root each carried bundle was read from is not deleted, emptied or changed by any later call of the export |
| RustText.RustStructuralText | scripts/github/pr_risk_label.py:543-615 | the in-place scanner computes the structural text, or the error |
| RustText.BlankOut | scripts/github/pr_risk_label.py:548-551 | spaces over a stretch of the buffer, line breaks and the rest kept |
| RustText.StructuralKeepsPositions | scripts/github/pr_risk_label.py:543-615 | length and the positions of newlines and carriage returns stay, other characters stay or become spaces |
| RustText.VisibleIsStructure | scripts/github/pr_risk_label.py:543-615 | what stays visible stood where the scanner found no literal and no comment |
| RustText.NothingOpens | scripts/github/pr_risk_label.py:543-615 | no double quote, `//` or `/*` is left |
| RustText.StructuralIsIdempotent | scripts/github/pr_risk_label.py:543-615 | structural text is its own structural text, for every accepted source |
| RustComments.RustComments | scripts/ci/comment_hygiene_gate.py:43-145 | the nested loops with carried state compute the scan over lines |
| RustReading.WholeFileRead | scripts/github/pr_risk_label.py:553-615 | on every accepted source the whole-file scanner marks each character as what an independent reading says it is: code, comment or literal, with nested comments, strings, raw strings that end behind a quote with as many hashes as opened them, and character literals |
| RustReading.AcceptedMeans | scripts/github/pr_risk_label.py:553-615 | it accepts exactly the sources at whose end that reading leaves nothing open |
| RustReading.RawStringEnds | scripts/github/pr_risk_label.py:579-588 | a raw string ends behind the first quote that as many hashes follow as opened it, and is unterminated when there is none |
| RustReading.RawOpenerMeans | scripts/github/pr_risk_label.py:48 | which texts open a raw string |
| RustReading.CharLiteralMeans | scripts/github/pr_risk_label.py:49-51 | which texts are character literals |
| LexerAgreement.LinesRead | scripts/ci/comment_hygiene_gate.py:43-145 | the comments the line scanner reports are those of the same reading, across any number of lines, in every mode it can be in |
| LexerAgreement.ScannersAgree | scripts/ci/comment_hygiene_gate.py:43-145 | on every source with newlines only that the whole-file scanner accepts, where in code no raw string is opened that one scanner alone knows, and each `'` opens a character literal or has no other one near, both report exactly the same comment characters |
| LexerAgreement.StringsAreFree | scripts/ci/comment_hygiene_gate.py:43-145 | that condition does not restrict what stands in a string: any text without quotes and backslashes may, also one that ends in `r` |
| LexerAgreement.RawStringsAreFree | scripts/ci/comment_hygiene_gate.py:43-145 | nor does it restrict raw strings, with any number of hashes and with quotes in them |
| CodeSpans.HasMatchingBacktick | scripts/ci/check_internal_docs_links.py:97-120 | the lookahead over later lines, as a loop |
| CodeSpans.StripInlineCode | scripts/ci/check_internal_docs_links.py:123-160 | the loop over a line: visible text and the span left open |
| CodeSpans.Scan | scripts/ci/check_internal_docs_links.py:227-279 | the scanner with its fence and span state, recursing into includes |
| CodeVisible.StripMeans | scripts/ci/check_internal_docs_links.py:123-160 | the visible text of a line is its characters in order without those that lie in a code span, where a span goes from a run of backticks that is not escaped and has a match to the next run of its length, or past the end of the line; and there is exactly one such text |
| CodeVisible.HasMatchMeans | scripts/ci/check_internal_docs_links.py:97-120 | a run has a match exactly when a run of its length follows on its line, or on a later line of its paragraph |
| CodeVisible.EscapedMeans | scripts/ci/check_internal_docs_links.py:80-86 | an odd number of backslashes escapes a backtick |
| CodeVisible.DocumentIsVisible | scripts/ci/check_internal_docs_links.py:227-279 | of a document without includes exactly the lines that are no fence, stand in none and are not blank are shown, each without its code spans |
| IncludesRead.ShownIsAsked | scripts/ci/check_internal_docs_links.py:262-278 | a line of another file is shown only if a visible line of the file above asks to include it |
| IncludesRead.AskedIsRead | scripts/ci/check_internal_docs_links.py:262-278 | every include that a visible line asks for is read, at any depth, if its file is there and is not being read already |
| IncludesRead.FirstLineIsShown | scripts/ci/check_internal_docs_links.py:262-278 | so the first line of the first file included is shown, unless it is blank or a fence |
| CodeSpans.OpenSpanCloses | scripts/ci/check_internal_docs_links.py:97-160 | a span left open at a line's end is closed by a later line with no blank line, fence, heading, rule or block start before it |
| CodeSpans.NothingLeftOpen | scripts/ci/check_internal_docs_links.py:227-279 | a document without includes never ends inside a span |
| CodeSpans.ChainsAreSimple | scripts/ci/check_internal_docs_links.py:227-279 | with any include cycle, the files through which a line is reached are all different |
| CodeSpans.DepthIsBounded | scripts/ci/check_internal_docs_links.py:227-279 | a scan terminates, no deeper than there are files |
| UnifiedDiff.ChangedLineContent | scripts/github/pr_risk_label.py:477-518 | the loop computes the changes, or the error |
| UnifiedDiff.CountsAreExact | scripts/github/pr_risk_label.py:477-518 | in an accepted patch each hunk shows exactly the old and new lines its header declares |
| UnifiedDiff.RoundTrip | scripts/github/pr_risk_label.py:477-518 | printing hunks, each with its own counts left out or not and its own text after the header, and parsing them returns the number and content of each changed line; a patch in which a line looks like a file header is rejected |
| PatchReading.AcceptedExactlyWhenRead | scripts/github/pr_risk_label.py:477-518 | a patch is accepted exactly when it is all there and reads as lines that are no header and then hunks with the line counts they declare; its changes are those of the hunks, with their numbers |
| PatchReading.HeaderMeans | scripts/github/pr_risk_label.py:47 | which lines are hunk headers, and what they declare |
| TestOnly.FindCfgTestRanges | scripts/github/pr_risk_label.py:618-656 | the loop over structural lines computes the ranges |
| TestOnly.ItemMeans | scripts/github/pr_risk_label.py:625-654 | the item of an attribute starts on the first line behind it that is not blank, and ends where the braces opened from that line's first brace on are closed for the first time at the end of a line, or, if the line opens none, on the first line with a semicolon |
| TestOnly.RangesAreItems | scripts/github/pr_risk_label.py:618-656 | each range starts at a `cfg(test)` attribute and ends with the item behind it, within the file |
| TestOnly.AttributesHaveRanges | scripts/github/pr_risk_label.py:618-656 | and each `cfg(test)` attribute has its range |
| TestOnly.RangesFoundExactlyWhen | scripts/github/pr_risk_label.py:618-656 | the ranges are found exactly when every `cfg(test)` attribute has an item |
| TestOnly.StructureHasTheSameLines | scripts/github/pr_risk_label.py:618-622 | structural text and source have the same lines, so ranges found in one are line numbers of the other |
| TestOnly.HunksTellAll | scripts/github/pr_risk_label.py:477-518 | the changes of well-placed hunks are those of the whole edit script |
| TestOnly.ConfinedLeavesTheRest | scripts/github/pr_risk_label.py:682-765 | if a file passes and its patch is the diff from base to head, the base lines outside the base ranges survive in head in order, and the head lines outside the head ranges come from base in order |
| ConfinedScript.ConfinedExactlyWhen | scripts/github/pr_risk_label.py:682-765 | a file whose patch is the diff from base to head is confined exactly when the patch is whole, no changed line looks like a file header, both sources can be read, no changed line is a boundary of conditional compilation or carries a structural brace, and every one lies in a range of its own side |
| ConfinedScript.BracesAreKept | scripts/github/pr_risk_label.py:750-756 | in a confined file every structural brace of base and of head stands on an unchanged line; the lines with structural braces are the same exactly when the unchanged lines keep theirs |
| HiddenBraces.ConfinedYetBracesGo | scripts/github/pr_risk_label.py:750-756 | a confined change that takes two braces away by commenting out the lines they stand on |
| TestOnly.StrictTestOnlyProof | scripts/github/pr_risk_label.py:682-765 | the exception applies exactly when there are between one and 25 high-risk Rust files, each modified and confined, and the rest is low-risk |
| GlobPatterns.GlobRegex | scripts/github/pr_risk_label.py:197-224 | the loop computes the pieces of the regular expression |
| GlobPatterns.EveryGlobMeans | scripts/github/pr_risk_label.py:197-228 | for every pattern: its pieces, as they are written, put together are the pattern, and a path matches exactly when it can be cut into as many parts, each of which its piece stands for |
| GlobPatterns.GlobMeans | scripts/github/pr_risk_label.py:197-228 | where double stars are whole components, and brackets are closed in their component and match no slash, the regular expression matches a path exactly when its components match one by one, a double star standing for any number of directories |
| LinePatterns.CfgTestMeans | scripts/github/pr_risk_label.py:45 | which lines are `cfg(test)` attributes |
| LinePatterns.FenceMeans | scripts/ci/check_internal_docs_links.py:16 | which lines are fences, with their marker and the text behind it |
| LinePatterns.HeadingMeans | scripts/ci/check_internal_docs_links.py:18 | which lines are headings |
| LinePatterns.TableNameMeans | scripts/migrate-skill-toml.py:46 | which lines are table headers, and of which table |
| LinePatterns.KeyNameMeans | scripts/migrate-skill-toml.py:51 | which lines assign a key, and which key |
| SkillMigration.PlanMigration | scripts/migrate-skill-toml.py:80-229 | the loops compute the plan |
| SkillMigration.CutSections | scripts/migrate-skill-toml.py:103-120 | the loop that buckets lines by table |
| SkillMigration.Distribute | scripts/migrate-skill-toml.py:122-170 | the loop that sorts sections into what stays and what moves |
| SkillMigration.Assemble | scripts/migrate-skill-toml.py:188-222 | the loops that put the text together |
| MigrationOrder.SectionInOrder | scripts/migrate-skill-toml.py:122-170 | what stays of a section and what moves, to `[forge]` or under its new header, are its lines in their order |
| MigrationOrder.MigrationIsFaithful | scripts/migrate-skill-toml.py:80-229 | every line stands under its own table, or under its new one if it is moved, with one header and one blank line per table added, and under each table the lines that stay and then those that arrive keep their order, if and only if the text does not end without a line break in a provenance key of a `[skill]` table after the first |
| MigrationOrder.OneSkillTable | scripts/migrate-skill-toml.py:80-229 | so with at most one `[skill]` table no line is lost, and none changes places with another of its table |
| MigrationConserves.ALineMayBeLost | scripts/migrate-skill-toml.py:190-199 | an input that loses a line |
| MigrationConserves.MigrationIsIdempotent | scripts/migrate-skill-toml.py:84-99 | a second run changes nothing, and finds a changed text migrated |
| MigrationConserves.ChangedMeansMoved | scripts/migrate-skill-toml.py:172-180 | the text changes exactly when something is moved, and then it gains lines |
| ReleaseOrder.Releaser.Visit | scripts/release/publish_order.py:55-64 | the recursive visit over the shared order and state computes the walk, or the trail it raises |
| ReleaseOrder.CollectTargets | scripts/release/publish_order.py:39-51 | the loop over dependencies |
| ReleaseOrder.PublishOrder | scripts/release/publish_order.py:30-68 | the whole function |
| ReleaseOrder.ReleaseOrderCorrect | scripts/release/publish_order.py:30-68 | the answer is a repetition-free list of exactly the publishable packages with dependencies first, or the cycle error exactly when the graph has a cycle, whose trail contains one |
| ReleaseOrder.TargetsMean | scripts/release/publish_order.py:39-51 | the edges are the registry-visible dependencies that are released too; an error is that of some dependency |
| ReleaseOrder.PathGoesBack | scripts/release/publish_order.py:55-68 | along any path of dependencies the order goes strictly back, so an ordered graph has no cycle |
| ReleaseOrder.ListOrderIsIrrelevant | scripts/release/publish_order.py:30-35 | with distinct names the answer does not depend on the order of the metadata |
| WindowsScope.CloseOverReverseDependents | scripts/ci/windows_test_scope.py:305-317 | the worklist's closure is exactly what is reachable over reverse dependencies, without the desktop package |
| WindowsScope.SelectPullRequest | scripts/ci/windows_test_scope.py:320-400 | mode, packages and plugin host are told by the set of paths alone |
| WindowsScope.SelectionIsMonotone | scripts/ci/windows_test_scope.py:320-400 | adding paths never narrows the mode, nor the packages within a mode |
| WindowsScope.PackageForMeans | scripts/ci/windows_test_scope.py:240-254 | the owner of a path is the one package whose root lies deepest above it |
| WindowsScope.OrdinaryDemands | scripts/ci/windows_test_scope.py:257-277 | what a path demands that no rule on its name speaks of: everything when no package owns it, nothing for the desktop package, its owner for a source, a manifest, or below the workspace root a build script or locales, and everything otherwise |
| WindowsScope.SourcesAreTested | scripts/ci/windows_test_scope.py:320-400 | so a package is tested when a file of its source trees changes, and everything when a path without owner does, whatever else changes |
| WindowsScope.SelectRequiredJobs | scripts/ci/windows_test_scope.py:428-479 | the loops compute the jobs |
| WindowsScope.JobsAreMonotone | scripts/ci/windows_test_scope.py:428-479 | for non-empty lists, adding paths switches no job off |
| WindowsScope.FirstPathMaySwitchOff | scripts/ci/windows_test_scope.py:428-479 | for the empty list, which runs every job, it may |
| ReleaseArchive.ReadEvidence | scripts/ci/verify_release_archive.py:97-118 | the loops over the inventory compute the plan, or the error |
| ArchivePlan.MemberPathMeans | scripts/ci/verify_release_archive.py:22-30 | a name is safe exactly when it is a path of components none of which is empty, leads up or contains a forbidden character, with slashes behind it at most |
| ArchivePlan.ManifestMeans | scripts/ci/verify_release_archive.py:97-118 | a manifest is let through exactly when its names are safe, its digests well-formed, its main file is there and no file is a listed directory or one above a file; its plan has each file with its record and exactly these directories |
| ReleaseArchive.ArchiveMembers | scripts/ci/verify_release_archive.py:121-140 | the loop over the archive computes the members, or the first error |
| ReleaseArchive.MembersMean | scripts/ci/verify_release_archive.py:121-140 | it succeeds exactly when every entry is safe and regular and no path occurs twice |
| ReleaseArchive.Scratch.CopyPayload | scripts/ci/verify_release_archive.py:189-199 | the chunked copy writes the payload exactly when it is as long as recorded |
| ReleaseArchive.Scratch.Unpack | scripts/ci/verify_release_archive.py:180-201 | extraction goes through exactly when no file stands above another member and every payload is genuine; then the tree is that of the members |
| ReleaseArchive.Scratch.Verify | scripts/ci/verify_release_archive.py:143-201 | a failed inventory, or a directory that is not empty, writes nothing; PASS exactly when inventory, paths and payloads hold |
| ReleaseArchive.PassMeans | scripts/ci/verify_release_archive.py:143-201 | PASS means that each name of the manifest is a file of its recorded size and digest, there are no other files, and the directories are the allowed ones and those above them |
| ReleaseArchive.ClosedManifestNeverClashes | scripts/ci/verify_release_archive.py:112-118 | with ancestor-closed directories no file can be an ancestor of another member |
| ReleaseArchive.OrderIsIrrelevant | scripts/ci/verify_release_archive.py:143-201 | verdict and tree are the same for every order of the members |
| ReleaseArchive.UnpackedIsUnique | scripts/ci/verify_release_archive.py:180-201 | the members determine the tree |
| ReleaseArchive.SplitIsInjective | scripts/ci/verify_release_archive.py:22-30 | different member names are different paths |
| FootprintProgram.ParseTree | scripts/ci/dependency_footprint.py:302-351 | the loops over lines, packages and versions compute the record of a tree |
| FootprintProgram.BuildReport | scripts/ci/dependency_footprint.py:463-509 | the loop over profiles computes the report |
| FootprintProgram.ValidateContracts | scripts/ci/dependency_footprint.py:438-460 | the loop over contracts computes the passed ones in order, or fails |
| FootprintProgram.ValidateProfile | scripts/ci/dependency_footprint.py:806-886 | the loops decide whether a record is valid |
| FootprintProgram.ValidateReport | scripts/ci/dependency_footprint.py:889-987 | the loops decide whether a report is accepted |
| FootprintAgreement.LinesAreASet | scripts/ci/dependency_footprint.py:302-351 | reordering or repeating tree lines changes neither the result nor whether there is one |
| FootprintAgreement.PackagesRoundTrip | scripts/ci/dependency_footprint.py:306-327 | packages printed as tree lines are read as the same packages |
| FootprintAgreement.RenderedAgain | scripts/ci/dependency_footprint.py:806-886 | a valid record is the record of the packages it names: order, features and counts leave no freedom |
| FootprintAgreement.BuiltIsAccepted | scripts/ci/dependency_footprint.py:463-509 | every report built from a valid policy and context is accepted under that policy |
| FootprintAgreement.AcceptedIsBuilt | scripts/ci/dependency_footprint.py:889-987 | every accepted report is what the builder makes of its own context and some captured trees |
| FootprintAgreement.AcceptedExactlyWhenBuilt | scripts/ci/dependency_footprint.py:889-987 | the validator accepts exactly the reports the builder can make |
| FootprintContracts.BuiltExactlyWhen | scripts/ci/dependency_footprint.py:463-509 | a report can be built exactly when the selections are well-formed and those of the policy, every captured tree can be read, and each contract is told by the lines of its profile's tree: a line names the package, with the feature, exactly when it is expected |
| FootprintContracts.PassedMeans | scripts/ci/dependency_footprint.py:438-460 | the passed contracts are those of the policy, each under its own name |
| Ordering.IncreasingIsUnique | scripts/ci/dependency_footprint.py:331-335 | a sorted list without repetitions is determined by its elements |

## Left out

- The plan (`agent_bundle::plan_export`), the rendered configuration and manifest, and reporting: crates and text that play no part in the protocols; agent_bundle is not part of this model.
- `resolve_destination_path`, `reject_source_overlap` and `canonicalize`: path resolution before the first handle; the guarantee they back up, that no tree that was read is deleted, is proved from identities.
- The one open of the staging directory by path (`src/alias_cli/export.rs:188-191`): the staged and retired names are the export's own, as its comments require.
- Reuse of inode numbers within a run, mount manipulation, and name encodings other than text.
- PublishSession.Session.CopyTrees: fills the staging directory in one step; the copy itself is `CopyTree` and `SkillBundles`, whose `sources` are the identities it reports.
- CopyTree.Copier.CarryTree: on failure the half-written bundle is not described, because the staging directory is then removed; the bytes of a file are those it holds at one moment of the copy; the depth of a live tree is bounded by the descriptors the process has left.
- SourceRoot.OpenConfigured: only from the directory that holds the last component; how that directory is found is path resolution.
- Message texts, diagnostics and the reasons attached to a selection.
- Line separators other than `\n` in everything that splits lines, and digits beyond `0-9` in patterns with `\d`.
- The classes of letters beyond ASCII in Rust identifiers: which characters continue a word is a parameter of `RustText`.
- A string that ends at the end of the file after an escaped quote is accepted, as in `scripts/github/pr_risk_label.py:602`.
- LexerAgreement.ScannersAgree: not for sources where, in code, one scanner alone knows the prefix of a raw string, or a `'` that opens no character literal has another one within the next twelve characters of its line; the two scanners read these by different rules.
- TestOnly.ConfinedLeavesTheRest: the code does not compare the ranges of base with those of head, so neither does the theorem; that the patch is the diff is a premise.
- The Windows newline handling, file reading and the `_selected_lines` markers of the link scanner: which lines an include selects is a parameter; the link targets themselves are not resolved.
- GlobPatterns.GlobMeans: component by component only where that is what the pattern means; for the others `GlobPatterns.EveryGlobMeans` says what matches. What a bracket expression matches is a parameter, and a bracket text that is itself no regular expression is not modelled.
- `toml_comments`, `nix_comments`, shell and Python comments: further scanners of the same kind.
- The registry lookup behind `registry_visible` is a flag of a dependency.
- `needs_plugin_host` is not monotone in the changed paths, and `load_packages` only builds the tables that are given here.
- Format, source, target, run and attempt fields of the evidence manifest, zip and tar decoding, SHA-256 (a parameter) and disk errors while extracting.
- JSON and TOML decoding of footprint policies, contexts and reports, including the checks for unknown fields; Git and Cargo calls.
- The notes and the summary of the migration, and its file handling.
