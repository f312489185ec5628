# Air Uninstaller: inventory and cleanup model

This project models the decision logic of the three Air Uninstaller scripts.
They are `AirUninstallerForWindows.py`, `AirUninstallerForMacOS.py` and
`AirUninstallerForLinux.py`, and each removes Python and Java installations
from one operating system. For each script and each runtime, the model covers:

- which candidate paths the scans offer, and with which label;
- how a candidate becomes an inventory record: symbolic links resolved, a
  trailing `bin` stripped, an interpreter's grandparent taken as the home,
  an install type chosen by a priority-ordered keyword test;
- the duplicate check that keeps the inventory free of repeated paths;
- how the version string is read from `--version` / `-version` output;
- which records are deleted, which are skipped, and which get an official
  uninstaller;
- how PATH values and shell or environment files are cleaned;
- the verify step, which re-scans from an empty inventory and puts the old
  inventory back when something survived.

Layout:

| file | module | what it holds |
|---|---|---|
| `wrappers.dfy` | `Wrappers` | `Option` |
| `text.dfy` | `Text` | ASCII `lower`, `in` on strings, `split`/`join`, `strip`, `splitlines` |
| `lists.dfy` | `Lists` | order-preserving `Filter` and its laws |
| `paths.dfy` | `Paths` | the filesystem as a map from normalised paths to nodes (file, directory, link); `normpath`, `basename`, `dirname`, `join`, `realpath`, `exists`/`isfile`/`isdir`/`islink`, `rmtree`, `os.remove` |
| `versions.dfy` | `Versions` | subprocess results and both version readers |
| `discovery.dfy` | `Discovery` | records, candidates, the duplicate-checked insert and the scan fold with its laws |
| `cleanup.dfy` | `Cleanup` | the PATH value filter, file rewriting, deletion loops |
| `java_home.dfy` | `JavaPaths` | how the Windows and macOS Java checks turn a candidate into a home |
| `windows.dfy` | `WindowsUninstaller` | the Windows script |
| `macos.dfy` | `MacUninstaller` | the macOS script |
| `linux.dfy` | `LinuxUninstaller` | the Linux script |

Each script module has a `PythonUninstaller` and a `JavaUninstaller` class.
Each class owns its inventory as a `seq<Record>` field.
- The single-candidate methods (`ValidatePythonPath`, `CheckJavaPath`,
  `ValidateJavaPath`) are proved against the function that says what one
  candidate yields (`PythonRecord`, `JavaRecord`) and the insert
  `Discovery.InsertOpt`.
- The scan loops are proved against the fold `Discovery.Discover`.
- The `Discovery` lemmas then state what the fold guarantees: no repeated
  paths, the first valid candidate wins, a re-scan adds nothing, and an empty
  result means every candidate was rejected.

The environment appears as parameters:
- a `Host` gives the filesystem map and what running a program returns;
- the candidate lists that `glob`, `os.walk`, `os.listdir`, the registry and
  `brew --prefix` would produce are given as sequences;
- deletions and file writes that fail are given as a set of refused paths.

## Model

| member | source | states |
|---|---|---|
| Text.Lower | AirUninstallerForWindows.py:115 | `path.lower()`: same length, every ASCII capital replaced by its small letter |
| Text.LowerIdempotent | AirUninstallerForWindows.py:115 | lower-casing twice is lower-casing once |
| Text.LowerNeverContainsUpper | AirUninstallerForMacOS.py:126 | a lower-cased string never contains a needle holding a capital letter |
| Text.ContainsPiece | AirUninstallerForLinux.py:124 | a string containing a keyword contains every piece of it |
| Text.LongerKeywords | AirUninstallerForLinux.py:124-126 | a path naming `anaconda` names `conda`, and one naming `.virtualenvs` names `virtualenv` |
| Text.Split | AirUninstallerForWindows.py:218 | `split(';')` gives at least one piece and no piece holds the separator |
| Text.SplitJoin | AirUninstallerForWindows.py:217-220 | joining separator-free pieces and splitting again gives the pieces back |
| Text.Strip | AirUninstallerForWindows.py:109 | the result has no surrounding whitespace and is empty exactly when the input is all whitespace |
| Text.StripContained | AirUninstallerForWindows.py:109 | the stripped text sits in the input between two all-whitespace stretches and has no whitespace at its own ends |
| Text.StrippedFromUnique | AirUninstallerForWindows.py:109 | only one text sits that way in the input, so that description characterises `strip()` |
| Text.SplitLines | AirUninstallerForWindows.py:344 | no lines exactly for empty text; the first line ends at the first line boundary; no line holds a boundary |
| Text.SplitLinesJoin | AirUninstallerForLinux.py:325-328 | lines without boundaries, written with `\n` between them and the last non-empty, split back into exactly those lines, so every alternatives line is read |
| Lists.Filter | AirUninstallerForMacOS.py:232-235 | only accepted elements are kept, and every accepted element is kept |
| Lists.FilterAppend | AirUninstallerForMacOS.py:232-235 | filtering a concatenation filters each part, so kept elements keep their order |
| Lists.FilterIdempotent | AirUninstallerForLinux.py:224-226 | filtering twice is filtering once |
| Lists.FilterAll | AirUninstallerForLinux.py:224-226 | a list whose elements are all accepted is unchanged |
| Lists.FilterEmpty | AirUninstallerForWindows.py:217-220 | the result is empty exactly when no element is accepted |
| Paths.NormpathIdempotent | AirUninstallerForWindows.py:307 | every `normpath` result is already normal |
| Paths.NormpathRooted | AirUninstallerForWindows.py:307 | `normpath` never returns "", and its result is absolute exactly when its input is |
| Paths.Basename | AirUninstallerForWindows.py:310 | the base name holds no separator |
| Paths.DirnameBasename | AirUninstallerForLinux.py:327 | `dirname` is a prefix of the path; `basename` is the suffix after the last separator |
| Paths.PathJoinParts | AirUninstallerForWindows.py:319 | `join(a, b)` starts with `a`, ends with `b`, adds at most one separator; joining a component to a directory is undone by `dirname` and `basename` |
| Paths.NormalChild | AirUninstallerForWindows.py:319 | a normal path with one component appended is normal |
| Paths.NormalDescendant | AirUninstallerForLinux.py:163-167 | a normal path with several plain components appended is normal |
| Paths.NormalParent | AirUninstallerForWindows.py:310-311 | the parent of a normal path is normal, except the "" of a single relative component |
| Paths.DirnameOfChild | AirUninstallerForLinux.py:327 | the parent of `s/w` is `s` and its base name is `w` |
| Paths.RealPath | AirUninstallerForLinux.py:74-75 | the real path of any path is normal |
| Paths.StatFacts | AirUninstallerForLinux.py:78-87 | `stat` never reports a link; a directory exists and is not a file; a path that is not a link is reported as its own entry, and one with no entry does not exist |
| Paths.SiblingLink | AirUninstallerForLinux.py:74-75 | a link `d/w` with the relative target `t` resolves to its sibling `d/t` |
| Paths.ParentRelativeLink | AirUninstallerForMacOS.py:314-315 | a link `e/x/w` with the target `../c0/c1/...` resolves to `e/c0/c1/...` |
| Paths.RemoveTree | AirUninstallerForMacOS.py:207-213 | a real directory whose deletion is not refused is gone together with everything under it; in every other case nothing changes; survivors keep their contents and only the directory and what lies under it can vanish |
| Paths.RemoveEntry | AirUninstallerForLinux.py:192-193 | `os.remove` unlinks exactly the one entry unless refused |
| Versions.PythonVersion | AirUninstallerForWindows.py:100-111 | an exception yields the failure prefix followed by its message; a completed run yields "" only when both streams are blank |
| Versions.PythonVersionSource | AirUninstallerForLinux.py:109-119 | the version is exactly the stripped stdout when stdout is not blank, and exactly the stripped stderr otherwise |
| Versions.FirstDotted | AirUninstallerForWindows.py:345 | the first position where `\d+(?:\.\d+)+` can start, with none before it |
| Versions.MatchFacts | AirUninstallerForWindows.py:345-346 | the group matched there is a whole dotted number that no digit or `.digits` group extends |
| Versions.VersionInLine | AirUninstallerForMacOS.py:352-353 | the sentinel exactly when no dotted number starts anywhere in the line, otherwise a dotted number |
| Versions.VersionInLineLeftmost | AirUninstallerForLinux.py:310-311 | the version found is the leftmost match, whole |
| Versions.JavaVersion | AirUninstallerForWindows.py:334-349 | the sentinel or a dotted number; the sentinel when the run raised or stderr is empty; otherwise the match on the first stderr line |
| Discovery.InsertOpt | AirUninstallerForWindows.py:90-97 | a rejected candidate or a listed path changes nothing, otherwise the record is appended; paths stay distinct |
| Discovery.Discover | AirUninstallerForWindows.py:64-70 | a scan only appends, by at most one record per candidate, and keeps paths distinct |
| Discovery.DiscoverSnoc | AirUninstallerForWindows.py:64-70 | checking one more candidate inserts its outcome into the inventory built so far |
| Discovery.DiscoverPaths | AirUninstallerForWindows.py:64-70 | a path is listed after a scan exactly when it was listed before or some valid candidate had it |
| Discovery.DiscoverOrigin | AirUninstallerForWindows.py:64-70 | every new record is the outcome of some candidate |
| Discovery.DiscoverFirstWins | AirUninstallerForWindows.py:90 | the first valid candidate for an unlisted path is the record kept for it |
| Discovery.DiscoverSaturated | AirUninstallerForWindows.py:90 | candidates whose paths are all listed change nothing |
| Discovery.DiscoverIdempotent | AirUninstallerForWindows.py:236-241 | scanning the same candidates again adds nothing |
| Discovery.DiscoverEmpty | AirUninstallerForWindows.py:240-245 | a scan from an empty inventory finds nothing exactly when every candidate is rejected |
| Discovery.FindPath | AirUninstallerForLinux.py:82 | the `any(...)` loop answers whether some record has the path |
| Discovery.FindNormalisedPath | AirUninstallerForWindows.py:314-316 | the loop answers whether some record's normalised path is the home |
| Discovery.NormalisedLookup | AirUninstallerForWindows.py:314-316 | with normal stored paths, the normalised comparison is plain path equality |
| Discovery.Existing | AirUninstallerForWindows.py:76-78 | exactly the glob matches that exist are checked |
| Discovery.Tagged | AirUninstallerForWindows.py:124-145 | every path becomes one candidate with the label, in order, and nothing else is offered |
| Discovery.Mentioning | AirUninstallerForWindows.py:150-153 | PATH discovery offers exactly the non-empty segments whose lower-case form names a keyword |
| Cleanup.CleanPathValueEntries | AirUninstallerForWindows.py:217-220 | the cleaned Path value's entries are exactly the kept entries in their old order; no entry left names a keyword |
| Cleanup.CleanPathValueIdempotent | AirUninstallerForWindows.py:443-446 | cleaning the Path value twice is cleaning it once |
| Cleanup.FilterLines | AirUninstallerForMacOS.py:232-235 | the `new_lines` loop keeps exactly the lines that name no keyword, in order |
| Cleanup.RewriteFile | AirUninstallerForLinux.py:213-230 | a missing or refused file is left alone; otherwise the backup holds the old file, the file holds the kept lines, and nothing else changes |
| Cleanup.RewriteKeepsLinks | AirUninstallerForMacOS.py:237-238 | rewriting without a backup changes only file contents |
| Cleanup.RewriteFileIdempotent | AirUninstallerForMacOS.py:226-238 | rewriting a shell file a second time changes nothing |
| Cleanup.CleanFilesLoop | AirUninstallerForMacOS.py:226-242 | the loop over the files equals rewriting them one after another |
| Cleanup.CleanFilesResult | AirUninstallerForMacOS.py:226-242 | without backups, every file that could be rewritten ends with only kept lines, and no entry or link changes |
| Cleanup.CleanStays | AirUninstallerForMacOS.py:226-242 | a file with only kept lines stays that way through later rewrites |
| Cleanup.RemoveStep | AirUninstallerForLinux.py:186-197 | one deletion: with `files` a file whose deletion is not refused is unlinked; a real directory whose deletion is not refused is gone with everything under it; a deletion that changes anything was not refused and removed the one entry or the whole tree; survivors are unchanged and only the path and what lies under it can disappear; a missing path that is not a link changes nothing |
| Cleanup.RemovePaths | AirUninstallerForMacOS.py:207-213 | entries only disappear, survivors are unchanged, and only entries at or under a target disappear (what must disappear is stated by RemovePathsRemoves and RemovePathsRemovesFile) |
| Cleanup.RemovePathsRemoves | AirUninstallerForMacOS.py:207-213 | a real directory whose deletion is not refused is gone together with everything under it, whatever else failed |
| Cleanup.RemovePathsRemovesFile | AirUninstallerForLinux.py:191-193 | with `files`, a regular file whose deletion is not refused is gone afterwards, whatever else failed |
| Cleanup.RemoveTrees | AirUninstallerForMacOS.py:413-419 | the loop over a fixed list of paths ends in the RemovePaths fold of those paths |
| Cleanup.TargetPaths | AirUninstallerForLinux.py:183-189 | exactly the paths of the records the loop does not skip |
| Cleanup.SkippedSurvives | AirUninstallerForLinux.py:186-189 | an entry that no deleted record's path covers survives unchanged |
| Cleanup.SkippedNotTargeted | AirUninstallerForLinux.py:361-364 | a skipped record's path is never deleted by name |
| JavaPaths.StripBinAsWritten | AirUninstallerForWindows.py:310-311 | the home is a prefix of the normalised path, shorter exactly when it named a `bin` directory |
| JavaPaths.InsertJavaAsWritten | AirUninstallerForWindows.py:314-316 | the inventory is left alone exactly when a stored path normalises to the home, else the record is appended |
| JavaPaths.BareBinStoredTwice | AirUninstallerForWindows.py:307-316 | as written, the candidate `bin` gives the home "", and checking it twice stores two records with the same path |
| JavaPaths.EmptyHomeStoredTwice | AirUninstallerForWindows.py:314-316 | as written, a stored home "" is never found by the normalised comparison |
| JavaPaths.StripBin | AirUninstallerForWindows.py:310-311 | a normal path stays normal; a path that is not a `bin` directory is unchanged |
| JavaPaths.StripBinOnlyChange | AirUninstallerForWindows.py:310-311 | on a normal path the corrected strip differs from the one as written only where that gives "" |
| JavaPaths.InsertJavaAgrees | AirUninstallerForWindows.py:314-316 | when every stored home is normal, the duplicate check as written inserts exactly as the path-keyed insert |
| JavaPaths.BareBinStoredOnce | AirUninstallerForWindows.py:307-316 | with the parent normalised again, the candidate `bin` gives "." and is stored once |
| JavaPaths.WindowsJavaHome | AirUninstallerForWindows.py:307-311 | the home is always normal |
| JavaPaths.WindowsJavaHomeAsWritten | AirUninstallerForWindows.py:307-311 | the Windows home equals the home as written whenever that is not "" |
| JavaPaths.MacJavaHome | AirUninstallerForMacOS.py:311-319 | the home is always normal, after link resolution and `bin` stripping |
| JavaPaths.MacJavaHomeAsWritten | AirUninstallerForMacOS.py:311-319 | the macOS home equals the home as written, after the link step, whenever that is not "" |
| JavaPaths.HomebrewOptHome | AirUninstallerForMacOS.py:311-319 | `<prefix>/opt/<name>`, a link to `../Cellar/<name>/<version>`, gives the home `<prefix>/Cellar/<name>/<version>` |
| JavaPaths.BinAndParentAgree | AirUninstallerForWindows.py:310-311 | `X` and `X/bin` give the same home `X` |
| WindowsUninstaller.PythonInstallType | AirUninstallerForWindows.py:113-122 | one of four labels; a path naming `conda` is Conda |
| WindowsUninstaller.PythonInstallTypeRules | AirUninstallerForWindows.py:113-122 | the label ignores case; each label exactly when its keywords occur and no earlier rule's do |
| WindowsUninstaller.PythonExe | AirUninstallerForWindows.py:82-84 | `python.exe` when it exists, else `Scripts\python.exe`, both under the candidate |
| WindowsUninstaller.PythonRecord | AirUninstallerForWindows.py:80-91 | a record exactly when `python.exe` or `Scripts\python.exe` exists, keyed by the candidate path, with that interpreter's version |
| WindowsUninstaller.PythonCandidates | AirUninstallerForWindows.py:64-70 | exactly the existing standard matches (first), the registry paths, the PATH entries naming a keyword, and the walk's directories, each with its label |
| WindowsUninstaller.Uninstallers | AirUninstallerForWindows.py:185-196 | an uninstaller runs exactly for system or user installs whose `Uninstall.exe` exists |
| WindowsUninstaller.PythonUninstaller.ValidatePythonPath | AirUninstallerForWindows.py:80-97 | the inventory becomes the insert of the candidate's record; paths stay distinct |
| WindowsUninstaller.PythonUninstaller.ValidatePythonPaths | AirUninstallerForWindows.py:64-70 | checking candidates in order gives the scan fold |
| WindowsUninstaller.PythonUninstaller.DetectInstallations | AirUninstallerForWindows.py:64-70 | the standard, registry, PATH and walk candidates, folded in that order |
| WindowsUninstaller.PythonUninstaller.VerifyUninstall | AirUninstallerForWindows.py:236-252 | true exactly when no candidate is valid any more; on false the old inventory is back |
| WindowsUninstaller.PythonUninstaller.RunUninstallers | AirUninstallerForWindows.py:185-196 | the uninstallers invoked, in inventory order |
| WindowsUninstaller.PythonUninstaller.RemoveInstallationDirs | AirUninstallerForWindows.py:198-207 | every existing path removed as a tree, failures skipped |
| WindowsUninstaller.PythonUninstaller.Uninstall | AirUninstallerForWindows.py:173-183 | nothing without installations; otherwise uninstallers chosen on the filesystem before any deletion, then the directories |
| WindowsUninstaller.JavaRecord | AirUninstallerForWindows.py:304-331 | a record exactly when `bin\java.exe` exists under the home; JDK exactly when `bin\javac.exe` exists |
| WindowsUninstaller.JavaCandidates | AirUninstallerForWindows.py:259-302 | exactly the existing standard matches (first), the PATH entries naming Java, a JDK or a JRE, and the registry homes |
| WindowsUninstaller.JavaUninstaller.CheckJavaPath | AirUninstallerForWindows.py:304-332 | the inventory becomes the insert of the candidate's record; homes stay normal and distinct |
| WindowsUninstaller.JavaUninstaller.CheckJavaPaths | AirUninstallerForWindows.py:281-294 | checking candidates in order gives the scan fold |
| WindowsUninstaller.JavaUninstaller.FindJavaInstallations | AirUninstallerForWindows.py:259-294 | the standard, PATH and registry candidates, folded in that order |
| WindowsUninstaller.JavaUninstaller.VerifyUninstall | AirUninstallerForWindows.py:454-473 | true exactly when no candidate is valid any more; on false the old inventory is back |
| WindowsUninstaller.JavaUninstaller.RemoveJavaDirs | AirUninstallerForWindows.py:408-418 | every existing home removed as a tree, failures skipped |
| MacUninstaller.FrameworkLabelUnreachable | AirUninstallerForMacOS.py:126-127 | as written, no path is ever labelled an official framework install |
| MacUninstaller.PythonInstallType | AirUninstallerForMacOS.py:115-130 | one of seven labels; a path naming `conda` is Conda |
| MacUninstaller.FrameworkRuleOnlyChange | AirUninstallerForMacOS.py:126-127 | the corrected rule agrees with the written one except where it gives the framework label |
| MacUninstaller.FrameworkLabelReachable | AirUninstallerForMacOS.py:126-127 | the corrected rule labels `/Library/Frameworks/` an official framework install |
| MacUninstaller.PythonInstallTypeRules | AirUninstallerForMacOS.py:115-130 | the label ignores case; each of the seven labels exactly when its keywords occur and no earlier rule's do; `anaconda` and `.virtualenvs` never decide |
| MacUninstaller.PythonTarget | AirUninstallerForMacOS.py:80-88 | an interpreter file gives its grandparent as the home; otherwise the candidate is the home with `bin/python3`, else `bin/python` |
| MacUninstaller.PythonRecord | AirUninstallerForMacOS.py:78-92 | an interpreter file is recorded under its grandparent; otherwise a record exactly when `bin/python3` or `bin/python` exists, under the candidate path |
| MacUninstaller.InterpreterRecordedUnderPrefix | AirUninstallerForMacOS.py:81-83 | `<prefix>/bin/<python>` is recorded under `<prefix>` |
| MacUninstaller.BrewCandidates | AirUninstallerForMacOS.py:132-151 | every prefix match is offered, labelled Homebrew, when `brew list` ran and names a formula; otherwise nothing |
| MacUninstaller.CondaCandidates | AirUninstallerForMacOS.py:153-173 | exactly the fixed Conda folders under the home directory and `/opt` that exist, labelled Conda |
| MacUninstaller.PythonCandidates | AirUninstallerForMacOS.py:62-68 | exactly the existing standard matches (first), the Homebrew matches, the existing Conda folders and the walk's directories |
| MacUninstaller.PythonUninstaller.ValidatePythonPath | AirUninstallerForMacOS.py:78-101 | the inventory becomes the insert of the candidate's record; paths stay distinct |
| MacUninstaller.PythonUninstaller.ValidatePythonPaths | AirUninstallerForMacOS.py:62-68 | checking candidates in order gives the scan fold |
| MacUninstaller.PythonUninstaller.DetectInstallations | AirUninstallerForMacOS.py:62-68 | the standard, Homebrew, Conda and walk candidates, folded in that order |
| MacUninstaller.PythonUninstaller.VerifyUninstall | AirUninstallerForMacOS.py:244-260 | true exactly when no candidate is valid any more; on false the old inventory is back |
| MacUninstaller.PythonUninstaller.RemoveInstallationDirs | AirUninstallerForMacOS.py:204-213 | every existing path removed as a tree, failures skipped |
| MacUninstaller.PythonUninstaller.CleanEnvironment | AirUninstallerForMacOS.py:215-242 | the start-up files rewritten without lines naming the Python keywords in any case, with no backup |
| MacUninstaller.PythonUninstaller.Uninstall | AirUninstallerForMacOS.py:193-202 | nothing without installations; otherwise removal, then cleaning |
| MacUninstaller.JavaRecord | AirUninstallerForMacOS.py:308-340 | a record exactly when `bin/java` exists under the normal home; JDK exactly when `bin/javac` exists |
| MacUninstaller.JavaCandidates | AirUninstallerForMacOS.py:267-306 | exactly the existing standard matches (first), the PATH entries naming Java, a JDK or a JRE, and the Homebrew matches |
| MacUninstaller.JavaUninstaller.CheckJavaPath | AirUninstallerForMacOS.py:308-340 | the inventory becomes the insert of the candidate's record; homes stay normal and distinct |
| MacUninstaller.JavaUninstaller.CheckJavaPaths | AirUninstallerForMacOS.py:281-298 | checking candidates in order gives the scan fold |
| MacUninstaller.JavaUninstaller.FindJavaInstallations | AirUninstallerForMacOS.py:267-298 | the standard, PATH and Homebrew candidates, folded in that order |
| MacUninstaller.JavaUninstaller.VerifyUninstall | AirUninstallerForMacOS.py:450-469 | true exactly when no candidate is valid any more; on false the old inventory is back |
| MacUninstaller.JavaUninstaller.RemoveJavaDirs | AirUninstallerForMacOS.py:393-403 | every existing home removed as a tree, failures skipped |
| MacUninstaller.JavaUninstaller.RemoveJavaPlugins | AirUninstallerForMacOS.py:405-419 | the plug-in and the control panel removed where present |
| MacUninstaller.JavaUninstaller.CleanEnvironment | AirUninstallerForMacOS.py:421-448 | the start-up files rewritten without lines naming Java, a JDK or a JRE in any case, with no backup |
| MacUninstaller.JavaUninstaller.UninstallJava | AirUninstallerForMacOS.py:379-391 | nothing without installations; otherwise homes, plug-ins, then cleaning |
| LinuxUninstaller.PythonInstallType | AirUninstallerForLinux.py:121-132 | one of five labels; a path naming `conda` is Conda |
| LinuxUninstaller.PythonInstallTypeRules | AirUninstallerForLinux.py:121-132 | the label ignores case; each of the five labels exactly when its keywords occur and no earlier rule's do; `anaconda` and `.virtualenvs` never decide |
| LinuxUninstaller.PythonTarget | AirUninstallerForLinux.py:73-75 | a link is replaced by its (normal) real path, anything else kept |
| LinuxUninstaller.PythonRecord | AirUninstallerForLinux.py:71-107 | links resolved first; a record exactly for an executable file or a directory with `bin/python`, with the matching interpreter |
| LinuxUninstaller.SiblingLinkRecorded | AirUninstallerForLinux.py:71-87 | a candidate `d/python3` linking to `python3.11` records the executable `d/python3.11` |
| LinuxUninstaller.LinkAndTargetRecordedOnce | AirUninstallerForLinux.py:73-82 | a link and its target give the same record path, so a scan keeps at most one |
| LinuxUninstaller.RootCandidates | AirUninstallerForLinux.py:161-167 | nothing for a missing Conda folder; otherwise the folder first, then its environments |
| LinuxUninstaller.EnvCandidates | AirUninstallerForLinux.py:164-167 | one candidate `envs/<name>` per listed name when `envs` exists, nothing otherwise |
| LinuxUninstaller.CondaCandidates | AirUninstallerForLinux.py:151-167 | a candidate is offered exactly when one of the folders offers it |
| LinuxUninstaller.RootCandidateLabel | AirUninstallerForLinux.py:161-167 | a folder's candidates are the folder itself, then environments only |
| LinuxUninstaller.CondaCandidatesLabelled | AirUninstallerForLinux.py:151-167 | every Conda candidate is a folder or an environment |
| LinuxUninstaller.CondaFoldersAreRoots | AirUninstallerForLinux.py:161-163 | every folder candidate is one of the fixed folders and exists |
| LinuxUninstaller.CondaCandidatesCoverRoots | AirUninstallerForLinux.py:161-163 | every existing fixed folder is offered |
| LinuxUninstaller.PythonCandidates | AirUninstallerForLinux.py:57-62 | exactly the existing standard matches (first), the walk's directories and the Conda candidates |
| LinuxUninstaller.LowerCaseLineKeptByPythonClean | AirUninstallerForLinux.py:225 | the case-sensitive Python filter keeps every lower-case line |
| LinuxUninstaller.SecondBackupHoldsFirstClean | AirUninstallerForLinux.py:217 | after the Python and then the Java clean, the backup holds the file as the first clean left it |
| LinuxUninstaller.PythonUninstaller.ValidatePythonPath | AirUninstallerForLinux.py:71-107 | the inventory becomes the insert of the candidate's record; paths stay distinct |
| LinuxUninstaller.PythonUninstaller.ValidatePythonPaths | AirUninstallerForLinux.py:57-62 | checking candidates in order gives the scan fold |
| LinuxUninstaller.PythonUninstaller.DetectInstallations | AirUninstallerForLinux.py:57-62 | the standard, walk and Conda candidates, folded in that order |
| LinuxUninstaller.PythonUninstaller.VerifyUninstall | AirUninstallerForLinux.py:236-252 | true exactly when no candidate is valid any more; on false the old inventory is back |
| LinuxUninstaller.PythonUninstaller.RemoveInstallationFiles | AirUninstallerForLinux.py:180-199 | system Pythons skipped; a file unlinked, a directory removed as a tree, anything else left alone |
| LinuxUninstaller.PythonUninstaller.CleanEnvironment | AirUninstallerForLinux.py:201-234 | each environment file backed up, then rewritten without lines naming the Python keywords in exact case |
| LinuxUninstaller.PythonUninstaller.Uninstall | AirUninstallerForLinux.py:169-178 | nothing without installations; otherwise removal, then cleaning |
| LinuxUninstaller.JavaRecord | AirUninstallerForLinux.py:282-298 | a record exactly for a directory with `bin/java`; JDK exactly when `bin/javac` exists |
| LinuxUninstaller.AlternativeHomes | AirUninstallerForLinux.py:325-328 | the homes are exactly two levels above the non-empty alternatives lines |
| LinuxUninstaller.AlternativesCandidates | AirUninstallerForLinux.py:316-330 | nothing when the command raised; otherwise exactly the homes of its non-empty lines |
| LinuxUninstaller.AlternativeLineNamesHome | AirUninstallerForLinux.py:325-328 | the line `<home>/bin/java` leads back to `<home>` |
| LinuxUninstaller.PathHomes | AirUninstallerForLinux.py:336-341 | exactly the entries holding `java`, each mapped two levels above that `java` |
| LinuxUninstaller.PathCandidates | AirUninstallerForLinux.py:332-341 | exactly the homes two levels above `<entry>/java` for PATH entries naming a keyword where that file exists |
| LinuxUninstaller.JavaCandidates | AirUninstallerForLinux.py:268-273 | exactly the existing standard matches (first), the alternatives homes and the PATH homes |
| LinuxUninstaller.PathEntryNamesParent | AirUninstallerForLinux.py:338-340 | a PATH entry leads to its own parent directory |
| LinuxUninstaller.JavaUninstaller.ValidateJavaPath | AirUninstallerForLinux.py:282-298 | the inventory becomes the insert of the candidate's record; paths stay distinct |
| LinuxUninstaller.JavaUninstaller.ValidateJavaPaths | AirUninstallerForLinux.py:268-273 | checking candidates in order gives the scan fold |
| LinuxUninstaller.JavaUninstaller.FindJavaInstallations | AirUninstallerForLinux.py:268-273 | the standard, alternatives and PATH candidates, folded in that order |
| LinuxUninstaller.JavaUninstaller.VerifyUninstall | AirUninstallerForLinux.py:429-448 | true exactly when no candidate is valid any more; on false the old inventory is back |
| LinuxUninstaller.JavaUninstaller.RemoveJavaFiles | AirUninstallerForLinux.py:355-371 | records from the system-Java location skipped by source; every other existing path removed as a tree |
| LinuxUninstaller.JavaUninstaller.CleanEnvironment | AirUninstallerForLinux.py:373-405 | each environment file backed up, then rewritten without lines naming Java, a JDK or a JRE in any case |
| LinuxUninstaller.JavaUninstaller.UninstallJava | AirUninstallerForLinux.py:343-353 | nothing without installations; otherwise removal, then cleaning |

## Left out

- The interactive menus, the log output, screen clearing and the administrator or root checks. They hold no decision logic.
- `py.py`. It only deletes Edge registry keys.
- Windows registry access is not modelled:
  - the registry scans are given as lists of `InstallPath` / `JavaHome` values;
  - only the string rewrite of the `Path` value is modelled (`Cleanup.CleanPathValue`), not reading or writing the hives;
  - deleting `PYTHONPATH`, `PYTHONHOME`, `JAVA_HOME` and `JRE_HOME` is not modelled.
- Subprocesses are not run:
  - `--version`, `-version`, `brew list` and `update-alternatives --list` are represented by what they return (`ProcOutput`), and a timeout is an exception;
  - `brew --prefix` and its glob are a given list;
  - what `Uninstall.exe`, `wmic` and `update-alternatives --remove` do to the machine is not modelled.
- The alternatives cleanup in the Linux `_remove_alternatives` (AirUninstallerForLinux.py:407-427) is not modelled. It changes only the alternatives database, which lies outside the filesystem map.
- `glob.glob`, `os.walk` and `os.listdir` are given lists.
  - The walks' own tests are part of what produces those lists, so they are not modelled.
  - Under that heading falls the test `'bin/python' in dirs` (AirUninstallerForLinux.py:145, AirUninstallerForMacOS.py:186). It compares a directory name with a string holding a separator and can never hold.
- The macOS Homebrew scans catch only `FileNotFoundError`. Any other failure of `brew` would stop discovery. The model treats every failure of `brew list` as "offers nothing".
- Text.Lower: covers ASCII letters only. Python's `str.lower` also maps other scripts.
- Paths.Normpath: drops empty and `.` components and keeps `..` components as they are. It does not model drive letters or case rules.
- Paths.RealPath: follows at most as many links as the filesystem has entries. A longer chain is a cycle.
- Paths.RealPath: follows a link only where the whole path is a link. A relative target is resolved from the link's own directory (Debian's `python3 -> python3.11`, Homebrew's `opt/openjdk -> ../Cellar/openjdk/<version>`), but a link met in a parent component is not followed. A relative path stays relative, where `realpath` makes it absolute from the working directory, which the model does not have.
- Paths.IsLink, Paths.RemoveTree, Paths.RemoveEntry: look the path up as written. A path that reaches an entry through a linked parent directory is not found.
- MacUninstaller.JavaRecord: a PATH entry such as `/opt/homebrew/opt/openjdk/bin` reaches `bin/java` through the linked `opt/openjdk`. Since links in parent components are not followed, `bin/java` is not found and the model records nothing, where the script records `/opt/homebrew/opt/openjdk` (AirUninstallerForMacOS.py:305-336).
- LinuxUninstaller.JavaRecord: a link-named JVM directory such as `/usr/lib/jvm/default-java` is a directory, but its `bin/java` lies under the link. The model records nothing, where the script records it (AirUninstallerForLinux.py:285-287).
- MacUninstaller.PythonRecord: a Homebrew candidate `<prefix>/opt/python@3.12` is a link to a keg, and its `bin/python3` is reached through that link. Since links in parent components are not followed, the model rejects such a candidate where the script records it.
- Paths.Normpath: the `Nt` flavour treats only `\` as a separator. A forward-slash path such as `C:/Program Files/Java/jdk-17/bin` is one component and has no `bin` to strip (AirUninstallerForWindows.py:307-311).
- Versions.IsDigit: accepts the ASCII digits only. The pattern's `\d` (AirUninstallerForWindows.py:345) also matches other Unicode decimal digits.
- Paths.RemoveTree: a refused deletion leaves everything in place. A real `rmtree` can fail half-way.
- Cleanup.RewriteFile:
  - a refused rewrite leaves the file and its backup as they were;
  - `copy2` onto an existing directory named `<file>.bak` is not distinguished;
  - a `<file>.bak` that is a link is replaced, where `copy2` writes through it to the link's target;
  - when `<file>` is a link to `<file>.bak`, the model rewrites the file, where `copy2` raises `SameFileError` and the script changes nothing;
  - file metadata is not modelled beyond the execute bit.
- WindowsUninstaller.PythonUninstaller.Uninstall: does not model what the official uninstallers delete, nor the Path cleaning that follows. That cleaning is stated separately, by `Cleanup.CleanPathValueEntries`.

## Findings

| source | as written | input that shows it | evidently intended | confidence | as-written member | corrected member |
|---|---|---|---|---|---|---|
| AirUninstallerForMacOS.py:126 | `'/Library/Frameworks/' in path_lower` tests a needle with capitals against the lower-cased path | `/Library/Frameworks/Python.framework/Versions/3.12` is labelled `自定义安装` | a lower-case needle, so the path gets `官方框架` | high, not executed | MacUninstaller.FrameworkLabelUnreachable | MacUninstaller.FrameworkLabelReachable |
| AirUninstallerForWindows.py:310-316 (also AirUninstallerForMacOS.py:318-324) | a candidate `bin` becomes the home `os.path.dirname('bin') == ''`, and the duplicate check compares `normpath('') == '.'` with `''` | the registry value `JavaHome = bin` in two subkeys of the vendor keys (AirUninstallerForWindows.py:362-370), with `bin\java.exe` under the working directory, stores two records with path `""`; the PATH filter (line 301) lets a bare `bin` through only in a form such as `jdk\..\bin`, which Python's `normpath` collapses to `bin` but the model's does not | the stored home normalised, so the second check finds the first | medium, not executed | JavaPaths.BareBinStoredTwice | JavaPaths.BareBinStoredOnce |

Both the Windows and the macOS Java checks use the corrected `JavaPaths.StripBin`. It normalises the parent again, and it is why `Valid()` can promise normal, distinct homes.
The macOS classifier the model uses is the corrected `MacUninstaller.PythonInstallType`.
