# Docker-sync host watcher, modelled in Dafny

Docker-sync keeps a project folder on a Windows host and the same project
inside a Docker volume in step. A host-side watcher reports file events. Each
event is translated from the host tree (`<root>\<project>\...`) to the volume
tree (`w:\...\<compose>_<project>\_data\...`) or back, filtered by watch and
ignore rules, and applied to the other side by copying, deleting, renaming,
creating or removing. A governor counts operations per second. After a burst
(a `git checkout`, say) it asks for the watcher to be reloaded once the project
has gone quiet. An older entry point, `HostNodeWatcher.js`, writes each event
as a `command|source|destination` line that the container replays.

The model has one module per concern:

- `Text` — the JavaScript string operations the program relies on:
  - a global, optionally case-insensitive replace (`/.../gi`);
  - `replace` with a string pattern (first occurrence only);
  - the backslash doubling used to build regular expressions, and its inverse;
  - splitting at a separator.
- `Configuration` — the configuration record, and the values of the test configuration.
- `PathTranslation` — the two roots and the two translations between them.
- `WatchRules`:
  - the volume-side watch list of a project;
  - the two exclusion predicates;
  - discovery of projects from the docker-compose volumes.
- `EffectApplier` — `execEventCommand`. It is a `FileSystem` class whose
  `entries` map (path to file or directory) is updated in place. The file-system
  calls it makes (`FileHash`, `CopyFile`, `Unlink`, `Rename`, `MakeDirectory`,
  `RemoveRecursive`) each state the map they leave behind; `ExecEventCommand`,
  which strings them together, is proved against the pure `Exec` function, and
  the properties of the applier are proved about `Exec`.
- `RateGovernor` — the operations-per-second governor. It is a `Governor` class
  holding the three per-project tables.
- `HostWatcher` — `createUnixExecCommand` and its helpers, the log paths and
  the fixed ignore predicate of `HostNodeWatcher.js`.
- `ShortPaths` — the shortened paths that the event log prints.

Inputs that the program reads from its environment are parameters of the model:

| program reads | model takes |
|---|---|
| the configuration module chosen by `isTesting()` | a `Config` |
| `process.cwd()` | `cwd` |
| `Date.now()` | `nowMs` |
| `fs.existsSync` on paths outside the modelled tree | `pathExists` |

Where the program's behaviour is easy to misread, the model follows the code:

- The translations replace every case-insensitive occurrence of the root
  anywhere in a path. They are not a prefix substitution. A path that merely
  contains the root elsewhere is rewritten there too.
- `execEventCommand` is not tolerant of every race. Some calls still throw, and
  the model returns `Threw`:
  - unlinking a directory as a file;
  - copying a directory as a file;
  - renaming with no destination, or into the renamed directory itself;
  - renaming onto an occupied path (a file over a file is allowed).
- The governor marks a project for reload when the newest bucket is strictly
  more than two seconds old. It does not use the count of quiet seconds.
- A volume written `name:/APP` passes the case-insensitive `:/app$` test. The
  case-sensitive `replace(':/app', '')` then leaves its suffix in place
  (`WatchRules.UpperCaseSuffixKept`).

## Model

| member | source | states |
|---|---|---|
| Text.EscapeRoundTrip | HostNodeWatcher.helper.js:24 | undoing the backslash doubling (`replaceAll('\\\\', '\\')`) gives back the original text |
| PathTranslation.WindowsCurrentDirectoryPath | HostNodeWatcher.helper.js:27-29 | defines the pattern source: configured root, a doubled backslash, the project (what it matches: `HostProjectDirOfEscapedRoot`) |
| PathTranslation.GetLinuxVolumesDirPath | HostNodeWatcher.helper.js:31-33 | defines the volume directory as the template with its first `{{project}}` filled in (`VolumesDirOfTemplate`) |
| PathTranslation.ConvertToLinuxNetworkPath | HostNodeWatcher.helper.js:12-16 | a missing path stays missing and a present one gives a path (`?.`); its translation is stated by `ToLinuxUnchanged` and `ToLinuxOfHostPath` |
| PathTranslation.ConvertToWindowsNetworkPath | HostNodeWatcher.helper.js:22-25 | a missing path stays missing and a present one gives a path (`?.`); its translation is stated by `ToWindowsUnchanged` and `ToWindowsOfVolumePath` |
| PathTranslation.HostProjectDirOfEscapedRoot | HostNodeWatcher.helper.js:27-29 | when the root is a doubled real directory, the project's pattern matches exactly `root\project` |
| PathTranslation.VolumesDirOfTemplate | HostNodeWatcher.helper.js:31-33 | the volume directory is the template with its first `{{project}}` replaced by the project |
| PathTranslation.HostProjectDirOfSegments | HostNodeWatcher.helper.js:27-29 | a root of four segments joined by doubled backslashes gives the host directory joined by single backslashes |
| PathTranslation.ToLinuxUnchanged | HostNodeWatcher.helper.js:12-16 | a path that does not contain the host directory comes back unchanged |
| PathTranslation.ToWindowsUnchanged | HostNodeWatcher.helper.js:22-25 | a path that does not contain the volume directory comes back unchanged |
| PathTranslation.ToLinuxOfHostPath | HostNodeWatcher.helper.js:12-16 | host directory + rest becomes volume directory + rest |
| PathTranslation.ToWindowsOfVolumePath | HostNodeWatcher.helper.js:22-25 | volume directory + rest becomes host directory + rest |
| PathTranslation.RoundTripFromHost | HostNodeWatcher.helper.js:12-25 | host to volume and back is the identity on a path `hostdir + rest` whose rest contains neither the host nor the volume directory, for a non-empty volume directory (occurrences elsewhere are rewritten too) |
| PathTranslation.RoundTripFromVolume | HostNodeWatcher.helper.js:12-25 | volume to host and back is the identity on a path `voldir + rest` whose rest contains neither the volume nor the host directory, for a non-empty volume directory |
| PathTranslation.TestingPattern | HostNodeWatcher.test.js:35-39 | under the test configuration, the pattern source of `projectName` is `D:\\Roman\\webserver_v2\\spd-mothership9\\projectName`, backslashes doubled |
| PathTranslation.TestingHostDir | HostNodeWatcher.helper.js:13 | under the test configuration, that pattern matches the literal host directory `D:\Roman\webserver_v2\spd-mothership9\projectName` |
| PathTranslation.TestingVolumeDir | HostNodeWatcher.test.js:41-45 | under the test configuration, the volume directory of `projectName` is `w:\data\docker\volumes\spd-mothership9_projectName\_data` |
| PathTranslation.ConvertExampleToLinux | HostNodeWatcher.test.js:47-51 | the example `...projectName\server.php` maps to its volume path |
| PathTranslation.ConvertExampleToWindows | HostNodeWatcher.test.js:53-57 | the example volume path maps back to the host path |
| WatchRules.IsNamedAppVolume | HostNodeWatcher.helper.js:54 | defines the two regular-expression tests on a volume (`NamedAppVolume`, `BindMountIsNotNamed`, `UpperCaseSuffixKept`) |
| WatchRules.VolumeProjectName | HostNodeWatcher.helper.js:55 | defines the project name as the volume with its first, case-sensitive `:/app` removed |
| WatchRules.WindowsProjectsToWatch | HostNodeWatcher.helper.js:43-66 | the reference definition the loop `FindWindowsProjectsToWatch` is proved equal to (`ConfiguredProjectsWin`, `ScannedProjectsMembers`) |
| WatchRules.FindWindowsProjectsToWatch | HostNodeWatcher.helper.js:43-66 | the nested loops return the configured projects, or else the named `X:/app` volumes of every service, in order, whose host folder exists |
| WatchRules.ConfiguredProjectsWin | HostNodeWatcher.helper.js:44-47 | a non-empty hand-written project list is returned as is unless a scan is forced |
| WatchRules.VolumeProjectsMembers | HostNodeWatcher.helper.js:52-62 | a name is found in a service iff one of its volumes is a named `:/app` volume with that name whose folder exists |
| WatchRules.ScannedProjectsMembers | HostNodeWatcher.helper.js:50-64 | a name is found iff some volume of some service contributes it |
| WatchRules.NamedAppVolume | HostNodeWatcher.helper.js:54-55 | `name:/app` is a named volume and yields `name` |
| WatchRules.BindMountIsNotNamed | HostNodeWatcher.helper.js:54 | a volume starting with `.` or `/` never counts |
| WatchRules.UpperCaseSuffixKept | HostNodeWatcher.helper.js:54-55 | `name:/APP` passes the case-insensitive test but keeps its suffix |
| WatchRules.SingleNamedVolume | HostNodeWatcher.helper.js:52-61 | a lone `name:/app` volume contributes `name` exactly when its host folder exists |
| WatchRules.BindMountsContributeNothing | HostNodeWatcher.helper.js:54 | volumes that all start with `.` or `/` contribute nothing |
| WatchRules.TestingScannedProjects | HostNodeWatcher.test.js:71-75 | a forced scan of the test configuration finds `spd-mothership` then `dbd-mothership` when only their folders exist |
| WatchRules.TestingConfiguredProjects | HostNodeWatcher.test.js:65-69 | the test configuration returns its configured `dbd-mothership` |
| WatchRules.ResolveWatchList | HostNodeWatcher.helper.js:68-92 | the lookup throws a `TypeError` exactly when there is no `*` key and the project has no key or lists `*` |
| WatchRules.KeepExisting | HostNodeWatcher.helper.js:96-102 | defines the existence filter (`KeepExistingMembers`) |
| WatchRules.GetLinuxProjectsDirectoriesToWatch | HostNodeWatcher.helper.js:68-106 | defines the watch list: the resolved list, filtered by existence outside testing (`WatchListExistenceFilter`) |
| WatchRules.OwnKeyWins | HostNodeWatcher.helper.js:73-80 | a project's own list without `*` is the answer, even when empty |
| WatchRules.StarMergeOrder | HostNodeWatcher.helper.js:83-87 | with `*` and non-empty defaults: the project's entries, then the defaults not already listed, first occurrences kept, `*` removed |
| WatchRules.StarMergeMembers | HostNodeWatcher.helper.js:83-87 | the merged list is duplicate-free, has no `*`, and holds exactly the entries of both lists other than `*` |
| WatchRules.StarWithEmptyDefaults | HostNodeWatcher.helper.js:83 | with empty defaults the project's list, `*` included, is returned untouched |
| WatchRules.DefaultsWithoutKey | HostNodeWatcher.helper.js:89-92 | with no key the default list is used; with no default list either the call throws |
| WatchRules.LeadingStarCoversDefaults | HostNodeWatcher.helper.js:83-87 | `["*"] + rest` whose rest already covers the defaults resolves to `rest` |
| WatchRules.DedupFromMembers | HostNodeWatcher.helper.js:84 | `[...new Set(..)]` is duplicate-free and keeps exactly the unseen elements |
| WatchRules.WithoutMembers | HostNodeWatcher.helper.js:84-86 | filtering out `*` keeps every other element, in order, and keeps distinctness |
| WatchRules.KeepExistingMembers | HostNodeWatcher.helper.js:96-102 | the filter is a subsequence holding exactly the entries whose volume path exists |
| WatchRules.WatchListExistenceFilter | HostNodeWatcher.helper.js:94-105 | under test the resolved list is returned; otherwise its existing entries, as a subsequence |
| WatchRules.TestingWatchLists | HostNodeWatcher.test.js:77-88 | `emptyProject` gives `[]` and `dbd-mothership` its three directories |
| WatchRules.TestingStarWatchList | HostNodeWatcher.test.js:77-88 | `spd-mothership` gives its five entries with the defaults merged in |
| WatchRules.ScanProjectEntries | HostNodeWatcher.helper.js:111-123 | defines the early-return loop over a project's own entries (`ScanWithDefaults`, `ScanWithoutDefaults`) |
| WatchRules.ExcludeFoldersFromLinuxProjectsToWatch | HostNodeWatcher.helper.js:109-133 | defines the exclusion of volume-owned paths (`ExcludeFoldersMeaning`, `ExcludeFoldersWithoutDefaults`) |
| WatchRules.ScanWithDefaults | HostNodeWatcher.helper.js:110-123 | the early-return loop over a project's entries is true iff an entry, or for `*` a default entry, occurs after a backslash |
| WatchRules.ScanWithoutDefaults | HostNodeWatcher.helper.js:110-123 | without a default list the loop throws iff it reaches a `*` before a match |
| WatchRules.ExcludeFoldersMeaning | HostNodeWatcher.helper.js:109-133 | a non-empty own list matches `\entry`; otherwise only default entries count, and they need `\entry\` |
| WatchRules.ExcludeFoldersWithoutDefaults | HostNodeWatcher.helper.js:110-130 | with no default list the check throws iff it reaches the defaults |
| WatchRules.OwnEntryNeedsNoBoundary | HostNodeWatcher.helper.js:110-114 | an own entry excludes on `\entry` alone, with no trailing separator |
| WatchRules.IgnorePattern | HostNodeWatcher.helper.js:137-141 | defines the text an ignore pattern is searched as (`RootedPattern`) |
| WatchRules.ExcludeWindowsWatcherPaths | HostNodeWatcher.helper.js:135-149 | defines the host-side ignore rule (`ExcludedIffRootedOrStarHit`) |
| WatchRules.RootedPattern | HostNodeWatcher.helper.js:136-141 | a pattern without `*` is anchored at `\project\`, with a backslash added if it has none |
| WatchRules.ExcludedIffRootedOrStarHit | HostNodeWatcher.helper.js:135-149 | a path is ignored iff a `*` pattern occurs anywhere or an anchored pattern starts right after the project folder |
| EffectApplier.Exec | HostNodeWatcher.helper.js:189-236 | the reference definition of the applier, branch by branch; whenever the call does not return true, the tree is unchanged |
| EffectApplier.FileSystem.ExecEventCommand | HostNodeWatcher.helper.js:189-236 | the imperative applier produces exactly the result and tree of `Exec` |
| EffectApplier.FileSystem.FileHash | HostNodeWatcher.helper.js:35-40 | the digest of a file is its content; reading a directory fails |
| EffectApplier.FileSystem.CopyFile | HostNodeWatcher.helper.js:199 | `cpSync` makes the target a copy of the source file |
| EffectApplier.FileSystem.Unlink | HostNodeWatcher.helper.js:207 | `unlinkSync` removes exactly the target |
| EffectApplier.FileSystem.Rename | HostNodeWatcher.helper.js:214 | `renameSync` moves the target's tree under the destination |
| EffectApplier.FileSystem.MakeDirectory | HostNodeWatcher.helper.js:221 | `mkdirSync` adds the directory |
| EffectApplier.FileSystem.RemoveRecursive | HostNodeWatcher.helper.js:228 | `rmSync` with `recursive` removes the target and everything below it |
| EffectApplier.CopyWhenDifferent | HostNodeWatcher.helper.js:190-204 | `change`/`add` returns true iff the source file exists and the target is absent or differs; the target then equals the source |
| EffectApplier.CopyIdempotent | HostNodeWatcher.helper.js:190-204 | repeating a successful copy returns false and changes nothing |
| EffectApplier.OnlyTargetTreesChange | HostNodeWatcher.helper.js:189-236 | no path outside the target's and the rename destination's trees changes |
| EffectApplier.UnlinkRemovesFile | HostNodeWatcher.helper.js:205-211 | `unlink` removes an existing file and returns true; a missing target returns false; a directory throws |
| EffectApplier.MovedBack | HostNodeWatcher.helper.js:214 | moving a tree to a free destination and back restores the tree |
| EffectApplier.RenameRoundTrip | HostNodeWatcher.helper.js:212-218 | a rename returns true, and renaming back returns true and restores the original tree |
| EffectApplier.AddDirCreatesMissing | HostNodeWatcher.helper.js:219-225 | `addDir` creates the directory iff it is absent, and returns whether it did |
| EffectApplier.UnlinkDirRemovesTree | HostNodeWatcher.helper.js:226-235 | `unlinkDir` returns true iff the path exists, then leaves exactly the tree without it; on a missing path it returns false and changes nothing; it never throws |
| EffectApplier.RenameOutcome | HostNodeWatcher.helper.js:212-218 | `rename` on a missing target returns false and changes nothing; it returns true iff the target exists and the destination is itself, or is outside its tree and free or a file replaced by a file, and the tree is then moved; it throws otherwise, with the reason |
| EffectApplier.UnknownEventIgnored | HostNodeWatcher.helper.js:233-235 | any other event returns false and changes nothing |
| RateGovernor.MaxOperationsPerSecond | HostNodeWatcher.helper.js:301-312 | the running maximum is an upper bound of all counts and is one of them (or 0); it exceeds 5 iff some second holds more than 5 operations (`HasSpike`) |
| RateGovernor.Governor.IsWatcherMustBeReloaded | HostNodeWatcher.helper.js:329-331 | a project is only ever marked for reload after it has spiked |
| RateGovernor.Governor.constructor | HostNodeWatcher.helper.js:278-280 | all three tables start empty |
| RateGovernor.Governor.IncrementWatcherOperationsPerSecond | HostNodeWatcher.helper.js:282-298 | a no-op while a reload is pending; otherwise the current second's bucket grows by one, and nothing else changes |
| RateGovernor.Governor.CalculateIfWatcherMustBeReloaded | HostNodeWatcher.helper.js:300-327 | a count above 5 sets the sticky spike mark; a spiking project whose newest bucket is more than 2 s old is marked for reload; no mark is cleared |
| RateGovernor.Governor.ResetWatcherOperationsPerSecond | HostNodeWatcher.helper.js:333-337 | the buckets are emptied and both marks cleared |
| RateGovernor.IncrementedKeepsDistinct | HostNodeWatcher.helper.js:287-297 | incrementing adds the current second and never gives a second two buckets |
| RateGovernor.IncrementedCounts | HostNodeWatcher.helper.js:293-297 | exactly one is added to the current second; every other second keeps its count |
| RateGovernor.IncrementedTotal | HostNodeWatcher.helper.js:297 | one more operation is recorded in all |
| RateGovernor.IncrementedOrder | HostNodeWatcher.helper.js:293-295 | an existing second keeps its place; a new second is appended last, so the last bucket is the newest |
| RateGovernor.ReloadAfterQuietPeriod | HostNodeWatcher.test.js:314-340 | six operations in one second: not reloaded after 1 s or 2 s, reloaded after 3 s, not after a reset |
| HostWatcher.HostCurrentDirectoryPath | HostNodeWatcher.js:69-71 | defines the pattern source: the doubled working directory, a doubled backslash, the project (`HostDirectory`) |
| HostWatcher.HostDirectory | HostNodeWatcher.js:69-71 | the project's pattern matches exactly `cwd\project` |
| HostWatcher.UnixRelativeOfHostPath | HostNodeWatcher.js:64-67 | `cwd\project` + rest becomes rest with slashes, with no backslash left |
| HostWatcher.ConvertToUnixRelativePath | HostNodeWatcher.js:64-67 | a missing path stays missing (`?.`); a converted path never holds a backslash |
| HostWatcher.NoBarAfterConversion | HostNodeWatcher.js:64-67 | conversion brings in no bar character that its inputs lacked |
| HostWatcher.CommandFields | HostNodeWatcher.js:105-125 | each line splits at the bar into `cp`/`rm`/`mv`/`mkdir`/`rmdir`, `/source`+path (or empty) and `/app`+path |
| HostWatcher.ThreeFields | HostNodeWatcher.js:108 | three bar-free fields joined by bars split back into themselves |
| HostWatcher.RenameWithoutDestination | HostNodeWatcher.js:113-116 | a rename with a missing or empty destination writes `/appundefined` |
| HostWatcher.CreateUnixExecCommand | HostNodeWatcher.js:105-125 | a line is produced exactly for `change`, `add`, `unlink`, `rename`, `renameDir`, `addDir` and `unlinkDir`; any other event yields `null` |
| HostWatcher.HostWatcherLogDirPath | HostNodeWatcher.js:73-75 | defines the log directory by the first `{{project}}` substitution (`LogPaths`) |
| HostWatcher.HostWatcherLogPath | HostNodeWatcher.js:77-79 | defines the log file by the first `{{project}}` substitution (`LogPaths`) |
| HostWatcher.LogPaths | HostNodeWatcher.js:73-79 | the log directory is `./docker/watcher/<project>` and the log is `watcher.log` inside it |
| HostWatcher.IgnoredByWatcher | HostNodeWatcher.js:32-46 | defines the fixed ignore rule of the four `includes` tests (`IgnoredByWatcherAsPatterns`) |
| HostWatcher.IgnoredByWatcherAsPatterns | HostNodeWatcher.js:32-46 | the fixed ignore rule equals the pattern rule with `*\.git\`, `*\vendor\`, `*\node_modules\` and `*\.idea\` |
| ShortPaths.WindowsPathToShortName | HostNodeWatcher.helper.js:254-262 | defines the host short name (`WindowsShortNameOfProjectPath`, `WindowsShortNameOutsideRoot`) |
| ShortPaths.LinuxPathToShortName | HostNodeWatcher.helper.js:264-269 | defines the volume short name (`LinuxShortNameOfProjectPath`, `RemoveLazyMatchesAbsent`) |
| ShortPaths.AnyPathToShortPath | HostNodeWatcher.helper.js:271-276 | defines the composition of the two (`ExampleAnyShortPath`) |
| ShortPaths.DropHeadSegmentMeaning | HostNodeWatcher.helper.js:258-260 | `/^\\.+?\\/` removes up to the first backslash at index 2 or more with no line terminator before it, or nothing |
| ShortPaths.SeparatorAfterHeadFirst | HostNodeWatcher.helper.js:259 | the scan finds the first accepted separator, and none when there is none |
| ShortPaths.WindowsShortNameOfProjectPath | HostNodeWatcher.helper.js:254-263 | `root\project\rest` shortens to `\rest` |
| ShortPaths.WindowsShortNameOutsideRoot | HostNodeWatcher.helper.js:254-263 | a path without the root is returned unchanged |
| ShortPaths.SplitAtFirstAt | HostNodeWatcher.helper.js:266 | the placeholder splits the template at its first occurrence |
| ShortPaths.WildcardEndFirst | HostNodeWatcher.helper.js:266-269 | the lazy `.+?` stops at the first place the rest of the template follows |
| ShortPaths.RemoveLazyMatchesAbsent | HostNodeWatcher.helper.js:265-270 | without the template's head nothing is removed |
| ShortPaths.LinuxShortNameOfProjectPath | HostNodeWatcher.helper.js:265-270 | a project's volume directory + rest shortens to rest |
| ShortPaths.ExampleWindowsShortName | HostNodeWatcher.test.js:288-291 | the host example shortens to `\server.php` |
| ShortPaths.ExampleLinuxShortName | HostNodeWatcher.test.js:293-296 | the volume example shortens to `\server.php` |
| ShortPaths.ExampleAnyShortPath | HostNodeWatcher.test.js:298-304 | both forms shorten to `\server.php` |

## Left out

- `fileHash` computes SHA-1 through the `crypto` module. The model compares contents directly, which treats the digest as injective.
- `getFilesListInDirectoryRecursively` is asynchronous directory traversal with a shared pending counter. It is not modelled.
- `consoleLogEventCommand`, the colour helpers and `playSystemBeep` are console output and a child process. Only the path shortening they print is modelled.
- `isTesting` reads `process.env`; the chosen configuration is a parameter. `HostNodeWatcher.config.js` is not part of this model (file checks, YAML parsing, `process.exit`). Its docker-compose services become `serviceVolumes`, one list of strings per service in order. Non-string volume entries are not modelled.
- In `HostNodeWatcher.js`, three pieces of runtime plumbing are not modelled:
  - the `Watcher` subscription;
  - the directory scan `findHostProjectsToWatch`;
  - `appendFileSync`.
- `Date.now()` and `fs.existsSync` outside the modelled tree are parameters.
- Regular expressions are read as literals. This holds under two assumptions:
  - roots, templates and project names hold no regular-expression syntax besides the doubled backslashes;
  - replacement strings hold no `$` patterns.
- Case-insensitive matching folds ASCII letters only.
- `EffectApplier.Exec` keeps a flat map of paths. It does not model:
  - missing parent directories (ENOENT), including an empty destination path;
  - POSIX rename onto an empty directory;
  - permissions.
- `EffectApplier.FileSystem.ExecEventCommand` drops the `project` and `syncDirection` parameters, which only feed the log line.
- `WatchRules.ResolveWatchList` and the exclusion predicates read configuration keys as plain map entries. Properties inherited from `Object.prototype` are not modelled.
- `RateGovernor.Governor` keys its buckets by integer second. The program's `'S' + second` string keys behave identically for the non-negative times modelled.
