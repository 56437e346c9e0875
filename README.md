# XCOM 2 install-path discovery, modelled in Dafny

This project models the install-path logic of the XCOM 2 modding
extension for VS Code (`src/sdk-location.ts`). The extension keeps two
settings, `highlander.gameroot` and `highlander.sdkroot`. Each must name
an existing directory whose path ends with a fixed ending:
`XCOM 2\XCom2-WarOfTheChosen` for the game and
`XCOM 2 War of the Chosen SDK` for the SDK.

- `validatePaths` checks both settings. It reports either that both are
  correct, or which ones are incorrect, and it offers automatic detection.
- `guessPaths` lists the Steam library folders: `%ProgramFiles(x86)%\Steam`
  first, then `<drive>\SteamLibrary` for every drive that
  `wmic logicaldisk get name` reports. Each one becomes its
  `steamapps\common` folder, and only existing directories are kept.
  `guessPaths` then scans them in order. For every kind still needed, it
  writes the first `<library>\<ending>` that passes that kind's folder
  check. It warns when something stays unfound.

The model works on values. The filesystem is two sets of paths: those
`fs.access` accepts and those `fs.stat` calls directories. The settings
are a map. What a command does to the host is an ordered list of effects
(settings written, information and warning notifications shown). The
drive-listing output, the `ProgramFiles(x86)` variable and the user's
choice in the warning are inputs. The loops of `findSteamLibraries` and
`guessPaths` are methods proved equal to specification functions. The
properties are lemmas about those functions.

Modules:

- `Strings`: `endsWith`, `join`, `split` and `trim`.
- `Seqs`: `filter`, and first-index search.
- `Host`: filesystem, path joining, settings and effects.
- `Folders`: the folder predicates.
- `Drives`: `getMountedDrives`.
- `Libraries`: `findSteamLibraries`.
- `Resolver`: `checkConfiguredPaths` and `guessPaths`.
- `Validator`: `validatePaths`.

## Model

| member | source | states |
|---|---|---|
| Strings.EndsWithIsTail | src/sdk-location.ts:111 | `endsWith` holds exactly when the ending is the tail of the path |
| Strings.JoinWith | src/sdk-location.ts:32 | `parts.join(sep)`: the parts with the separator between each two; `Strings.Split` is proved to be undone by it (joining the pieces of a split gives the input back) |
| Strings.Split | src/sdk-location.ts:171 | splitting on `\r\r\n` gives at least one piece; joining the pieces back with the separator gives the input; no piece contains the separator |
| Strings.Trim | src/sdk-location.ts:173 | the trimmed line is a contiguous part of the line; everything cut at either end is JavaScript whitespace; the result neither starts nor ends with whitespace |
| Seqs.Filter | src/sdk-location.ts:172 | the result is no longer than the input and every element is accepted |
| Seqs.KeptIndices | src/sdk-location.ts:151 | lists the accepted positions in strictly ascending order; a position is listed exactly when its element is accepted |
| Seqs.FilterKeepsAcceptedInOrder | src/sdk-location.ts:151 | the k-th kept element is the element at the k-th accepted position, so order is preserved whatever order the checks complete in |
| Seqs.FilterMembership | src/sdk-location.ts:172 | an element is in the result exactly when it is in the input and accepted |
| Seqs.FirstIndex | src/sdk-location.ts:62-86 | finds the smallest accepted position from a start index, or none when no position from there is accepted |
| Host.JoinEndsWithSegment | src/sdk-location.ts:64 | a joined path always ends with the segment joined on |
| Host.WrittenOfConcat | src/sdk-location.ts:68 | the writes to a key by two runs in sequence are the first run's writes followed by the second's |
| Host.ApplyReadsLastWrite | src/sdk-location.ts:78 | after the writes, a key holds the last value written to it, or its old value if nothing was written |
| Folders.PathExists | src/sdk-location.ts:154-164 | a path exists exactly when `fs.access` accepts it; any access error gives false, never a failure |
| Folders.IsPathValidFolder | src/sdk-location.ts:124-129 | accessible, and a directory by `stat` |
| Folders.IsGameFolder | src/sdk-location.ts:110-115 | ends with `XCOM 2\XCom2-WarOfTheChosen` and is a valid folder |
| Folders.IsSdkFolder | src/sdk-location.ts:117-122 | ends with `XCOM 2 War of the Chosen SDK` and is a valid folder |
| Folders.KindFolderExactly | src/sdk-location.ts:110-129 | a path is the game (or SDK) folder exactly when it ends with that kind's ending, is accessible and is a directory |
| Folders.WithoutEndingNeverKindFolder | src/sdk-location.ts:15-16 | a path without the kind's ending is never that kind's folder, whatever the filesystem holds |
| Folders.JoinedCandidateNeedsOnlyDirectory | src/sdk-location.ts:64-66 | for `<library>\<ending>` the suffix test always passes, so only the directory check decides |
| Folders.SuffixTestIgnoresComponentBoundary | src/sdk-location.ts:118 | `D:\Old XCOM 2 War of the Chosen SDK` is accepted as an SDK folder when it exists as a directory |
| Drives.GetMountedDrives | src/sdk-location.ts:167-174 | splits the listing on `\r\r\n`, keeps the pieces matching `/[A-Za-z]:/` and trims each; its properties are the three `Drives` lemmas below |
| Drives.TrimKeepsDriveLetter | src/sdk-location.ts:172-173 | trimming a line that holds a letter followed by a colon keeps that pair |
| Drives.MountedDrivesAreKeptPiecesTrimmed | src/sdk-location.ts:167-174 | the drives are, in input order, the trimmed versions of exactly the `\r\r\n`-separated pieces that hold a letter followed by a colon |
| Drives.MountedDrivesAreDriveNames | src/sdk-location.ts:170-173 | every drive holds a letter followed by a colon and neither starts nor ends with whitespace |
| Libraries.FindSteamLibraries | src/sdk-location.ts:131-152 | fails exactly when the drive listing failed; otherwise returns `Libraries.SteamLibraries`, the valid candidates in candidate order |
| Libraries.CandidatesLayout | src/sdk-location.ts:132-148 | the candidates are the Program Files Steam folder first (only when the variable is set and names a valid folder), then one `SteamLibrary` folder per drive in drive order, each under `steamapps\common` |
| Libraries.SteamLibrariesKeepValidCandidatesInOrder | src/sdk-location.ts:147-151 | the libraries are the candidates at the valid positions, in order; a candidate is kept exactly when it is an accessible directory |
| Libraries.SteamLibrariesAreValidCandidates | src/sdk-location.ts:151 | a path is a library exactly when it is a candidate and a valid folder |
| Libraries.ProgramFilesLibraryComesFirst | src/sdk-location.ts:135-137 | when the Program Files Steam library exists, it is the first library |
| Libraries.NothingToScanFindsNothing | src/sdk-location.ts:131-152 | with no usable Program Files folder and no drives, no library is found |
| Resolver.CheckConfiguredPaths | src/sdk-location.ts:97-108 | reads both settings and runs the game check on the game path and the SDK check on the SDK path |
| Resolver.CheckedExactlyByFolderTest | src/sdk-location.ts:97-108 | a configured path is judged correct exactly when it passes its kind's folder check |
| Resolver.WrittenByFound | src/sdk-location.ts:68-69 | a detection writes its own kind's key once, with the path found, and no other key |
| Resolver.StepWritesOnMatch | src/sdk-location.ts:63-81 | one library writes a kind's key exactly when that kind is needed and matches there, once, with `<library>\<ending>`; the kind stays needed exactly when it was needed and missed |
| Resolver.ScanWritesFirstMatch | src/sdk-location.ts:62-86 | the loop writes a kind's key only if that kind is needed and some library matches, once, with the path at the first matching library; the kind stays unfound exactly when it was needed and nothing matches |
| Resolver.AnnouncedWritesTouchOnlySettingKeys | src/sdk-location.ts:68-69 | effects made of writes each followed by its found-it notice write no key but `highlander.gameroot` and `highlander.sdkroot`, and hold no warning |
| Resolver.ScanOnlyAnnouncesWrites | src/sdk-location.ts:62-86 | the loop's effects are settings writes to the game or SDK key, each followed by the found-it notice naming the path written (game notice for the game key, SDK notice for the SDK key), and no warning |
| Resolver.ResolveWarnsExactlyWhenMissing | src/sdk-location.ts:88-90 | the failure warning follows the loop exactly when some needed kind matched no library |
| Resolver.ResolveWritesFirstMatch | src/sdk-location.ts:62-90 | the warning adds no write to what the loop wrote |
| Resolver.GuessStopsWhenBothCorrect | src/sdk-location.ts:46-51 | with both paths correct, `guessPaths` shows only the already-configured notice, writes nothing and does not look at the libraries |
| Resolver.DetectInLibraries | src/sdk-location.ts:62-90 | the loop with its flags and `break`, and the warning after it, produce exactly `Resolver.Resolve`: the effects of `Resolver.Scan` over the libraries, then the failure warning when a kind is still needed |
| Resolver.GuessPaths | src/sdk-location.ts:44-91 | the command's outcome equals `Resolver.GuessOutcome`, the function the `Resolver` lemmas are proved about: the already-configured notice when both paths are correct, rejection when the drive listing fails, otherwise `Resolver.Resolve` over `Libraries.SteamLibraries` |
| Resolver.GuessWritesFirstMatchOnly | src/sdk-location.ts:56-86 | the game or SDK key is never written when its path was correct; otherwise it is written at most once, with `<library>\<ending>` for the first matching library |
| Resolver.GuessWritesNoOtherKey | src/sdk-location.ts:44-91 | no setting other than `highlander.gameroot` and `highlander.sdkroot` is ever written |
| Resolver.GuessWarnsExactlyWhenMissing | src/sdk-location.ts:88-90 | the failure warning is shown exactly when a needed kind matched no library, and always when no library was found |
| Resolver.GuessLeavesKindCorrect | src/sdk-location.ts:62-90 | after a run without the warning, each key holds a folder of its kind |
| Resolver.GuessIsIdempotent | src/sdk-location.ts:44-51 | a second run on the settings a warning-free run left behind only reports that both paths are configured |
| Validator.ProblematicSettings | src/sdk-location.ts:26-29 | lists "game" exactly when the game path is wrong and "SDK" exactly when the SDK path is wrong, game first, one entry per wrong path |
| Validator.WarningText | src/sdk-location.ts:31-32 | "Xcom 2: " + the problems joined with " and " + " paths are" when there is more than one, " path is" otherwise + " incorrect" |
| Validator.GameOnlyWarningText | src/sdk-location.ts:31-34 | game alone: "Xcom 2: game path is incorrect" |
| Validator.SdkOnlyWarningText | src/sdk-location.ts:31-34 | SDK alone: "Xcom 2: SDK path is incorrect" |
| Validator.BothWarningText | src/sdk-location.ts:31-34 | both: "Xcom 2: game and SDK paths are incorrect" |
| Validator.ValidatePaths | src/sdk-location.ts:22-42 | the command's outcome equals `Validator.ValidateOutcome`, the function the `Validator` lemmas are proved about: the configured-correctly notice, or the warning followed by `Resolver.GuessOutcome`'s effects when detection is chosen |
| Validator.ValidateOpensWithVerdict | src/sdk-location.ts:25-41 | the command opens with the "configured correctly" notice exactly when both paths pass their checks; otherwise it opens with the warning that names the failed paths and offers detection |
| Validator.ValidateWritesOnlyThroughDetection | src/sdk-location.ts:36-38 | unless detection is chosen, nothing is written and nothing fails; when it is chosen, what follows the warning is exactly `guessPaths`'s outcome |

## Left out

- `fs.access` and `fs.stat` are not modelled as calls. The filesystem is two fixed sets. A path that vanishes between the access check and the `stat` (which would throw) is outside the model.
- `child.exec` itself is left out. Its standard output is an input. A failed command is `None`, and the command is then rejected, because the source has no handler for that case.
- The concurrency of `Promise.all` and `filterAsync` is modelled sequentially. Only the order of the results matters, and it is the input order.
- The VS Code APIs are not modelled: the configuration object, the global target and how notifications are rendered. Notifications are entries in the effect list. The user's choice in the warning is an input.
- `path.join` and `path.win32.join` are modelled as joining with a backslash. A base that is empty, or already ends with `\`, gets no extra separator. Other normalisation is not modelled, such as `..`, forward slashes and duplicate separators. The host is assumed to be Windows, where `path.join` is `path.win32.join`.
- An absent setting is excluded by a precondition. The source casts it to a string and calls `endsWith` on it, which throws.
- `src/extension.ts` (command registration and logging) is not part of this model. Neither is `src/exe-launcher.ts`, which spawns the editor and calls `getValidSdkPath`, a function this source file does not define.
- Resolver.GuessLeavesKindCorrect, Resolver.GuessIsIdempotent: these hold only when no workspace or folder value shadows the user setting for the two keys, and only when the unawaited `update` succeeds. The settings are one map in which a read sees the last write. In VS Code, `get` returns the effective value, where a workspace or folder value overrides the user value that `update` writes with the global target. With such an override, the next check still reads the old value, so `validatePaths` warns again and a second `guessPaths` scans and writes again.
- Resolver.GuessPaths: the detection loop sits in its own method, `Resolver.DetectInLibraries`, which the command calls. The statements are the same.
- A failed drive listing is not caught by `guessPaths`: the command is rejected and nothing is written. The model does the same; it does not turn the failure into the failure warning.
- Strings are sequences of `char`, which cannot hold an unpaired UTF-16 surrogate. JavaScript strings, and so Windows paths read by the extension, can contain one; such paths are outside the model.
- Settings changed by the user while the warning is open are not modelled. `guessPaths` re-reads the same settings that `validatePaths` checked.
