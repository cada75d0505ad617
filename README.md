# kraftkit ELF loader and parallel-progress process, in Dafny

This project models two parts of kraftkit, the Unikraft build tool:

- **The ELF loader application** (`elfloader/`). It describes a prebuilt ELF binary that runs on Unikraft's loader.
  - `NewELFLoaderFromOptions` builds a loader from functional options. It then derives the `UK_NAME` and `UK_BASE` configuration entries and the default output directory.
  - The loader answers queries: its `.config` path, the arguments for `make` (libc libraries first), its sorted library and target names, target lookup by name, its component list and its libraries.
- **One process of the parallel progress view** (`tui/paraprogress/process.go`). A process has an identifier drawn from a global counter.
  - It reacts to progress, status and window-size messages addressed to it and ignores everything else.
  - It collects the lines its job writes and shows the last five of them whenever it has neither succeeded nor reached full progress (pending, running or failed).

The model follows the form of the source:

- `Process` and the global identifier counter are classes. Their methods update fields in place.
- The loader's receivers are Go values, so the loader is a `datatype`. Its library map is a reference, `LibraryMap?`, because Go maps are shared on copy and may be nil.
- Loops over sequences and maps are `while` loops with invariants. Go's unordered map iteration is a choice of any remaining key, and the order actually taken is returned as a ghost sequence.
- Strings are sequences of `char` standing for Go bytes, so `len(s)` is `|s|`.
- The Go library calls the core relies on each have their own small module:
  - `GoStrings` for `strings.TrimSuffix`, `ReplaceAll("\r\n", "\n")`, `Split` and `Join`;
  - `GoSort` for `sort.Strings` over byte-wise order;
  - `GoFilepath` for `filepath.Base` and `Join`;
  - `MapUpdates` for in-order map updates, used by kconfig `Override`/`Set` and by the library merge.

Files: `wrappers.dfy`, `go_strings.dfy`, `go_sort.dfy`, `go_filepath.dfy`, `map_updates.dfy`, `paraprogress.dfy`, `elfloader.dfy`, `options.dfy`.

## Model

| member | source | states |
|---|---|---|
| Paraprogress.IdCounter.Next | tui/paraprogress/process.go:57-62 | the counter goes up by one and the new identifier is above every identifier issued before, so no two processes share one |
| Paraprogress.Process.constructor | tui/paraprogress/process.go:111-129 | a new process takes a fresh identifier from the counter, is pending with no progress, no error and no logs, and its name width is the name's length |
| Paraprogress.Process.StartMsg | tui/paraprogress/process.go:138-143 | the status message Start queues after the spinner tick announces this process as running, with no error; Update applied to it marks the process running and changes nothing else |
| Paraprogress.Process.RunJob | tui/paraprogress/process.go:146-164 | after the job the status is success exactly when it returned no error and failed otherwise; a status message carrying the error goes out only when a program is attached |
| Paraprogress.JobStatus | tui/paraprogress/process.go:147-151 | success iff the job returned no error, failure iff it returned one |
| Paraprogress.JobMessageSettles | tui/paraprogress/process.go:223-235 | the job's own status message, applied by Update, leaves the process finished: on success at full progress, on failure holding the error |
| Paraprogress.OnProgress | tui/paraprogress/process.go:171-180 | a progress message is sent iff a program is attached and the progress is not negative, and it carries this process's identifier and the progress unchanged |
| Paraprogress.Lines | tui/paraprogress/process.go:186-189 | one trailing newline is dropped, CRLF becomes LF, and the result is one more line than the remaining newlines; no line holds a newline, and joining the lines with newlines gives back the text |
| Paraprogress.LinesCount | tui/paraprogress/process.go:186-189 | text ending in a newline gives as many lines as it has newlines; other text gives one more |
| Paraprogress.Process.Write | tui/paraprogress/process.go:184-194 | the logs gain exactly the lines of the written text, at the end, and Write reports the full byte count and no error |
| Paraprogress.Step | tui/paraprogress/process.go:196-243 | the reference transition: progress and status messages for another identifier change nothing; progress is clamped to 1; success sets progress to 1; failure records the error; a window size sets the width; other messages change nothing; progress never rises above 1 |
| Paraprogress.Process.Update | tui/paraprogress/process.go:196-243 | the new state of the process is Step applied to its old state, and the class invariant (progress at most 1, log lines free of newlines) is kept |
| Paraprogress.ForeignMessagesIgnored | tui/paraprogress/process.go:204-227 | any run of progress and status messages addressed to other processes leaves the state as it was |
| Paraprogress.PercentStaysInRange | tui/paraprogress/process.go:209-215 | from progress in [0, 1], any run of messages with non-negative progress keeps it in [0, 1] |
| Paraprogress.Process.LogTail | tui/paraprogress/process.go:305-321 | while the process has neither succeeded nor reached full progress, the shown lines are the last min(5, number of logs) lines of the logs, in order; otherwise none are shown |
| ElfLoader.KConfigFile | elfloader/elfloader.go:116-124 | the path starts with `.config` joined to the working directory; it is exactly that iff no target is given, and otherwise continues with a dot and the base name of the target's kernel |
| ElfLoader.KConfigFileInPath | elfloader/elfloader.go:116-124 | for a clean working directory other than ".", the configuration file always lies strictly below the application's path |
| ElfLoader.LibcOrder | elfloader/elfloader.go:143-154 | the leading libc libraries name only present libraries, none twice |
| ElfLoader.TakeLibc | elfloader/elfloader.go:138-154 | the directories taken first are those of LibcOrder: musl, or else newlib followed by pthread-embedded if present; the copy left holds exactly the other libraries, with their values |
| ElfLoader.AppendRest | elfloader/elfloader.go:156-162 | every remaining library must be unpacked: the result is an error iff one is not, and the error is "cannot determine library … path without component source" naming a library that is not unpacked; otherwise each remaining library's directory is appended once, in iteration order |
| ElfLoader.LibraryDirs | elfloader/elfloader.go:132-162 | an error iff some library other than the leading libc ones is not unpacked, and the error names such a library; otherwise the directories are those of every library exactly once, libc first |
| ElfLoader.LibcComesFirst | elfloader/elfloader.go:143-154 | in any such listing musl's directory is first, or else newlib's is first and pthread-embedded's second |
| ElfLoader.MakeArgs | elfloader/elfloader.go:131-178 | the make arguments: output directory and application directory from the loader, the configuration path of KConfigFile, the target's name or empty, and library directories listing every library once with the libc rules above; an error iff some library other than the leading libc ones is not unpacked, naming such a library |
| ElfLoader.LibraryNames | elfloader/elfloader.go:363-372 | the names are exactly the keys of the library map, each once, in strictly ascending byte order |
| ElfLoader.TargetNames | elfloader/elfloader.go:374-383 | the names are the targets' names, as a multiset, in ascending byte order |
| ElfLoader.TargetByName | elfloader/elfloader.go:385-397 | an empty name is the "no target name specified in lookup" error; otherwise a target is found iff one has that name, and it is the first such, else the error is "unknown target: " and the name |
| ElfLoader.Components | elfloader/elfloader.go:399-417 | the Unikraft core first, then one component per library: every library of the loader appears, every later component is one of its libraries, and, in the iteration order taken, each library exactly once |
| ElfLoader.WithTarget | elfloader/elfloader.go:419-423 | the copy's only target is the given one, and every other field is the loader's |
| ElfLoader.WithTargetKeepsTheRest | elfloader/elfloader.go:419-423 | the copy shares the library map and has the same path and configuration file |
| ElfLoader.StoreAll | elfloader/elfloader.go:93-95 | each library of the core is stored under its name, in order, so a later one with the same name wins |
| ElfLoader.LibrariesAsWritten | elfloader/elfloader.go:85-98 | the source as written: the core's lookup error is returned; with a library map, it gains the core's libraries and is returned; with a nil map, any library at all makes the assignment panic |
| ElfLoader.Libraries | elfloader/elfloader.go:85-98 | corrected: on success the returned map holds the loader's libraries updated with the core's, by name and in order; the loader's own map is that map when it has one, and a fresh one replaces a nil map |
| ElfLoaderOptions.SettersChangeOnlyTheirField | elfloader/options.go:60-139 | each of the ten setter options succeeds, stores its value in its own field and leaves every other field as it was |
| ElfLoaderOptions.OverrideLastWins | elfloader/options.go:141-151 | after the configuration override a key holds the value of its last entry, and a key no entry names keeps its old value |
| ElfLoaderOptions.WithConfigurationOverrides | elfloader/options.go:141-151 | WithConfiguration succeeds, changes only the configuration, and changes it as OverrideLastWins says |
| ElfLoaderOptions.FirstErrorAborts | elfloader/options.go:30-34 | when the options before one succeed and that one fails, construction fails with that option's error wrapped in "could not apply option: " |
| ElfLoaderOptions.ApplyAllConcat | elfloader/options.go:30-34 | applying two runs of options in turn is applying their concatenation, and an error in the first run stops everything |
| ElfLoaderOptions.LastSetterWins | elfloader/options.go:30-34 | options apply in order: after a setter of a field, later options that leave that field alone keep the value it stored |
| ElfLoaderOptions.LaterNameWins | elfloader/options.go:30-34 | of two WithName options, the later one decides the name |
| ElfLoaderOptions.NewELFLoaderFromOptions | elfloader/options.go:24-58 | an option failure is returned as is. Otherwise: `UK_NAME` is set to the name iff the name is non-empty; without an output directory, the working directory comes from os.Getwd when also unset, a Getwd failure being the only other error, and the output directory is `build` joined to the working directory; `UK_BASE` is set to the core's source iff that is non-empty and a directory; every other key and field is as the options left it |
| ElfLoaderOptions.FillDefaults | elfloader/options.go:36-57 | the defaults after the options: a Getwd failure, when the working directory is needed and unset, is the only error; otherwise the directories are DefaultDirs', the configuration entries DefaultConfig's, and every other field is kept |
| ElfLoaderOptions.DefaultDirs | elfloader/options.go:40-49 | a set output directory keeps both directories; otherwise the working directory is kept, or taken from os.Getwd when unset (its error being the only failure), and the output directory is `build` joined to it |
| ElfLoaderOptions.DefaultConfig | elfloader/options.go:36-55 | `UK_NAME` holds the name iff that is non-empty, `UK_BASE` holds the core's source iff that is non-empty and a directory, and every other key keeps its value |
| ElfLoaderOptions.NameOnlyLoaderHasNilLibraries | elfloader/options.go:25-28 | a loader built from a name alone has a nil library map |
| ElfLoaderOptions.NilLibraryMapPanics | elfloader/elfloader.go:85-98 | on that loader, a core reporting one library makes the source's Libraries panic |
| ElfLoaderOptions.NilLibraryMapFixed | elfloader/elfloader.go:85-98 | on the same loader the corrected Libraries returns a map holding exactly the core's library |
| GoStrings.Split | tui/paraprogress/process.go:189 | one piece more than there are separators, no piece holds the separator, and joining the pieces with it gives the text back |
| GoStrings.SplitJoin | tui/paraprogress/process.go:189 | splitting the join of separator-free pieces gives back those pieces |
| GoStrings.ReplaceCRLFFacts | tui/paraprogress/process.go:189 | CRLF becomes LF: the number of newlines is kept, the text does not grow, and text without CR, or without a CR directly before an LF, is unchanged |
| GoStrings.ReplaceCRLFAppend | tui/paraprogress/process.go:189 | the rewrite of a concatenation is the concatenation of the rewrites, unless a CR ending the first part and an LF starting the second would form a pair |
| GoStrings.ReplaceCRLFSplice | tui/paraprogress/process.go:189 | each CRLF pair becomes one LF and the text on either side of it is rewritten on its own: the rewrite of p, CRLF, q is the rewrite of p, an LF, and the rewrite of q |
| GoStrings.TrimSuffix | tui/paraprogress/process.go:186 | with the suffix present, the result followed by the suffix is the input; otherwise the input is unchanged |
| GoSort.Sort | elfloader/elfloader.go:369 | sort.Strings: the result is sorted in byte order and is a permutation of the input |
| GoSort.SortedDistinctAscending | elfloader/elfloader.go:369 | a sorted list without repeats is strictly ascending |
| GoSort.LessTransitive | elfloader/elfloader.go:369 | byte-wise string order is transitive (with LessIrreflexive, LessAsymmetric and LessTrichotomy, a strict total order) |
| GoFilepath.Base | elfloader/elfloader.go:120 | the empty path gives "."; the base name is "/" exactly when the path is non-empty and made of slashes only; otherwise it is free of slashes and is the last element of the path once trailing slashes are removed: it ends that path, either as the whole of it or right after a slash |
| GoFilepath.Join | elfloader/elfloader.go:117 | the joined path ends with the element; an empty or "." directory gives the element alone; otherwise the path is the directory, then a slash exactly when the directory does not already end in one, then the element: it starts with the directory, ends with the element, a slash precedes the element, and its length is their lengths added, plus one for an added slash |
| MapUpdates.UpdateAllLastWins | elfloader/options.go:148 | after updating a map by pairs in order, each key holds the value of the reference LastValue: the last pair naming it, or its old value |
| MapUpdates.LastValueIsLastPair | elfloader/options.go:148 | LastValue is the value of the last pair naming the key, or the map's own value when no pair names it |

## Left out

- The QMP client for talking to a running VM is not part of this model; none of its code is among the modelled files.
- `New` (elfloader/elfloader.go:481-504) opens the binary, parses the ELF header and prints the machine name. This is I/O. It then only calls `NewELFLoaderFromOptions`, which is modelled.
- Build actions that run `make` or touch files are not modelled. This covers `Make`, `SyncConfig`, `DefConfig`, `Configure`, `Prepare`, `Clean`, `Properclean`, `Fetch`, `Build` and `IsConfigured` (an `os.Stat`). So are `KConfig`, `KConfigTree` and `PrintInfo`: `KConfig` merges the core's and the libraries' configuration maps through kconfig's `OverrideBy`, and `KConfigTree` parses through `kconfig.Parse`, both outside this model, and `PrintInfo` builds a display tree with the treeprint package. `Set`, `Unset`, `MergeTemplate`, `Template` and `Extensions` do nothing and are not modelled. The one-line getters are field reads. `Path` (elfloader/elfloader.go:65-67) is the member `ELFLoader.Path`, which `KConfigFileInPath` and `WithTargetKeepsTheRest` use.
- `View`'s rendering is not modelled: the spinner, the progress bar, the timer, widths, indentation and lipgloss styling. Only the rule for which log lines are shown is modelled (`LogTail`).
- The timer and spinner commands of `Update`, the `TickMsg` case and `Init` are bubbletea plumbing that does not change the modelled state.
- The mutex around the identifier counter is not modelled. The model is sequential.
- Progress values are `real`. Float rounding and NaN are not modelled.
- Go's map iteration order is unspecified. The model lets any order happen and states its results for the order it took, returned as a ghost sequence.
- `core.MakeDelimeter` is defined outside these files. `LibraryDirs` is kept as the list of directories rather than their joined string.
- The constants `.config` (`kconfig.DotConfigFileName`), `build` (`unikraft.BuildDir`), `UK_NAME` and `UK_BASE` come from packages outside these files. They are used by name.
- The semantics of kconfig `KeyValueMap.Set` and `Override` come from a package outside these files. They are modelled as storing each entry in order, so the last entry for a key wins. A nil `*KeyValue` entry is not modelled.
- ElfLoaderOptions.FillDefaults: computes the directories before it sets the configuration entries, while the source sets `UK_NAME` first. The outcome is the same, because a Getwd failure discards the loader.
- Options update the loader under construction in place, through a `*ELFLoader`. They are modelled as functions from loader to loader, which has the same effect because that loader is not shared before it is returned.
- `os.Getwd` is a parameter (its result or error). `os.Stat(...).IsDir()` on the core's source is a predicate parameter, and a failed stat counts as "not a directory".
- Library values are stored as values. A nil `*LibraryConfig` stored under a key, which the source's `!= nil` tests would treat as absent, is not modelled.
- The type assertion `targ.(target.TargetConfig)` in `WithTarget` cannot fail in the model, which has a single target type.
- config/config.go is not part of this model.
- ElfLoader.KConfigFileInPath: holds only for a clean working directory other than ".". Go's `filepath.Join` cleans its result, so for an unclean directory such as `a/../b` the configuration path need not start with it.
- ElfLoader.LibrariesAsWritten, ElfLoader.StoreAll, ElfLoader.Libraries: the core's library list is taken as a sequence. It stands for whatever order the core's own map iteration produces, so the results hold for every iteration order.
- GoFilepath.Join: does not apply `filepath.Clean` to the result. It agrees with Go when the directory is already clean and does not end in a slash.
- Paraprogress.IdCounter.Next: the counter is an unbounded integer, so the wrap-around of Go's `int` after 2^63 identifiers is not modelled.
- Paraprogress.Process.Write: `Write` and `Update` require the class invariant (progress at most 1, log lines free of newlines). The constructor establishes it and every method keeps it.

## Findings

| source | as written | input that shows it | evidently intended | confidence | as-written member | corrected member |
|---|---|---|---|---|---|---|
| elfloader/elfloader.go:85-98 | `Libraries` stores the core's libraries into `elfloader.libraries`. `NewELFLoaderFromOptions` leaves that map nil unless `WithLibraries` was given, and assigning into a nil Go map panics | a loader built with only `WithName("helloworld")`, whose Unikraft core reports one library `lwip`: the first assignment panics with "assignment to entry in nil map" | return a map holding the loader's libraries, if any, together with the core's, as for a loader that has a map | medium, not executed | ElfLoader.LibrariesAsWritten, ElfLoaderOptions.NilLibraryMapPanics | ElfLoader.Libraries, ElfLoaderOptions.NilLibraryMapFixed |
