# A model of the Promise command driver

The `promise` command drives a compiler: it loads module graphs, fetches and publishes
toolchain files that many processes share, compiles IR in parallel, runs test binaries and
reads back what they print. This project models that orchestration in Dafny and proves what
it promises. Parsing, checking, code generation, tools and the network are not modelled:
their results are inputs, or steps that may go either way.

The modules, by what they model:

- `WindowsQuoting`: the response-file quoting, against the tokenizer LLVM's tools use on
  Windows, written as a state machine of its own.
- `ModulePaths`, `CommitPins`, `ModuleGraph`, `ModuleWalk`, `ModuleLoader`: the recursive
  module loader. `ModuleGraph` has the import graph given by resolution, pins and
  replacements, `ModuleWalk` the same load as a function of pins, order and resolved remotes,
  with what makes it succeed. `ModuleLoader` is the code: a class with the loader's maps,
  stack and order, whose methods are proved against both.
- `ViewPublish`, `ExtractPublish`, `AtomicReplace`: three publishing protocols as state
  machines over an abstract file system, for any number of processes and, where a process
  can die between two steps, with crashes.
- `SeparateCompile`, `BackendJobs`: the concurrent separate compilation, goroutine steps
  interleaved freely, with cache outcomes, failures and backend slots; and the two-level
  budget of backend processes.
- `TestOutcome`, `TestReports`, `CheckProtocol`: what a child prints and what its parent
  reads, for tests and for `promise check`, character by character; `TestReports` follows
  single lines from the test binary to the totals.
- `EpochCompat`: the memoised compatibility verdict over a pin graph that may be cyclic, and
  the walk back over versions.
- `Renderer`, `Stress`, `CacheKeys`, `UnicodeTables`: the progress renderer on a terminal
  row, the adaptive stress schedule, the binary cache keys, the Unicode table generator.
- `Text`, `Wrappers`: lines, white space, decimal numbers, options, results and a measure.

`dafny verify dfyconfig.toml` checks everything.

## What the model found

Where the code and what is written about it differ, the model follows the code.

- A module's own `[require]` table is merged after the module has loaded, so it never helps
  the module's own imports, while `docs/module-system.md` (lines 966-1020) says a project need
  not declare transitive dependencies. `ModuleWalk.OwnTableComesTooLate` says the table makes
  no difference to any of them; `ModuleWalk.LatePinFails` is a project that fails for it;
  `ModuleWalk.UsesLoadExactly` and `ModuleWalk.RemoteLoadsExactly` say exactly when imports
  do load: each must resolve under the pins effective when it is reached.
- A cycle report is built from import spellings, not directories, so it can start at a module
  that is not on the cycle; the comment at `compiler/cmd/promise/main.go:8363` calls that case
  impossible: `ModuleLoader.CycleReportRightExactly`, `ModuleLoader.CycleReportMayNameABystander`.
- Root pins in `[require.NAME]` sections do not win over transitive ones:
  `CommitPins.NamedRootPinConflicts`.
- With cyclic pins a rejected verification can leave a wrong acceptance in the cache:
  `EpochCompat.CycleLeavesWrongAcceptance`. It can exactly where two different modules reach
  each other: `EpochCompat.CacheStaysAccurateExactly`. From an accurate cache the verdict
  itself is exact on every graph: `EpochCompat.VerdictExact`. A walk back over versions can
  pick one that does not pass: `EpochCompat.WalkBackMayPickWrong`.
- A view found with every file, one of them cut short, is taken for complete:
  `ViewPublish.SafeStartsExactly`.
- A source directory with newlines can share its cache key:
  `CacheKeys.SourceDirCollidesExactly`.
- The publish back-off ends at 160 ms and 3035 ms in all; its comment says 100 ms and about
  2 s: `ExtractPublish.SleepSchedule`.
- A NUL outside quotes splits an argument of a response file: `WindowsQuoting.RoundTripExactly`.
- A transient progress line drawn behind an unfinished line is not erased:
  `Renderer.LeftBehindExactly`.
- The closing line of a test run counts a file whose crash came at shutdown twice:
  `TestOutcome.FilesCounted`, `TestOutcome.CrashedLateExists`.
- A unit name that ends in a carriage return, or holds a newline, cannot be reported as
  checked: `CheckProtocol.UnreadableFails`.

## Model

| member | source | states |
|---|---|---|
| WindowsQuoting.QuoteArg | compiler/cmd/promise/main.go:6434-6459 | Quotes one argument with a pending-backslash counter; proved equal to the escaped form the tokenizer lemmas are about |
| WindowsQuoting.PlainExactly | compiler/cmd/promise/main.go:6435-6437 | An argument is written as it is if and only if it is not empty and has no white space and no quote in it |
| WindowsQuoting.WriteResponseText | compiler/cmd/promise/main.go:6471-6480 | Writes the arguments of a response file one to a line, each quoted |
| WindowsQuoting.ReadEscaped | compiler/cmd/promise/main.go:6441-6458 | A Windows tokenizer inside quotes reads an escaped argument literally, backslash runs and quotes included, whatever backslashes are pending |
| WindowsQuoting.RoundTrip | compiler/cmd/promise/main.go:6434-6480 | For every list of NUL-free arguments, tokenizing the response text gives exactly that list |
| WindowsQuoting.RoundTripExactly | compiler/cmd/promise/main.go:6434-6480 | For arguments with NULs too: the round trip holds if and only if every argument that holds a NUL also holds a character that makes it quoted |
| WindowsQuoting.ResponseTextInjective | compiler/cmd/promise/main.go:6471-6480 | Different NUL-free argument lists never make the same response file |
| ModulePaths.LocalIdentityInjective | compiler/cmd/promise/main.go:7704-7714 | Two clean directories with one local identity are one directory, inside the project or outside |
| ModulePaths.LocalIdentityIsLocal | compiler/cmd/promise/main.go:7704-7714 | A local identity starts with ./ or with a slash, so it is never the identity of a remote or a catalog name that starts with neither |
| ModulePaths.InsideExactly | compiler/cmd/promise/main.go:7704-7712 | Which directories get a project-relative name: those below the root, except under a first component that starts with two dots |
| ModulePaths.ResolveRel | compiler/cmd/promise/main.go:7733-7742 | A relative spelling resolves to the directory it was made from |
| ModulePaths.ResolveAbsPath | compiler/cmd/promise/main.go:7733-7742 | So does an absolute spelling, from any base |
| ModulePaths.ResolveIsClean | compiler/cmd/promise/main.go:7733-7742 | Whatever the spelling, an import resolves to a clean directory |
| ModulePaths.UnderBelow | compiler/cmd/promise/main.go:7987-7993 | A subdirectory goes below its base component by component, and an empty one is the base |
| CommitPins.MergeSucceedsExactly | compiler/cmd/promise/main.go:8257-8287 | Merging a require table fails exactly when two different pins meet on one normalised URL that the root does not pin |
| CommitPins.MergedPins | compiler/cmd/promise/main.go:8257-8287 | On success the effective pins are the old ones and the ones the entries name, nothing else |
| CommitPins.MergeOrderIrrelevant | compiler/cmd/promise/main.go:8257-8287 | The verdict, and the pins on success, do not depend on the order the require map is walked in |
| CommitPins.MergeExtends | compiler/cmd/promise/main.go:8257-8287 | A pin once effective keeps its value, even when the merge fails |
| CommitPins.TopLevelPinsStand | compiler/cmd/promise/main.go:8263-8287 | Merging never changes, removes or adds a pin for a URL in the root require table, whether it succeeds or stops at a conflict |
| CommitPins.NamedRootPinConflicts | compiler/cmd/promise/main.go:8277-8287 | A pin from a named root section has no such priority: a different transitive pin is an error |
| ModuleGraph.RemoteTargetExactly | compiler/cmd/promise/main.go:7981-8024 | If an entry is the first of [replace] whose key normalises to the URL, the remote is at its path below the root, with the subdirectory, whatever the pins; if none does, at the checkout of its effective pin, or nowhere |
| ModuleGraph.CatalogTargetExactly | compiler/cmd/promise/main.go:8055-8111 | The same of a catalog name, matched as it is; without a replacement it is where the catalog has it, unless it has a [require] table |
| ModuleGraph.ImportMeans | compiler/cmd/promise/main.go:8303-8349 | What each form of import means: a path from the importing directory, a URL, a [require.NAME] section with its subdirectory, or a catalog name |
| ModuleGraph.ObstructedBack | compiler/cmd/promise/main.go:8303-8349 | What obstructs an imported module obstructs the importer |
| ModuleGraph.PostOrderAppend | compiler/cmd/promise/main.go:7944-7962 | Appending a new module whose imports are all listed keeps the list a post-order, without duplicates |
| ModuleGraph.PathDescends | compiler/cmd/promise/main.go:7944-7962 | Along any import path from a listed module every module is listed, strictly earlier |
| ModuleGraph.PostOrderNotBlocked | compiler/cmd/promise/main.go:7731-7963 | A listed module reaches nothing unsound and no cycle |
| ModuleWalk.UsesLoadExactly | compiler/cmd/promise/main.go:8303-8349 | A list of imports loads exactly when each of them, at every position, loads in its turn: it resolves under the pins its predecessors left, its target loads, and a remote not met before then has a table that does not conflict |
| ModuleWalk.DirLoadsExactly | compiler/cmd/promise/main.go:7731-7963 | A directory not loaded yet loads exactly when it is a sound module, not being loaded already, whose imports each load in turn |
| ModuleWalk.OwnTableComesTooLate | compiler/cmd/promise/main.go:8034-8041 | Loading a module, every one of its imports included, comes out the same whatever its own require table holds: success, pins, order and resolved remotes |
| ModuleWalk.RemoteLoadsExactly | compiler/cmd/promise/main.go:8019-8041 | A remote not loaded before loads exactly when it would with an empty table and its table then does not conflict with the pins effective after its imports |
| ModuleWalk.LatePinFails | compiler/cmd/promise/main.go:8034-8041 | A project whose root pins a parser, whose own table pins the tokenizer it imports: taking that table over would succeed, and the load fails |
| ModuleWalk.PinnedInTimeLoads | compiler/cmd/promise/main.go:8034-8041 | The same project with both pinned by the root is settled, sound and acyclic, its tables fit, and it loads |
| ModuleWalk.SettledWorldExists | compiler/cmd/promise/main.go:7564-7697 | So there is such a world of two modules, under a normaliser that leaves the empty text and local paths as they are |
| ModuleWalk.UsesReach | compiler/cmd/promise/main.go:7944-7962 | What a load adds to the order can be reached from the imports it was given |
| ModuleWalk.RemotesHeld | compiler/cmd/promise/main.go:8001-8041 | After a load the pins of every table of a module imported as a remote are effective, but for URLs the root pins |
| ModuleWalk.SettledLoadsExactly | compiler/cmd/promise/main.go:7564-7697 | Where everything reachable resolves under the first pins, the root imports load if and only if the graph is sound and acyclic and no two tables of modules imported as remotes name different pins, nor one and the first pins |
| ModuleWalk.SoundnessStays | compiler/cmd/promise/main.go:7967-8042 | There the pins merged on the way change nothing: the graph is sound and acyclic under them if and only if it was under the first |
| ModuleLoader.Loader.Load | compiler/cmd/promise/main.go:7731-7795 | One import: success lists exactly the directory it resolves to; failure means something unsound, clashing or on the visit stack is reachable, or a given name passes for a local one; a loaded directory is answered with the loader unchanged; a directory being loaded is reported as a cycle, the loader unchanged; the outcome, pins, order and resolved remotes are those of the walk |
| ModuleLoader.Loader.LoadFresh | compiler/cmd/promise/main.go:7796-7963 | Loading a new directory does what the walk does, with the push and the pop of the visit stack around it |
| ModuleLoader.Loader.LoadDeps | compiler/cmd/promise/main.go:8303-8349 | All imports of a module, in order, stopping at the first failure, as the walk does; success lists every target, failure means some import fails |
| ModuleLoader.Loader.LoadRemote | compiler/cmd/promise/main.go:7967-8042 | A remote import does what the walk does; success lists the directory its replacement or pin names; failure means it has none, or that directory is obstructed, or a given name passes for a local one |
| ModuleLoader.Loader.LookupReplace | compiler/cmd/promise/main.go:7984-7986 | The first [replace] entry whose key normalises to the URL gives the path; none is found exactly when no key does |
| ModuleLoader.Loader.Locate | compiler/cmd/promise/main.go:7981-8024 | Where a remote is: the directory its replacement or effective pin names, noted when it is a pin; an error exactly when there is none |
| ModuleLoader.Loader.LoadAs | compiler/cmd/promise/main.go:8026-8041 | A remote loaded from its directory goes by its URL, and its subdirectory if it has one, and its pins are taken over |
| ModuleLoader.SubdirsApart | compiler/cmd/promise/main.go:7967-7972 | Two modules of one repository never go by one name |
| ModuleLoader.Loader.LoadCatalog | compiler/cmd/promise/main.go:8047-8120 | A catalog import, memoised by name, does what loading its directory does, and a module loaded so for the first time goes by the name; failure means it has none, or that directory is obstructed, or a given name passes for a local one |
| ModuleLoader.Loader.OverrideIdentity | compiler/cmd/promise/main.go:8246-8252 | The module object and the identity index are renamed together; allModInfos and depOrder keep the name it was loaded under |
| ModuleLoader.Loader.MergeTransitivePins | compiler/cmd/promise/main.go:8257-8274 | The loader state after a merge: the pins of the pure merge, and the clash it met |
| ModuleLoader.RegisterOne | compiler/cmd/promise/main.go:7944-7962 | A newly loaded directory keeps allModInfos keyed by exactly the entries of depOrder, each once |
| ModuleLoader.LoadProject | compiler/cmd/promise/main.go:7564-7697 | A whole load terminates with an empty visiting set and does what the walk does; success yields a duplicate-free post-order of exactly the reachable directories, and only where everything reachable is sound and acyclic; where everything reachable resolves under the first pins, and no given name reads as a local path, it succeeds exactly when the graph is sound and acyclic and the tables that are read fit |
| ModuleLoader.BuildCyclePath | compiler/cmd/promise/main.go:8353-8371 | The loop that reports a cycle: from the first occurrence of the spelling, or the whole stack when it does not occur |
| ModuleLoader.CycleReportRightExactly | compiler/cmd/promise/main.go:8353-8371 | The report is the cycle if and only if the spelling that closed it first occurs where the directory was entered, or occurs nowhere and the cycle is the whole stack |
| ModuleLoader.CycleReportMayNameABystander | compiler/cmd/promise/main.go:8353-8371 | Three sibling modules whose report starts at a module that is not on the cycle |
| ViewPublish.StepInv | compiler/cmd/promise/llvm_cas.go:87-283 | Every step of every process keeps the protocol invariant: the lock holder is the only one between its check and its release |
| ViewPublish.MutualExclusion | compiler/cmd/promise/llvm_cas.go:164-283 | No two processes are in the locked part |
| ViewPublish.CompleteViewUntouched | compiler/cmd/promise/llvm_cas.go:448-478 | No step of any process removes or changes a complete view |
| ViewPublish.CompleteStays | compiler/cmd/promise/llvm_cas.go:448-478 | In every run, once the view is complete it is complete for good |
| ViewPublish.AnswerIsSound | compiler/cmd/promise/llvm_cas.go:497-528 | A process that returns success, by the lock-free file-by-file check or after populating, leaves a view that is complete then and ever after |
| ViewPublish.SafeStartsExactly | compiler/cmd/promise/llvm_cas.go:497-528 | All answers are sound if and only if the view found at the start is not a leftover that has every file, some not whole: the check asks for names only |
| ViewPublish.NeverHalfBuilt | compiler/cmd/promise/llvm_cas.go:448-478 | A view that was absent or incomplete only ever loses files until one rename completes it |
| ViewPublish.StepShrinksOrCompletes | compiler/cmd/promise/llvm_cas.go:448-478 | One step either leaves the view a sub-folder of what it was or makes it complete |
| ViewPublish.CrashLeavesDebrisOnly | compiler/cmd/promise/llvm_cas.go:448-478 | A crash changes nothing but its process and the lock: what it leaves is a staging sibling |
| ViewPublish.FailureHasCause | compiler/cmd/promise/llvm_cas.go:448-478 | A process answers failure only after a step of its own that failed: the lock, populating, or the last rename |
| ViewPublish.WithoutFailureComplete | compiler/cmd/promise/llvm_cas.go:448-478 | So one that returns without such a step answers success, with the view complete |
| ViewPublish.NeverStuck | compiler/cmd/promise/llvm_cas.go:164-283 | A live process that is not kept waiting always has a step that is no failure and brings it nearer to its answer |
| ViewPublish.SucceedsAlone | compiler/cmd/promise/llvm_cas.go:448-478 | Left alone, with the lock its own or free and nothing in the way of its rename, it comes to success with the view complete |
| ViewPublish.StagingCleared | compiler/cmd/promise/llvm_cas.go:448-478 | A staging directory is left behind only by a process that died or whose removal of it stopped part-way |
| ExtractPublish.NextInv | compiler/cmd/promise/main.go:8131-8242 | Steps of extractors, crashes, and empty leftovers made by others keep the invariant |
| ExtractPublish.NeverPartial | compiler/cmd/promise/main.go:8131-8242 | In every run the cache directory is absent, empty or holds every file, and once populated stays so |
| ExtractPublish.NilMeansComplete | compiler/cmd/promise/main.go:8192-8242 | A nil return means the directory holds every file then and ever after |
| ExtractPublish.OwnStepsRunOut | compiler/cmd/promise/main.go:8131-8242 | Every step of an extractor, from the fast path to the discarded staging directory, leaves it less to do |
| ExtractPublish.OthersAddNone | compiler/cmd/promise/main.go:8131-8242 | No step of another extractor, crash or leftover adds to what an extractor has left to do |
| ExtractPublish.NeverStuck | compiler/cmd/promise/main.go:8131-8242 | Until it returns an extractor has a step to take that is neither a crash nor a failed extraction |
| ExtractPublish.FailureHasCause | compiler/cmd/promise/main.go:8131-8242 | An extractor fails only if its extraction did, or after all twenty-four renames have |
| ExtractPublish.SucceedsAlone | compiler/cmd/promise/main.go:8131-8242 | Left alone, with an attempt left or the module there, it succeeds with every file in place |
| ExtractPublish.StagingCleared | compiler/cmd/promise/main.go:8131-8242 | A staging directory is left behind only by an extractor that died |
| ExtractPublish.PublishExtractedModule | compiler/cmd/promise/main.go:8218-8242 | The retry loop: it stops at the first attempt that settles, gives up only after all twenty-four, and reaps as often as it met an empty destination |
| ExtractPublish.SleepSchedule | compiler/cmd/promise/main.go:8205-8242 | The back-off ceiling is 160 ms and a loop that gives up has slept 3035 ms |
| AtomicReplace.RenameRetrying | compiler/cmd/promise/stub_embed.go:162-179 | The retry loop: it ends at the first deciding attempt or the tenth, the last attempt is the whole answer, and a non-retryable error is returned whatever the destination holds |
| AtomicReplace.StepInv | compiler/cmd/promise/stub_embed.go:95-258 | Temporary names are held by one call each and exist only while held |
| AtomicReplace.NoDebris | compiler/cmd/promise/stub_embed.go:95-258 | In every run, when no call is under way no temporary name is left but those of calls that crashed |
| AtomicReplace.NeverAbsentNeverPartial | compiler/cmd/promise/stub_embed.go:95-258 | Once the destination is there and whole it is never absent or partial again |
| AtomicReplace.NilMeansHeld | compiler/cmd/promise/stub_embed.go:204-258 | A call that succeeds became successful by a step of its own, and right after that very step the destination held what it was asked for |
| AtomicReplace.PeersAllSucceed | compiler/cmd/promise/stub_embed.go:204-258 | No call fails, of calls that all want the same entry, in every schedule whose failed renames are races lost to a peer and whose taken names stay below the limit |
| AtomicReplace.StepsRunOut | compiler/cmd/promise/stub_embed.go:95-258 | Every step of a call leaves it less to do and leaves the others as much as they had |
| AtomicReplace.NeverStuck | compiler/cmd/promise/stub_embed.go:95-258 | Until it returns a call has a step to take that is no error, no crash and no lost race: so all those calls do succeed |
| AtomicReplace.FailureHasCause | compiler/cmd/promise/stub_embed.go:95-258 | Whatever the others ask for, a call fails only after an error of its own, the eighth name taken, a rename error that is not retryable, or the tenth that is with the destination not as wanted |
| AtomicReplace.RightIsLeftAlone | compiler/cmd/promise/stub_embed.go:95-160 | Where the destination is as wanted all along, a call about to look does no more than look, and succeeds |
| SeparateCompile.TaskInv | compiler/cmd/promise/main.go:3635-3705 | A step of any compiling goroutine keeps the invariant: every temporary file has one holder, every reported object is listed once, slots are counted |
| SeparateCompile.MainInv | compiler/cmd/promise/main.go:3621-3844 | So does a step of the main thread: the main compile, the joins, the lookups of precached instances, the link, the deferred removals |
| SeparateCompile.DeferredHeld | compiler/cmd/promise/main.go:3707-3716 | When the goroutines have joined, the deferred removals are for exactly the temporary files then held, cached objects never among them |
| SeparateCompile.NothingLeftBehind | compiler/cmd/promise/main.go:3577-3844 | In every run, when the call returns the temporary files are those that were there before, whatever failed |
| SeparateCompile.CachedNeverRemoved | compiler/cmd/promise/main.go:3707-3716 | In every run no cached object is ever removed |
| SeparateCompile.OutcomeExact | compiler/cmd/promise/main.go:3714-3716 | A compile error is returned if and only if some compile failed, and it names one that did |
| SeparateCompile.LinkDecides | compiler/cmd/promise/main.go:3821-3844 | Success and link failure are what an earlier link step said |
| SeparateCompile.FirstErrorStays | compiler/cmd/promise/main.go:3665-3673 | The first failure reported is the one kept |
| SeparateCompile.LinkedObjects | compiler/cmd/promise/main.go:3807-3819 | At the link every module, every generated instance and every precached instance found is present once, as the file its IR compiles to |
| SeparateCompile.LinkedWhateverTheSchedule | compiler/cmd/promise/main.go:3807-3819 | The linked multiset of names is given by the program and the cache hits, not by the interleaving |
| SeparateCompile.PreloadDecides | compiler/cmd/promise/main.go:3752-3761 | A precached instance is a hit exactly when its object is in the cache at the one moment it is looked up |
| SeparateCompile.CachedIsLinked | compiler/cmd/promise/main.go:3752-3761 | So one whose object was cached when the call began is linked, and one that is linked is in the cache |
| SeparateCompile.CachedIsNotCompiled | compiler/cmd/promise/main.go:3663-3675 | What was cached when the call began is not compiled again: it takes no slot and makes no file |
| SeparateCompile.SavedForLater | compiler/cmd/promise/main.go:3684-3701 | A compiled object is in the cache afterwards, as what its IR compiles to, unless saving it was skipped |
| SeparateCompile.WithinSlots | compiler/cmd/promise/backend_jobs.go:45-51 | Never more than the limit of guarded backend processes, and none of them during the unguarded main compile |
| SeparateCompile.StepGetsOn | compiler/cmd/promise/main.go:3577-3844 | Every step of the call moves to a later phase or leaves less to do in this one |
| SeparateCompile.NeverStuck | compiler/cmd/promise/backend_jobs.go:45-51 | With at least one slot the call always has a step to take that is not a failure, nor a skipped save of what can be cached: no deadlock on the slots |
| BackendJobs.SharesFit | compiler/cmd/promise/backend_jobs.go:57-66 | The children's shares fit the budget, or are one each, and a larger share would not have fitted |
| BackendJobs.ChildTakesItsShare | compiler/cmd/promise/backend_jobs.go:28-35 | A child given its share in the environment variable reads back exactly that share |
| BackendJobs.TreeWithinBudget | compiler/cmd/promise/main.go:2772-2798 | Whatever the concurrent children of a multi-file run are doing, the tree has at most as many backend processes as the budget or as there are children |
| TestOutcome.PrintChildTestOutput | compiler/cmd/promise/main.go:1617-1674 | The printing loop: the counts, the reported names, whether a summary was seen and the text printed, for every output |
| TestOutcome.UnreportedTests | compiler/cmd/promise/test_json.go:150-159 | Exactly the eligible roster tests without a result line |
| TestOutcome.FieldsReadBack | compiler/cmd/promise/main.go:1580-1587 | Every printed summary field is read back in its own place and a field left out is read as left out, for all values |
| TestOutcome.SummaryReadsBack | compiler/cmd/promise/main.go:1580-1587 | Any summary with any of the nine fields is read back field for field |
| TestOutcome.TruncatedReadsBack | compiler/cmd/promise/main.go:1873-1888 | In particular the summary of a batch cut short |
| TestOutcome.ExitTellsSuccess | compiler/cmd/promise/main.go:1721-1729 | The status the parent sees is zero exactly when the test process succeeded and nothing was cut short, on Unix and Windows; otherwise a code is passed on but for those tools cannot take |
| TestOutcome.RunTestBinary | compiler/cmd/promise/main.go:2110-2184 | What a child prints and exits with, over its branches: never alive, timed out, memory limit, incomplete, plain |
| TestOutcome.ScanFile | compiler/cmd/promise/main.go:2943-3023 | The parent counts every line for what it is; passing over context lines loses nothing |
| TestOutcome.SyntheticRecognised | compiler/cmd/promise/main.go:1696-1696 | The parent recognises the synthetic line of a cut run, whatever the test name |
| TestOutcome.CutShortNeverPasses | compiler/cmd/promise/main.go:3040-3083 | Whatever was printed before, the parent counts the file of a cut run as failed, never skipped and never a shutdown crash, and reads back its counts |
| TestOutcome.RunTestFiles | compiler/cmd/promise/main.go:2913-3329 | The loop over all files: totals and exit code |
| TestOutcome.RunSucceedsExactly | compiler/cmd/promise/main.go:3323-3329 | A multi-file run exits zero if and only if every file is clean |
| TestOutcome.CutShortFailsTheRun | compiler/cmd/promise/main.go:3323-3329 | So one cut run anywhere makes it exit non-zero |
| TestOutcome.FilesCounted | compiler/cmd/promise/main.go:3047-3076 | The file count of the closing line counts a shutdown-crash file twice; the failed files are counted once |
| TestOutcome.CrashedLateExists | compiler/cmd/promise/main.go:3047-3063 | There is such a file: one test passes, the summary says so, and the process fails on its way out |
| TestReports.ReportRead | compiler/cmd/promise/main.go:1626-1638 | The child takes a line with a word, a time and a name for that result of that test |
| TestReports.ChildCountsExactly | compiler/cmd/promise/main.go:1626-1638 | Its counts are the numbers of lines that report a pass, a failure, a leak and a timeout |
| TestReports.MissingIsNumber | compiler/cmd/promise/test_json.go:150-159 | Every eligible test that did not report is counted |
| TestReports.FirstMissing | compiler/cmd/promise/test_json.go:150-159 | The first of them in the roster is the first in the list |
| TestReports.SkippedIsNumber | compiler/cmd/promise/test_json.go:163-172 | The skipped count is the number of excluded tests |
| TestReports.CutNamesFirst | compiler/cmd/promise/main.go:1689-1700 | The line of a run cut short names the first test that never reported, or what was under way |
| TestReports.Reprinted | compiler/cmd/promise/main.go:1662-1672 | Every line but empty ones, the memory-limit message and summaries is printed again in its place, result lines with the suffix |
| TestReports.SuffixedExactly | compiler/cmd/promise/main.go:1678-1687 | The suffix goes on the six kinds of result lines and on no others |
| TestReports.RewrittenReadsBack | compiler/cmd/promise/main.go:1639-1660 | The summary a child reprints carries every count of the one it read, and the parent reads them |
| TestReports.SummaryReprinted | compiler/cmd/promise/main.go:1639-1660 | It is printed in its place, unless the run was cut short by its time |
| TestReports.NoStaleSummary | compiler/cmd/promise/main.go:1641-1643 | Of a run cut short by its time no summary of the test binary is left for the parent to find |
| TestReports.SpelledSummaryRead | compiler/cmd/promise/main.go:1580-1587 | A summary with all nine fields spelled out is read field by field |
| TestReports.ResultLineRead | compiler/cmd/promise/main.go:2856-2861 | The parent takes a pass, FAIL or LEAK line with a time for what it says |
| TestReports.OtherLineRead | compiler/cmd/promise/main.go:2858-2860 | And every TIMEOUT, MEMLIMIT and INCOMPLETE line, with a time or without |
| TestReports.TallyNumbers | compiler/cmd/promise/main.go:2943-3023 | The parent counts are the numbers of lines of each kind |
| TestReports.TallySummary | compiler/cmd/promise/main.go:2943-3023 | And its summary is that of the last line that reads as one |
| TestReports.BadLineFailsFile | compiler/cmd/promise/main.go:3047-3083 | A failed file with a bad result line anywhere counts as failed and is no shutdown crash, whatever else it printed |
| TestReports.LeftOutExactly | compiler/cmd/promise/main.go:2903-2908 | Left out are exactly the files whose last line says there is nothing to run |
| TestReports.FailureSeen | compiler/cmd/promise/main.go:3040-3083 | A test that failed, leaked or timed out fails its file: from its result line through the printing child to the verdict, whatever was printed around it |
| TestReports.AccountedExactly | compiler/cmd/promise/main.go:2899-3120 | What a file adds to the totals, from the numbers of its lines and its last summary |
| TestReports.SummaryAdds | compiler/cmd/promise/main.go:3055-3075 | A summary adds each number it prints under its own heading |
| CheckProtocol.CheckUnitRun.ReportFailure | compiler/cmd/promise/check.go:92-101 | Prints the failure line at most once, with at least one error |
| CheckProtocol.CheckUnitRun.ReportSuccess | compiler/cmd/promise/check.go:106-113 | Prints the ok or warn line |
| CheckProtocol.CheckUnitRun.CountDiagnostics | compiler/cmd/promise/check.go:78-82 | Adds n errors and nothing else |
| CheckProtocol.LinesSpelled | compiler/cmd/promise/check.go:106-129 | The ok, warn and FAIL lines spelled out, with singular and plural counts |
| CheckProtocol.ParseCheckResult | compiler/cmd/promise/check.go:500-531 | The parser: the first result line speaks, and without one the unit has failed with one error |
| CheckProtocol.DetailRead | compiler/cmd/promise/check.go:117-129 | The count clause is read back as printed for all counts |
| CheckProtocol.RoundTrip | compiler/cmd/promise/check.go:500-531 | For every unit name on one line, parentheses and blanks included, the parent reads the outcome and both counts that were printed |
| CheckProtocol.UnreadableFails | compiler/cmd/promise/check.go:500-531 | Whatever was printed before, a name with a newline, or one ending in a carriage return on an ok line, makes the unit a failure, never clean |
| CheckProtocol.SumUp | compiler/cmd/promise/check.go:440-490 | Every unit is counted once and the sweep fails exactly when some unit did |
| EpochCompat.Verifier.VerifyModule | compiler/cmd/promise/verify_compat.go:71-138 | Terminates on every pin graph, leaves visiting as it was, and computes the verdict and the cache of the pure verification |
| EpochCompat.Verifier.VerifyDeps | compiler/cmd/promise/verify_compat.go:178-204 | The require pins, then the named ones, stopping at the first that does not verify |
| EpochCompat.Verifier.ResolveEpochAware | compiler/cmd/promise/verify_compat.go:357-444 | Each of its branches: an explicit reference, the walk over candidates, tags but no candidate, the fallback; from an accurate cache the reference or the fallback is picked exactly if it passes |
| EpochCompat.VerifyPinsConcat | compiler/cmd/promise/verify_compat.go:178-204 | Verifying two lists of pins one after the other is verifying their concatenation |
| EpochCompat.FollowedExactly | compiler/cmd/promise/verify_compat.go:178-204 | A pin is followed exactly if it is a [require] entry with a commit, at the root of its repository, or a named one with url and commit, at its subdirectory |
| EpochCompat.AnswerCoversManifest | compiler/cmd/promise/verify_compat.go:100-138 | From an accurate cache a module is accepted if and only if its gate passes and every such entry passes with all it pins |
| EpochCompat.RejectedForRefusal | compiler/cmd/promise/verify_compat.go:82-104 | A rejection goes back to something that was refused, never to what could not be fetched or run, and what could not be fetched is never recorded |
| EpochCompat.Candidates | compiler/internal/module/resolve.go:95-106 | The tags for no newer epoch than the project, newest first, each as often as it is there |
| EpochCompat.RejectionJustified | compiler/cmd/promise/verify_compat.go:71-138 | On every graph, cyclic ones included, a rejection means something reachable fails its gate, and recorded verdicts stay |
| EpochCompat.AcceptanceJustified | compiler/cmd/promise/verify_compat.go:71-138 | On every graph an acceptance is justified up to the modules further up |
| EpochCompat.OneWayKeepsAccurate | compiler/cmd/promise/verify_compat.go:71-138 | Where no two different modules reach each other the cache stays accurate whatever the verdict; a module may pin itself |
| EpochCompat.CacheStaysAccurateExactly | compiler/cmd/promise/verify_compat.go:71-138 | For a module all of whose reachable modules have manifests: an accurate cache stays accurate whatever the gates say if and only if no two different modules it reaches reach each other |
| EpochCompat.VerdictExact | compiler/cmd/promise/verify_compat.go:71-138 | From an accurate cache, the empty one included, acceptance is exact on every graph: own gate and all transitive gates pass; the cache is accurate afterwards on acceptance, or where no two modules reached reach each other |
| EpochCompat.CachedVerdictSame | compiler/cmd/promise/verify_compat.go:71-74 | Answering from the cache is answering as if nothing had been recorded |
| EpochCompat.CycleLeavesWrongAcceptance | compiler/cmd/promise/verify_compat.go:71-138 | With a pin cycle a rejected run can leave a wrong acceptance in the cache |
| EpochCompat.WalkBackExact | compiler/cmd/promise/verify_compat.go:427-444 | On every graph the candidates before the one picked fail, and the walk gives up only when all do; the one picked passes if among what each earlier candidate reaches no two modules reach each other |
| EpochCompat.WalkBackMayPickWrong | compiler/cmd/promise/verify_compat.go:427-444 | Two versions that pin a failing helper by a branch name, whose head pins the older one: that one is picked and does not pass |
| Renderer.Renderer.Clear | compiler/cmd/promise/progress.go:135-141 | The whole state after erasing the transient line |
| Renderer.Renderer.Pass | compiler/cmd/promise/progress.go:163-181 | The whole state after a passing line, in each mode |
| Renderer.Renderer.Println | compiler/cmd/promise/progress.go:156-159 | The whole state after a persistent line |
| Renderer.OutWithoutPasses | compiler/cmd/promise/progress.go:144-171 | For every call sequence the out stream of plain and of terminal mode is the full one without the passing lines |
| Renderer.FullPrints | compiler/cmd/promise/progress.go:144-171 | What each call adds to the out stream, and that a passing line changes nothing in plain mode |
| Renderer.PassShown | compiler/cmd/promise/progress.go:163-196 | In a terminal a passing line stands on an empty row character for character, cut to the row |
| Renderer.WriteInRow | compiler/cmd/promise/progress.go:174-196 | Flattened text that fits the row covers exactly its columns |
| Renderer.NothingLeftOver | compiler/cmd/promise/progress.go:135-181 | For every call sequence whose persistent text ends its lines, after a clear or a persistent write no transient character is left on any row |
| Renderer.LeftBehindExactly | compiler/cmd/promise/progress.go:135-181 | A transient line drawn behind an unfinished line is erased if and only if its characters beyond its own length are blanks |
| Stress.FileStats.VisitOnce | compiler/cmd/promise/stress.go:461-616 | One visit of the loop to a file: skipped or run, booked and rescheduled |
| Stress.FileStats.BookLines | compiler/cmd/promise/stress.go:533-610 | Every result line is booked and the first test without one is blamed |
| Stress.FileStats.RecalcInterval | compiler/cmd/promise/stress.go:147-162 | The interval from failures, variance and experience |
| Stress.VisitGood | compiler/cmd/promise/stress.go:461-616 | Every visit keeps skipCount below interval, interval at most eight, timeouts within fails and timings within passes and other fails; a failed file is not skipped |
| Stress.RunsOften | compiler/cmd/promise/stress.go:461-616 | The visits never exceed eight times the runs |
| Stress.RunsInAnyEight | compiler/cmd/promise/stress.go:461-616 | In any eight visits in a row the file runs |
| Stress.FailedNeverSkipped | compiler/cmd/promise/stress.go:147-162 | A file that has failed runs at every visit from then on |
| Stress.EndToEndTotals | compiler/cmd/promise/stress.go:499-530 | The test of an end-to-end file passes or fails once for each run |
| Stress.SilenceIsBooked | compiler/cmd/promise/stress.go:578-610 | A run in which a known test did not report always books one failure more, a timeout when it was killed for its time |
| Stress.UnitBookedExactly | compiler/cmd/promise/stress.go:533-610 | A test gains a pass for each of its passing lines and a failure for each other, and one failure more if it is the first that was silent |
| Stress.OutputBookedExactly | compiler/cmd/promise/stress.go:499-530 | An end-to-end run is a pass if the output matched in time, else a failure, a timeout if it was killed |
| Stress.IntervalExactly | compiler/cmd/promise/stress.go:147-162 | A file runs every time while new, failed or varying, else every second, fourth and eighth time |
| CacheKeys.KeyTellsInputs | compiler/cmd/promise/main.go:6868-6919 | With fields free of newlines but for the source directory, whose last line must not read on: equal keys mean equal listed inputs, so keys of different kinds never coincide |
| CacheKeys.SameKeyExactly | compiler/cmd/promise/main.go:6868-6919 | Two such inputs have one key if and only if their listed inputs are equal: what a kind does not list is not in its key |
| CacheKeys.SourceDirCollidesExactly | compiler/cmd/promise/main.go:7003-7017 | A source directory with newlines shares its key with one of fewer lines if and only if its last line reads as an embedded file or, when there is none, as a module |
| CacheKeys.HitsAreOwn | compiler/cmd/promise/main.go:6985-7035 | In any run of saves and lookups, whatever was built: a hit is the binary of the last save of the same listed inputs, and a miss means there was none |
| UnicodeTables.DecompTables | compiler/cmd/gen-unicode-tables/main.go:252-280 | Slicing the data by consecutive offsets gives back every mapping; offsets rise from zero to the data length |
| UnicodeTables.BuildCompositionPairs | compiler/cmd/gen-unicode-tables/main.go:218-236 | Exactly the selected mappings, as a multiset, in lexicographic order |
| UnicodeTables.PairsAreMappings | compiler/cmd/gen-unicode-tables/main.go:218-228 | The pairs are the two-part mappings that are not excluded |
| UnicodeTables.SortedByParts | compiler/cmd/gen-unicode-tables/main.go:229-235 | The table is ordered by first part, then by second |
| UnicodeTables.OneOrder | compiler/cmd/gen-unicode-tables/main.go:229-235 | When no two have the same parts, the table does not depend on how the sort treats equals |
| UnicodeTables.WriteI32VectorLiteral | compiler/cmd/gen-unicode-tables/main.go:310-327 | The literal, twenty values to a row |
| UnicodeTables.RowsSqueezed | compiler/cmd/gen-unicode-tables/main.go:310-327 | Without its layout a literal is every value once, in order, one comma between neighbours and none after the last |
| UnicodeTables.LiteralReadsBack | compiler/cmd/gen-unicode-tables/main.go:310-327 | Reading the literal gives the values back |

## Left out

- Response files: the `@file` expansion and encoding detection of the reading side.
- Paths: drive letters, Windows separators, and symbolic links between module directories.
- Loading: the AST cache, warnings, semantic checks of a module's contents (whether a module
  is broken is an input), fetching of remotes (a remote resolves to a directory or does not).
- ModuleLoader.Loader.LoadRemote: identities are pairs of URL and subdirectory, so two
  URLs whose joined text is the same are not confused; URLs with an empty path component are
  rejected elsewhere.
- ModuleLoader.Loader.LookupReplace: when several `[replace]` spellings match one URL the
  first in a fixed order wins, where the code takes whichever its map yields.
- ModuleLoader.LoadProject: where some reachable import does not resolve under the first pins
  a sound graph can fail to load, because a pin merged later can come too late; what loads
  there is given by ModuleWalk.UsesLoadExactly, import by import, not by a condition on the
  graph.
- ModuleLoader.Loader.LoadFresh: a remote or catalog name that itself reads as a local path
  can collide with a local identity and fail the load as a duplicate. That this happens only
  then is proved; which of those worlds it happens in is not.
- Compatibility: the texts of reasons and warnings, and failures to save a verdict, which the
  code ignores; a verdict is always saved here.
- Publishing: `promise clean` and `doctor --repair` running at the same time, and compilers
  that share a view directory but require different files. Network, disk and probe failures
  are steps.
- Atomic replacement: reuse of a temporary name by another call after a rename consumed it.
- Separate compilation: files that cannot be removed, retries of a backend process, the
  linkers' own behaviour, and other processes' temporary files coming and going meanwhile.
- Backend budget: more than two levels of processes.
- Test runs: the coverage and JSON modes, the context lines shown under a failure and the list
  of failures, elapsed times, and 64-bit overflow of summed counts. The texts of elapsed times
  and contexts are parameters.
- `promise check`: which units a target names, and the standard error shown under a unit.
- Renderer: characters wider than a column, and terminals narrower than COLUMNS says.
- Stress: the statistics; high variance is an input of each visit. Stopping conditions, the
  live display and the report.
- Cache keys: finding the imports in a source text, and the imports that make it uncacheable.
  The hash is taken to be injective, and nothing is evicted.
- CacheKeys.SameKeyExactly: newlines in fields other than the source directory, and hashes
  with colons.
- Unicode tables: downloading and parsing the data files, combining classes and quick-check
  ranges. Values are not negative, as code points and offsets are.
- Doctor, installation, documentation, formatting and binding generation.
