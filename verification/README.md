# Verified model of the build core

This project models the parts of the build system that decide what runs, in which
order and whether at all, and proves what they promise (`Common.dfy` holds what all parts
use):

- **Execution plans** (`CommandNode.dfy`, `ExecutionPlan.dfy`, `PlanCreation.dfy`,
  `Graphs.dfy`). `prepare` derives every edge of the command graph from file lists,
  `init` takes the commands out sweep by sweep and sorts them, all on objects whose
  fields change in place.
- **The executor** (`Scheduler.dfy`, `SchedulerSafety.dfy`, `SchedulerTheorems.dfy`,
  `SchedulerStop.dfy`, `SchedulerProgress.dfy`, `ParallelBuild.dfy`, `CompleteRuns.dfy`,
  `TimedBuild.dfy`, `TimedDecision.dfy`). `execute` is a transition system: one label
  is one step of a worker or of the calling thread that others can observe, and a run is
  any interleaving. An invariant holds in every state of every run; from it follow that a
  command is pushed and run at most once and only after its dependencies, that failures
  are contained, that a stopped run starts nothing more, that no wake-up is lost, that
  every run ends and cannot deadlock, and that a complete run leaves the files of the
  sequential build. `TimedBuild` adds file times and what is remembered of earlier
  builds: over any history of builds, crashes and changed files, a command that is
  skipped because its files are not newer than its record is up to date, so that an
  incremental build leaves the files of a build from scratch. `PlanCreation.Create`
  shows that the plans of the first part are what these theorems ask for, and
  `TimedDecision` that sessions and commands do what `TimedBuild` does.
- **The memory of past builds** (`Bytes.dfy`, `FrameStream.dfy`, `CommandDb.dfy`,
  `CommandStorage.dfy`, `CommandStorageObject.dfy`, `DatabaseRoundTrip.dfy`,
  `Sessions.dfy`, `FileTimes.dfy`, `RefreshProtocol.dfy`, `IncrementalCommand.dfy`,
  `NullBuild.dfy`). File times as a session sees them, the outdated test and
  `afterCommand`, the record table, its byte format with truncation of damaged files,
  runs over any number of sessions, and what a later session decides.
- **Package settings** (`Settings.dfy`, `SettingsMerge.dfy`, `SettingsHash.dfy`,
  `SettingsJson.dfy`, `PackageSettings.dfy`). Equality, subset, the two merges, the
  hash and the JSON form of a recursive tree.
- **Rule files** (`RuleFiles.dfy`), **version selection with its cache**
  (`Resolver.dfy`), **package paths** (`PackagePath.dfy`) and the **depfile scanner**
  (`DepFile.dfy`).

Functions and predicates are the specification; the methods and classes beside them
are the algorithms as the source runs them, each tied to those functions.

## What is assumed

- `std::sort` yields some rearrangement ordered by its comparator; the modelled sort is
  one. Iterating over a hash set or map visits the elements in any order.
- A push of a future, the bookkeeping under the mutex, and each atomic decrement are
  one step each. While the calling thread seeds it holds the mutex.
- A command reads its declared inputs one at a time and then writes its outputs one at
  a time; what it writes depends only on what it has read. A failing command may leave
  anything in its outputs. In `ParallelBuild` a command may be skipped only while its
  outputs are what it makes of its inputs; `TimedBuild` proves this of the test the
  source makes.
- In `TimedBuild` whatever changes a file, a command or somebody between two builds,
  leaves it with a time later than all times so far, or removes it; nobody but its
  commands changes files during a build; implicit inputs are among the inputs of a
  command; and a command is the same action in every build.
- Nodes given to a plan belong to no other plan. A node that is not a build command is a
  node with empty file lists.
- Hash functions, the combination of hashes and the file system are parameters. Where a
  statement needs hashes to be distinct it says so.
- A file's smallest time stands for "missing", as in the source; a regular file with
  that very time counts as missing.
- Sizes of records and paths fit a 64-bit size (`InMemory`).

## What turned out differently than one might expect

- The last tie-break of `lessDuringExecution` compares a size with itself
  (src/sw/builder/command.cpp:1182); the order is a strict weak order all the same.
- `skip_errors` 0 and 1 both stop at the first failure (`Scheduler.Threshold`).
- `afterCommand` does not look at the times of implicit inputs, so a command can be
  outdated right after it ran; `NullBuild.RightAfterTheRun` says exactly when.
- A hash that a load could not resolve stays in the table with an empty path and hides
  the file that later has it: `CommandStorages.SetThenGet` says exactly when implicit
  inputs survive, `NullBuild.NullBuildIff` and `NullBuild.UnknownInputIsForgotten` what
  follows if they do not, and `NullBuild.InputMayBeUnknown` is a run that comes to this.
- A null setting, an empty array element or a map that prints no entry does not survive
  JSON; `SettingsJson.RoundTrip` says exactly what does. The ignore flag is printed
  under a misspelled key and never read.
- `mergeMissing` and `mergeAndAssign` from the other side agree exactly under
  `SettingsMerge.SidesAgree`.
- `operator<` of package paths is not a strict weak order: paths outside the listed
  namespaces are incomparable (`PackagePaths.NotAStrictWeakOrder`);
  `PackagePaths.IncomparableIsTransitiveIff` says exactly where it fails to be one.
- A thread that marks a file unrefreshed can hide from another one that the file has
  changed, or the other way round, but never gives it a wrong time.
  `RefreshProtocol.AnswersAgreeIff` says exactly from which states this can happen. No
  caller reads that answer: it is dropped at src/sw/builder/command.cpp:589 and 611 and
  at src/sw/builder/file.cpp:140, and the time alone is used.
- A request that already has a version can put a wrong answer into the cache
  (`Resolvers.CachingResolver.Resolve`, `Resolvers.StaleAnswer`). No caller in the
  repository passes such a request to the resolver with the cache; only the public
  `setPackageForce` can make one.
- The last name of a depfile is read back exactly if a separator follows it, white space
  or a whole continuation (`DepFiles.LastNameIff`); at the very end of the text it is
  lost (`DepFiles.LastNameIsLost`).

## Model

| member | source | states |
|---|---|---|
| CommandNodes.CommandNode.Prepare | src/sw/builder/command.cpp:422-457 | the first call adds the program to the inputs and fails exactly if the program is not resolved; later calls do nothing |
| CommandNodes.CommandNode.AddDependency | src/sw/builder/command_node.cpp:11-16 | adds exactly the given node and throws exactly for the node itself |
| CommandNodes.LessIsStrictWeakOrder | src/sw/builder/command.cpp:1167-1183 | the comparator is irreflexive and transitive and so is its incomparability, as std::sort demands |
| ExecutionPlans.PrepareCommands | src/sw/builder/execution_plan.cpp:397-399 | fails exactly at a command whose program is not resolved; otherwise all are prepared, and no file list changes its meaning |
| ExecutionPlans.CheckPassed | src/sw/builder/execution_plan.cpp:401-414 | passes exactly a set with distinct hashes that contains all its dependencies |
| ExecutionPlans.RefusedIff | src/sw/builder/execution_plan.cpp:401-434 | what prepare refuses, in the fields of the commands: two with one hash, a dependency outside, two exclusive writers, a command that writes for itself |
| ExecutionPlans.CollectGenerators | src/sw/builder/execution_plan.cpp:416-434 | succeeds exactly if no file has two exclusive writers; the tables then hold exactly the writers of every file |
| ExecutionPlans.FoundAreProducers | src/sw/builder/execution_plan.cpp:440-454 | looking all files a command waits for up in the tables finds exactly the commands that write one of them |
| ExecutionPlans.ProducersIff | src/sw/builder/execution_plan.cpp:440-454 | the producers of a command are exactly those with an output, exclusive or shared, among its inputs, untimed inputs or as its program |
| ExecutionPlans.DeriveEdges | src/sw/builder/execution_plan.cpp:435-455 | every command gets exactly its producers as new dependencies; throws exactly if one feeds itself |
| ExecutionPlans.Prepare | src/sw/builder/execution_plan.cpp:395-456 | success and each error, that of an unresolved program included, exactly characterized; on success the graph is closed and is the old one with an edge to every producer |
| ExecutionPlans.Sweep | src/sw/builder/execution_plan.cpp:462-476 | one sweep keeps the found commands topologically ordered and takes out nothing only if every command left is blocked |
| ExecutionPlans.Eliminate | src/sw/builder/execution_plan.cpp:460-485 | terminates, loses and duplicates nothing, and what is left is exactly the commands from which a cycle is reachable |
| ExecutionPlans.SetUp | src/sw/builder/execution_plan.cpp:496-501 | counters are the numbers of dependencies, reverse edges gain exactly the inverse of the edges |
| ExecutionPlans.Sort | src/sw/builder/execution_plan.cpp:503-506 | a rearrangement in which no later command is less than an earlier one |
| ExecutionPlans.SortedIsByDependencies | src/sw/builder/command.cpp:1167-1183 | the numbers of dependencies never decrease; among equals those with a strict order go first and by it |
| ExecutionPlans.Init | src/sw/builder/execution_plan.cpp:458-507 | the two vectors partition the commands; the second holds those that reach a cycle; counters and reverse edges are set for a valid plan and left alone for another |
| ExecutionPlans.ExecutionPlan.constructor | src/sw/builder/execution_plan.cpp:15-18 | the new plan has the arrangement, the order, the counters and the reverse edges of init |
| Graphs.StuckReachesCycle | src/sw/builder/execution_plan.cpp:477-484 | from a set in which everyone depends on someone in the set a cycle is reachable |
| Graphs.OrderedReachesNoCycle | src/sw/builder/execution_plan.cpp:466-475 | from a topologically ordered command no cycle is reachable |
| Graphs.TopologicalIsAcyclic | src/sw/builder/execution_plan.cpp:236-239 | a graph with a topological order of all its nodes has no cycle |
| PlanCreation.SortedIsIndependentFirst | src/sw/builder/execution_plan.cpp:121-131 | after the sort no command without dependencies follows one with some, so the seeding break misses none |
| PlanCreation.ValidPlanIsWellFormed | src/sw/builder/execution_plan.cpp:487-507 | a valid plan satisfies what the executor's theorems assume about graph and order |
| PlanCreation.CountersAreSet | src/sw/builder/execution_plan.cpp:496-501 | the counter of every node of a valid plan is its number of dependencies |
| PlanCreation.PreparedPlanOrdersFiles | src/sw/builder/execution_plan.cpp:416-455 | in a prepared plan a file that is nobody's shared output has one writer, and every reader depends on it |
| PlanCreation.Create | src/sw/builder/execution_plan.h:93-106 | creating a plan refuses exactly a null command, an unresolved program and what prepare refuses; it is valid exactly for an acyclic graph, then in the order of dependencies and ready for execute, with every producer, of shared outputs too, among the dependencies |
| SchedulerSafety.StartHasInvariant | src/sw/builder/execution_plan.cpp:45-58 | the invariant holds before the first step |
| SchedulerSafety.InvariantStep | src/sw/builder/execution_plan.cpp:79-180 | every step of every thread keeps the whole invariant: counters, single push, queue, errors, outcomes, report |
| SchedulerSafety.RunKeepsInvariant | src/sw/builder/execution_plan.cpp:45-180 | the invariant holds in every state of every interleaving |
| SchedulerSafety.DecrementKeepsCounters | src/sw/builder/execution_plan.cpp:98-101 | a decrement keeps each counter equal to the number of dependencies that have not yet decremented it |
| SchedulerSafety.DecrementKeepsPushers | src/sw/builder/execution_plan.cpp:100-105 | a counter reaches zero for exactly one task, which alone will push the command |
| SchedulerSafety.PushedIsNotOwed | src/sw/builder/execution_plan.cpp:98-105 | no dependency of a pushed command still owes it a decrement |
| SchedulerSafety.PushedIsNew | src/sw/builder/execution_plan.cpp:123-130 | what is seeded or pushed was never pushed before |
| SchedulerSafety.QueueStep | src/sw/builder/execution_plan.cpp:137-155 | snapshots, waits and pushes keep every pushed future either waited for, in the batch, or pending, in order |
| SchedulerSafety.ErrorsStep | src/sw/builder/execution_plan.cpp:90-97 | the shared error counter always equals skip_errors minus the failures, and the stop flag follows it |
| SchedulerSafety.ReportedStep | src/sw/builder/execution_plan.cpp:153-179 | a result, once reported, stays true of the state |
| SchedulerTheorems.DependenciesRanBefore | src/sw/builder/execution_plan.cpp:98-105 | a command is handed out only after all its dependencies have run, without error if errors are thrown |
| SchedulerTheorems.BelowPushedRanOk | src/sw/builder/execution_plan.cpp:90-97 | failure containment: everything a pushed command depends on, through any path, ran without error |
| SchedulerTheorems.RunsAtMostOnce | src/sw/builder/execution_plan.cpp:80-87 | no run starts the same command twice |
| SchedulerTheorems.StoppedFromThreshold | src/sw/builder/execution_plan.cpp:93-94 | the plan is stopped exactly from failure number max(1, skip_errors) on |
| SchedulerStops.HaltedStartsNothing | src/sw/builder/execution_plan.cpp:80-83 | once a run is stopped or interrupted, a command that has not started never reads, writes, decides or fails, in any interleaving |
| SchedulerStops.HaltingSteps | src/sw/builder/execution_plan.cpp:90-112 | an interrupt, a finish past the time limit and the settling of one failure too many stop the plan |
| SchedulerStops.HaltedTakesOneBatch | src/sw/builder/execution_plan.cpp:137-158 | the calling thread of a stopped or interrupted run takes at most one more batch |
| SchedulerStops.ResultIs | src/sw/builder/execution_plan.cpp:161-179 | a thrown exception goes before everything else; a complete count is a normal return with every command done; then time limit, then interrupt |
| SchedulerTheorems.NormalReturnMeansAllSucceeded | src/sw/builder/execution_plan.cpp:161-179 | a normal return without interrupt and time limit means every command ran successfully |
| SchedulerTheorems.StuckHasCause | src/sw/builder/execution_plan.cpp:153-154 | if the loop runs dry before all commands, some command threw or was skipped |
| SchedulerTheorems.NoLostWakeup | src/sw/builder/execution_plan.cpp:133-178 | without failures, interrupt and time limit the loop ends with all commands done; both internal error messages are unreachable |
| SchedulerProgress.CanStep | src/sw/builder/execution_plan.cpp:136-180 | until execute has returned some thread can take a step: no deadlock |
| SchedulerProgress.StepShrinks | src/sw/builder/execution_plan.cpp:79-180 | every step makes a measure smaller |
| SchedulerProgress.RunsAreFinite | src/sw/builder/execution_plan.cpp:45-180 | no run has more steps than the measure of its start |
| SchedulerProgress.MaximalRunsReturn | src/sw/builder/execution_plan.cpp:45-180 | a run that cannot go on has returned, and normally if nothing disturbed it |
| ParallelBuild.SequentialMakes | src/sw/builder/execution_plan.cpp:419-455 | building one by one in a topological order leaves every command up to date and sources untouched |
| ParallelBuild.UpToDateAgree | src/sw/builder/execution_plan.cpp:419-455 | two disks with the same sources on which a dependency-closed set of commands is up to date agree on their outputs |
| ParallelBuild.RunKeepsContents | src/sw/builder/execution_plan.cpp:79-110 | in every state of every run, what finished commands wrote or found up to date is up to date, and what running ones read still holds |
| ParallelBuild.FinishedOutputsAreFinal | src/sw/builder/execution_plan.cpp:79-110 | at every moment, also in a failing or incremental build, outputs of successful commands are those of the sequential build from scratch |
| ParallelBuild.ParallelEqualsSequential | src/sw/builder/execution_plan.cpp:45-180 | a run in which every command succeeded, by running or by being found up to date, leaves exactly the disk of the sequential build in any topological order |
| TimedBuild.TrustedStays | src/sw/builder/command.cpp:235-289 | changes that leave later times keep this: if all files of a command are no newer than a time ever recorded for it, its outputs are what it makes of its inputs |
| TimedBuild.NotOutdatedIff | src/sw/builder/command.cpp:269-289 | when a command decides, what the session has seen of its files before makes no difference: it is not outdated exactly if all of them are on the disk and no newer than some recorded time |
| TimedBuild.TimedStepIsStep | src/sw/builder/command.cpp:522-547 | a skip decided by file times is one that contents allow |
| TimedBuild.GoodStep | src/sw/builder/execution_plan.cpp:79-180 | every step of such a build keeps recorded times trustworthy and what was seen accurate but for unfinished outputs |
| TimedBuild.HistoryKeepsGood | src/sw/builder/execution_plan.cpp:45-180 | so does any history of builds, complete or given up anywhere, with changes to the files in between |
| TimedBuild.NotOutdatedIsUpToDate | src/sw/builder/command.cpp:540-547 | in every state of every history, a command that is about to decide and is not outdated is up to date |
| TimedBuild.BuildIsRun | src/sw/builder/execution_plan.cpp:45-180 | each build of a history is a run of the executor, so all that is proved about runs holds for it |
| TimedBuild.IncrementalEqualsClean | src/sw/builder/execution_plan.cpp:45-180 | whatever came before, a build in which every command has run or was skipped leaves the files a sequential build from scratch makes of the same sources |
| TimedDecisions.RecordDecides | src/sw/builder/command.cpp:235-289 | a command that its storage, in this session or a later one, does not find outdated is one that may be skipped, if its record gives its implicit inputs back |
| TimedDecisions.DecidingLooks | src/sw/builder/command.cpp:269-289 | deciding only looks at files, and what was seen stays no later than what is there |
| TimedDecisions.AfterCommandLooks | src/sw/builder/command.cpp:577-613 | afterCommand only looks too, and then knows the times its outputs have on the disk |
| TimedDecisions.RecordedTimeIsTimely | src/sw/builder/command.cpp:577-596 | the time it records is no later than all times so far |
| CompleteRuns.CanReturn | src/sw/builder/execution_plan.cpp:45-180 | from any state without a failure or an interrupt, execute can come to its end without one |
| CompleteRuns.CompleteRunExists | src/sw/builder/execution_plan.cpp:45-180 | every plan has a run that returns normally with every command run and leaves the files of the sequential build |
| Bytes.WordRoundTrip | src/sw/builder/command_storage.cpp:52-58 | a size written as bytes reads back, whatever follows |
| Bytes.LowByteFirst | src/sw/builder/command_storage.cpp:52-58 | the bytes are those of the number, the lowest first |
| Bytes.TimeRoundTrip | src/sw/builder/command_storage.cpp:119-119 | so does a signed time |
| FrameStreams.ReadStream | src/sw/builder/command_storage.cpp:176-214 | the load loop finds the items and the length to keep that the specification gives, or reads past the end |
| FrameStreams.LoadFrames | src/sw/builder/command_storage.cpp:148-168 | whole frames in front of any bytes are read as their items, then the rest |
| FrameStreams.SizeOnlyBounds | src/sw/builder/command_storage.cpp:178-213 | an item takes the bytes it takes, whatever size is written in front of it, as long as that is in the file |
| FrameStreams.LoadCut | src/sw/builder/command_storage.cpp:150-156 | a stream cut inside a frame loads as the frames before it and is cut back to them |
| CommandDb.RecordPrints | src/sw/builder/command_storage.cpp:108-133 | a written record parses back with its hash, time and inputs |
| CommandDb.RecordLayout | src/sw/builder/command_storage.cpp:118-132 | hash, time, count and inputs are where the reader and other tools look for them |
| CommandDb.PathPrints | src/sw/builder/command_storage.cpp:233-236 | a written path parses back |
| CommandDb.CommandsFileLoads | src/sw/builder/command_storage.cpp:249-255 | a saved commands file loads as exactly the records that were not skipped |
| CommandDb.FilesFileLoads | src/sw/builder/command_storage.cpp:231-237 | a saved files table loads as exactly its paths |
| CommandDb.CommandsFileCut | src/sw/builder/command_storage.cpp:176-188 | a commands file cut anywhere in a record loads as the records before it, is shortened to them and loads the same again; only a cut inside a size reads past the end |
| CommandStorages.ResolvedIff | src/sw/builder/command_storage.cpp:69-84 | getting implicit inputs gives a set of files exactly if the table leads from each hash back to its file |
| CommandStorages.SetThenGet | src/sw/builder/command_storage.cpp:69-104 | setting and getting implicit inputs gives them back exactly if no other path, nor the empty one, occupies one of their hashes |
| CommandStorages.InsertKeeps | src/sw/builder/command_storage.cpp:423-426 | looking up a new command keeps the storage well formed |
| CommandStorages.CompletionKeeps | src/sw/builder/command.cpp:624-629 | completing a command keeps it well formed and records its hash, time and implicit inputs |
| CommandStorages.LogKeeps | src/sw/builder/command_storage.cpp:306-343 | the log executor never meets an unknown hash and keeps the storage well formed |
| CommandStorages.LogDrains | src/sw/builder/command_storage.cpp:306-343 | the log executor comes to its end, leaves records and table alone, and then every implicit input with a path is a known file |
| CommandStorages.AddPathsAdds | src/sw/builder/command_storage.cpp:161-167 | loading paths adds exactly them and maps each of their hashes to one of them |
| CommandStorages.LastPathWins | src/sw/builder/command_storage.cpp:165-167 | where several loaded paths have one hash the table leads to the last |
| CommandStorages.TableAfter | src/sw/builder/command_storage.cpp:204-213 | loading records adds to the table only empty paths for unknown inputs |
| CommandStorages.RecordsAfter | src/sw/builder/command_storage.cpp:190-213 | loading distinct records adds exactly them, without their unknown inputs |
| CommandStorages.RecordsAccumulate | src/sw/builder/command_storage.cpp:190-213 | several records of one command give it the inputs of all of them and the time of the last |
| CommandStorageObjects.CommandStorage.Insert | src/sw/builder/command_storage.cpp:423-426 | a new record exactly if there was none |
| CommandStorageObjects.CommandStorage.GetImplicitInputs | src/sw/builder/command_storage.cpp:69-84 | the loop resolves all hashes or throws at one not in the table |
| CommandStorageObjects.CommandStorage.SetImplicitInputs | src/sw/builder/command_storage.cpp:86-104 | replaces the inputs of one record and adds, but never changes, table entries |
| CommandStorageObjects.CommandStorage.RunLog | src/sw/builder/command_storage.cpp:310-343 | the files of the logged record become known |
| CommandStorageObjects.CommandStorage.Write | src/sw/builder/command_storage.cpp:108-133 | the bytes of a record, nothing for a hash of zero, an exception exactly for an input not in the table |
| CommandStorageObjects.CommandStorage.SaveCommands | src/sw/builder/command_storage.cpp:246-262 | the file written is the stream of all records, each once; an empty one leaves the old file |
| CommandStorageObjects.CommandStorage.SaveFiles | src/sw/builder/command_storage.cpp:228-244 | the file written is the stream of all known paths |
| CommandStorageObjects.CommandStorage.Save | src/sw/builder/command_storage.cpp:370-387 | a well-formed storage is saved without an exception, only if something was logged, and not a second time |
| CommandStorageObjects.CutOffKeeps | src/sw/builder/command_storage.cpp:152-156 | a file that is cut off keeps exactly the bytes in front of the cut |
| CommandStorageObjects.CommandStorage.LoadFiles | src/sw/builder/command_storage.cpp:142-169 | the table and the known files after loading, and the file cut off behind the last whole frame |
| CommandStorageObjects.CommandStorage.LoadCommands | src/sw/builder/command_storage.cpp:171-215 | the same for the records |
| CommandStorageObjects.SaveAndReopen | src/sw/builder/command_storage.cpp:218-262 | over whatever the database held before, saving and opening is the step from one session to the next that the run theorems speak about, and the files hold what the new storage has |
| DatabaseRoundTrip.LoadedParts | src/sw/builder/command_storage.cpp:140-216 | from whatever paths and records came back, each record has its time and those implicit inputs whose paths came back |
| DatabaseRoundTrip.SaveThenLoad | src/sw/builder/command_storage.cpp:218-262 | load after save restores all files and exactly the records with a nonzero hash |
| DatabaseRoundTrip.ReloadedIsWellFormed | src/sw/builder/command_storage.cpp:140-222 | whatever paths and records two files hold, cut or not, the storage that starts with them is well formed |
| DatabaseRoundTrip.RecalledAfterReload | src/sw/builder/command_storage.cpp:140-262 | a completed record gets the same implicit inputs back after save and load, unless another known file has the hash of one of them or of the empty path |
| DatabaseRoundTrip.NothingIsLost | src/sw/builder/command_storage.cpp:218-262 | without unknown files the completed records are restored unchanged and none becomes unknown |
| DatabaseRoundTrip.UnknownsAreLost | src/sw/builder/command_storage.cpp:123-132 | otherwise exactly the implicit inputs with an unknown file are dropped |
| Sessions.StepKeepsSound | src/sw/builder/command_storage.cpp:286-426 | every event of a session keeps the storage well formed and at least as large as what the files hold |
| Sessions.RunKeepsSound | src/sw/builder/command_storage.cpp:286-426 | so does every run of any number of sessions, whatever paths and records they found in their files |
| Sessions.StepRemembers | src/sw/builder/command_storage.cpp:86-262 | no event but a new completion of the command, a session killed before the first save, lost files, or a hash collision where files are saved changes its recorded time and the implicit inputs it gets back |
| Sessions.RunRemembers | src/sw/builder/command_storage.cpp:86-262 | what is recalled right after a completion is recalled at every later point of the run, over any number of sessions, also ones killed after the first save |
| Sessions.RunNeverWrites | src/sw/builder/command_storage.cpp:112-113 | a command that is never completed, or whose hash is zero, is in no later session's storage when that session starts |
| FileTimes.FileData.Refresh | src/sw/builder/file.cpp:102-129 | one refresh of one file, by its state and what the file system says |
| FileTimes.RefreshTells | src/sw/builder/file.cpp:102-129 | a refresh takes the later of the known time and that on the disk, forgets that of a missing file, and reports a change exactly if one of these did something |
| FileTimes.FoundAgainFinds | src/sw/builder/command.cpp:604-613 | looking for a file again gives it its time on the disk if it was missing or unknown, and leaves it alone otherwise |
| FileTimes.FileData.IsChanged | src/sw/builder/file.cpp:131-136 | the retry loop ends with a settled time |
| FileTimes.FileStorage.RegisterFile | src/sw/builder/file_storage.cpp:14-21 | a file is refreshed when it is registered first and left alone later |
| FileTimes.FileStorage.IsChangedSince | src/sw/builder/file.cpp:138-152 | true exactly for a missing file or one with a greater time, with what is seen afterwards |
| RefreshProtocol.InvariantHolds | src/sw/builder/file.cpp:102-136 | without resets every step of any number of threads keeps one refresher at most and its half-written data private |
| RefreshProtocol.AllAnswersAgree | src/sw/builder/file.cpp:102-142 | in every interleaving without resets every thread gets the answer of a single refresh |
| RefreshProtocol.WritesAtMostOnce | src/sw/builder/file.cpp:104-128 | at most one thread then writes the time, and once |
| RefreshProtocol.ResetInvHolds | src/sw/builder/file.cpp:102-136 | with threads that mark the file unrefreshed at any moment, all refreshers write the same time and it never goes back |
| RefreshProtocol.ResetGetsNewTime | src/sw/builder/command.cpp:584-588 | in every interleaving a thread that marked the file unrefreshed gets the time of a new look |
| RefreshProtocol.ResetHidesChange | src/sw/builder/file.cpp:131-136 | from every state with a thread that resets, another one may be told that the file, changed or missing, has not changed |
| RefreshProtocol.ResetShowsChange | src/sw/builder/file.cpp:131-136 | and it may be told what one more look finds |
| RefreshProtocol.AnswersAgreeIff | src/sw/builder/file.cpp:102-142 | a thread gets the answer of a single refresh in every interleaving exactly if nobody resets or the file is there and not newer than what is known and reported unchanged |
| RefreshProtocol.SomebodyGoesOn | src/sw/builder/file.cpp:131-136 | with or without resets, while threads spin a refreshing one can go on |
| IncrementalCommands.Command.IsTimeChanged | src/sw/builder/command.cpp:269-289 | true exactly if some input, output or implicit input is missing or newer, in any order of checks |
| IncrementalCommands.Command.IsOutdated | src/sw/builder/command.cpp:235-267 | the decision, the record it inserts, and the time and implicit inputs it takes over |
| IncrementalCommands.Command.TakeInputTimes | src/sw/builder/command.cpp:577-582 | the time becomes the latest of itself and the inputs' known times |
| IncrementalCommands.Command.TakeOutputTimes | src/sw/builder/command.cpp:584-596 | the same with the outputs looked at again; throws exactly if one does not exist |
| IncrementalCommands.Command.RecheckImplicitInputs | src/sw/builder/command.cpp:604-613 | missing implicit inputs are looked at again, others only registered |
| IncrementalCommands.ImplicitInputsAreKnown | src/sw/builder/command.cpp:577-613 | after afterCommand no implicit input that is on the disk counts as missing; one that was missing or unknown has its time on the disk, others keep theirs |
| IncrementalCommands.Command.AfterCommand | src/sw/builder/command.cpp:565-630 | the recorded time is the latest of inputs and outputs, the record is completed and logged, implicit inputs that were missing are known, and nothing is recorded if an output is missing |
| NullBuild.RightIff | src/sw/builder/command.cpp:235-289 | the decision is right for every disk exactly if the command's files are those recalled, or, without a recorded time, if there are any of both or none of both |
| NullBuild.NullBuildIff | src/sw/builder/command.cpp:235-289 | at any later point of a run that leaves the command alone, in any session: outdated exactly if some file is not a regular file no newer than the recorded time, for all disks, exactly if the table led to each implicit input on completion |
| NullBuild.RightAfterTheRun | src/sw/builder/command.cpp:565-630 | it is then outdated exactly if a file is missing or an input or implicit input is newer than all that afterCommand compared |
| NullBuild.LookedUpOnly | src/sw/builder/command.cpp:251-267 | a command looked up but not completed is outdated again in the same session exactly if it has any file |
| NullBuild.NeverCompletedIsOutdated | src/sw/builder/command_storage.cpp:112-113 | and always at the start of any later session, as is a command whose hash is zero |
| NullBuild.UnknownInputIsForgotten | src/sw/builder/command_storage.cpp:96-102 | an implicit input the table did not lead to on completion no longer makes its command outdated, in that session and all later ones |
| NullBuild.InputMayBeUnknown | src/sw/builder/command_storage.cpp:86-104 | for every path and hash function a run of two events leads to a completion whose implicit input the table does not lead to |
| Settings.EqualReflexive | src/sw/support/settings.cpp:159-164 | equality is reflexive on all trees |
| Settings.EqualSymmetric | src/sw/support/settings.cpp:489-520 | symmetric without ignore flags |
| Settings.EqualTransitive | src/sw/support/settings.cpp:489-520 | transitive without ignore flags |
| Settings.EmptyEqualsMissing | src/sw/support/settings.cpp:496-518 | an explicit empty entry equals a missing one, both ways |
| Settings.EqualIff | src/sw/support/settings.cpp:489-520 | two trees without flags are equal exactly if they are the same but for explicit empty entries and the case of package paths |
| Settings.NamesEqualIff | src/sw/support/settings.cpp:489-494 | of the names only package paths are compared without case |
| Settings.FlaggedKeysDoNotCount | src/sw/support/settings.cpp:496-520 | a key flagged on either side makes no difference to the equality of two maps |
| Settings.FlaggedElementsDoNotCount | src/sw/support/settings.cpp:159-164 | in arrays the flag of the left side alone makes an element count as equal |
| Settings.FlaggedAreSubset | src/sw/support/settings.cpp:522-550 | flagged entries on the left are not asked for, and on the right answer for all but nested maps |
| Settings.EqualIffMutualSubset | src/sw/support/settings.cpp:522-550 | two maps are equal exactly if each is a subset of the other |
| Settings.SubsetReflexive | src/sw/support/settings.cpp:522-550 | the subset test is reflexive on all maps, ignore flags included |
| Settings.SubsetTransitive | src/sw/support/settings.cpp:522-550 | and transitive |
| SettingsMerge.FillInAt | src/sw/support/settings.cpp:171-181 | what mergeMissing leaves at every place of the tree: the left side's setting, unless it is empty or missing there |
| SettingsMerge.OverrideAt | src/sw/support/settings.cpp:183-192 | what mergeAndAssign leaves at every place: the right side's setting, unless it has none there |
| SettingsMerge.CanMergeIff | src/sw/support/settings.cpp:171-192 | both throw exactly if somewhere a map meets a setting that is there and is no map |
| SettingsMerge.FillInIsIdempotent | src/sw/support/settings.cpp:171-181 | merging missing settings a second time neither throws nor changes anything |
| SettingsMerge.FillInIsAssociative | src/sw/support/settings.cpp:552-556 | both groupings of mergeMissing agree when neither throws |
| SettingsMerge.FillInMeetsOverride | src/sw/support/settings.cpp:171-192 | mergeMissing equals mergeAndAssign from the other side exactly where empty entries and flags agree |
| SettingsMerge.NoEmptiesAgree | src/sw/support/settings.cpp:171-192 | they do when the left side has no empty entries and there are no flags |
| SettingsMerge.FillInExtends | src/sw/support/settings.cpp:552-556 | the left side, ignore flags included, is a subset of the result of mergeMissing |
| SettingsMerge.OverrideContains | src/sw/support/settings.cpp:558-562 | the right side, ignore flags included, is a subset of the result of mergeAndAssign |
| SettingsHash.OnlyRelevantCount | src/sw/support/settings.cpp:457-471 | skipped entries do not influence the hash, wherever they stand |
| SettingsHash.EqualMeansEqualHash | src/sw/support/settings.cpp:420-471 | equal settings have equal hashes, whatever the primitives, also with empty entries on one side only |
| SettingsHash.HashTells | src/sw/support/settings.cpp:420-471 | if combining loses nothing, settings with the same relevant keys hash equally exactly if all entries do, and arrays of one length if all elements do |
| SettingsHash.ScalarsTell | src/sw/support/settings.cpp:420-455 | scalars of a kind hash equally exactly if the primitives do |
| SettingsHash.KeysTell | src/sw/support/settings.cpp:466-468 | the key counts as well as the entry |
| SettingsJson.RoundTrip | src/sw/support/settings.cpp:194-249 | printing and merging back into a fresh setting gives an equal one exactly for faithful settings |
| SettingsJson.SettingsRoundTrip | src/sw/support/settings.cpp:408-418 | the same for whole package settings |
| SettingsJson.PrintsExactly | src/sw/support/settings.cpp:408-418 | of a map exactly the entries that are not empty and not flagged are printed |
| SettingsJson.ReadingOverrides | src/sw/support/settings.cpp:194-249 | a printed setting that is no map takes the place of whatever was there |
| SettingsJson.MergingOverrides | src/sw/support/settings.cpp:234-236 | merging printed settings into any others throws exactly where a map meets no map; otherwise all of them are there afterwards and the rest is as it was, at every depth |
| SettingsJson.ScalarsByNumber | src/sw/support/settings.cpp:202-222 | the numbers that stand for the kinds of scalars |
| SettingsJson.OthersByNumber | src/sw/support/settings.cpp:198-236 | null and resolver numbers change nothing, 7 and 8 are arrays and maps |
| SettingsJson.NamesByNumber | src/sw/support/settings.cpp:240-249 | and for the kinds of names |
| PackageSettingsObjects.PackageSettings.MergeMissing | src/sw/support/settings.cpp:552-556 | the loop merges as specified and throws exactly where a map meets an entry that is there and is no map, an explicit empty one included |
| PackageSettingsObjects.PackageSettings.MergeAndAssign | src/sw/support/settings.cpp:558-562 | likewise for the overriding merge |
| PackageSettingsObjects.PackageSettings.MergeFromJson | src/sw/support/settings.cpp:564-570 | likewise for merging JSON |
| PackageSettingsObjects.PackageSettings.MergeSettingFromJson | src/sw/support/settings.cpp:194-271 | one setting from JSON, with every rejected form |
| RuleFileGraphs.ReachedStep | src/sw/driver/rule_file.cpp:41-58 | a path is reached exactly if it is a dependency or reached from a dependency that is a file without a command |
| RuleFileGraphs.FoundStep | src/sw/driver/rule_file.cpp:44-63 | the commands found from a file are those found at its dependencies |
| RuleFileGraphs.FoundAtOnePath | src/sw/driver/rule_file.cpp:44-63 | a file with a command gives it and hides what is behind, one without is seen through, and a free command for the path is found in any case |
| RuleFileGraphs.AllKnownIff | src/sw/driver/rule_file.cpp:52-65 | a search meets something unknown exactly if it reaches a path that is neither a file nor the output of a free command |
| RuleFiles.RuleFile.GetDependencies1 | src/sw/driver/rule_file.cpp:41-68 | without a cycle the recursion ends with exactly the commands attached to reached paths, and throws exactly if a reached path is unknown |
| RuleFiles.RuleFile.GetCommand | src/sw/driver/rule_file.cpp:30-39 | the command gets exactly the found commands; throws exactly for an unknown path or a path back to itself |
| RuleFiles.RuleFile.SetCommand | src/sw/driver/rule_file.cpp:11-16 | a command can be set once |
| RuleFiles.RuleFile.AddDependency | src/sw/driver/rule_file.cpp:23-28 | any path but the file's own is added |
| RuleFiles.RuleFiles.AddFile | src/sw/driver/rule_file.cpp:70-74 | an existing file is kept, a new one is empty |
| RuleFiles.RuleFiles.AddCommand | src/sw/driver/rule_file.cpp:81-85 | an output gets a free command once |
| RuleFiles.RuleFiles.GetCommands | src/sw/driver/rule_file.cpp:87-96 | all commands, each with exactly what the files that carry it lead to; throws exactly if some file cannot be resolved |
| Resolvers.ResolveRequest.SetBest | src/sw/support/resolver.cpp:19-62 | which version is accepted over which, spelled out |
| Resolvers.ResolveRequest.SetPackage | src/sw/support/resolver.cpp:79-86 | only versions in range are considered |
| Resolvers.ReplacesIff | src/sw/support/resolver.cpp:36-60 | a number replaces a branch, a release a pre-release, and a greater version a smaller one of the same sort; nothing else is replaced |
| Resolvers.BestExists | src/sw/support/resolver.cpp:19-62 | offering candidates to an empty request leaves one in range that is better than all others in range, if there is any |
| Resolvers.BestIsGreatest | src/sw/support/resolver.cpp:19-62 | that is a number if any is in range, a release if any is, and the greatest of its sort |
| Resolvers.BestOfAll | src/sw/support/resolver.cpp:88-105 | the answer without a cache is the greatest of all candidates of all storages |
| Resolvers.OfferedIsSettled | src/sw/support/resolver.cpp:19-62 | for any request only the greatest candidate matters |
| Resolvers.OrderDoesNotMatter | src/sw/support/resolver.cpp:88-105 | the order of rows and storages and repetitions make no difference |
| Resolvers.Resolver.Resolve | src/sw/support/resolver.cpp:88-105 | the result is the greatest of all candidates of all storages, releases before pre-releases, in spite of the early break |
| Resolvers.StoringKeeps | src/sw/manager/storage.cpp:458-463 | storing keeps the cache coherent exactly if the stored version is the uncached answer |
| Resolvers.OnlyNewRequests | src/sw/manager/storage.cpp:488-498 | only a request that comes without a version ends with the best one whatever the storages have |
| Resolvers.CachedStorage.StorePackages | src/sw/manager/storage.cpp:458-463 | one entry of the nested map is set |
| Resolvers.CachedStorage.Resolve | src/sw/manager/storage.cpp:465-476 | a hit is reported even if the request does not accept the stored version |
| Resolvers.CachedStorage.Clear | src/sw/manager/storage.cpp:478-481 | a cleared cache is coherent whatever the storages have |
| Resolvers.CachingResolver.Resolve | src/sw/manager/storage.cpp:488-498 | with a coherent cache every request gets the uncached answer, and the cache stays coherent exactly if the request hits it, or comes without a version or with one that the best version is or replaces |
| Resolvers.CachingResolver.ResolveWith | src/sw/manager/sw_context.cpp:76-82 | using the cache or not makes no difference |
| Resolvers.StaleAnswer | src/sw/manager/storage.cpp:474-475 | a pre-resolved request makes the cache answer a later one with nothing |
| PackagePaths.Parse | src/sw/support/package_path.cpp:25-50 | the constructor splits exactly the valid strings at their dots and throws for the others |
| PackagePaths.ValidIff | src/sw/support/package_path.cpp:14-30 | letters, digits, dots and underscores, up to 4096 of them |
| PackagePaths.ToString | src/sw/support/package_path.cpp:52-61 | the elements joined by the delimiter |
| PackagePaths.JoinSplit | src/sw/support/package_path.cpp:32-61 | parsing and printing is the identity on all strings |
| PackagePaths.JoinThenElements | src/sw/support/package_path.cpp:32-61 | printing and parsing is the identity exactly on the paths a string can be parsed to |
| PackagePaths.LessIsStrictPartialOrder | src/sw/support/package_path.cpp:114-143 | operator< is irreflexive, asymmetric and transitive on all paths |
| PackagePaths.LessIff | src/sw/support/package_path.cpp:114-143 | what goes before what: the empty path, dictionary order below a common first element, and the list of namespaces |
| PackagePaths.IncomparableIff | src/sw/support/package_path.cpp:114-143 | two paths are incomparable exactly if they are equal or start with different unlisted elements |
| PackagePaths.IncomparableIsTransitiveIff | src/sw/support/package_path.cpp:114-143 | incomparability fails to be transitive exactly for different paths with the same first element beside one with another first element, none of them listed |
| PackagePaths.NotAStrictWeakOrder | src/sw/support/package_path.cpp:131-142 | three paths on which incomparability is not transitive |
| PackagePaths.GetHash | src/sw/support/package_path.cpp:258-267 | the two loops fold the lower-case characters |
| PackagePaths.SamePathsSameHash | src/sw/support/package_path.h:41-48 | equal paths have equal hashes |
| PackagePaths.HashIsOfLetters | src/sw/support/package_path.cpp:258-267 | the hash is the fold over all lower-case letters in order; where elements end makes no difference |
| PackagePaths.Back | src/sw/support/package_path.cpp:240-256 | what follows a root, so that root and result make up the path again |
| PackagePaths.HasSameParent | src/sw/support/package_path.cpp:193-208 | the walk to a common root comes down to equality or equal first elements of two longer paths |
| DepFiles.ProcessDepsGnu | src/sw/builder/command.cpp:109-153 | the scanner finds the names of the recursive specification |
| DepFiles.FindIsFirst | src/sw/builder/command.cpp:111-114 | the target ends at the first colon with a blank behind it |
| DepFiles.NoTargetIsCut | src/sw/builder/command.cpp:111-114 | a text without one is scanned whole |
| DepFiles.ZeroEndsText | src/sw/builder/command.cpp:122-125 | a zero character ends the text |
| DepFiles.ReadName | src/sw/builder/command.cpp:126-152 | an escaped name ended by any separator is read as that name |
| DepFiles.RoundTrip | src/sw/builder/command.cpp:97-153 | a printed rule, whose target may contain colons, continued over lines at any points, gives back its names |
| DepFiles.LastNameIff | src/sw/builder/command.cpp:126-153 | the last name, followed by any white space and backslashes, is read back exactly if these make a separator |
| DepFiles.LastNameIsLost | src/sw/builder/command.cpp:126-153 | a name at the very end of the text is not found |

## Left out

- Process launching, response files, logging, traces, graph printing and reports: input and output only.
- Chained commands (`prev`, `next`), command sequences and resource pools: they add waiting around a command and hand its dependencies on.
- The polling loop on `running`, and the exceptions it protects from: the calling thread may gather results at any later time.
- Interrupt and time limit are modelled as steps, but completion theorems assume neither, because tasks that return early still count as waited for.
- Commands with simultaneous outputs are part of `prepare` but not of `ParallelBuild`, whose theorems ask for plans without any: their contents depend on the order of writers.
- ParallelBuild.ParallelEqualsSequential: does not cover commands whose outputs depend on undeclared files.
- TimedBuild.NotOutdatedIsUpToDate: is about builds that throw errors, as by default; where failures are tolerated, a session may not have looked at what a failed command left in its outputs.
- The state left behind by a throwing `prepare`, merge or load beyond what the contracts say.
- FrameStreams.ReadStream: reads all frames before they are entered into the storage, where the source enters each at once; the result of a load that does not run past the end is the same.
- A read past the end of a database file is an outcome of its own; what the stream class then does is not part of this model.
- The append logs: they are removed when they are closed.
- Path normalization, and paths with embedded zero bytes: paths are taken as normalized C strings.
- CommandNodes.CommandNode.Prepare: sorting the arguments, finding the program on the path, saving the hash and taking over the dependencies of the previous command of a chain are left out; whether and as what the program is found is a parameter.
- IncrementalCommands.Command.AfterCommand: every command has a file storage; without one the source returns at once.
- IncrementalCommands.Command.IsTimeChanged: no command lists the empty path among its files, for which the source throws.
- Sessions.RunKeepsSound: a session that ends without saving leaves any content in the two files but an empty path, which no save writes; where the write was cut is not part of a run (`CommandDb.CommandsFileCut` is about that).
- RefreshProtocol.AllAnswersAgree: leaves out threads that mark the file unrefreshed; `AnswersAgreeIff` says when the answers agree with them, `ResetGetsNewTime` what holds in any case.
- Settings that hold a resolver, and floating-point values that are not numbers.
- SettingsJson.RoundTrip: names of packages and versions are kept as their text, so parsing a printed name is taken to give it back.
- PackageSettingsObjects.PackageSettings.MergeSettingFromJson: rejects a number where another kind of number is expected and an object where an array is, which the source converts or walks; no printer writes them.
- `LocalStorage::resolve`'s directory check and the override on a changed hash: they depend on the disk.
- Version parsing and the comparison of two version numbers: numbers are places in a total order with a release flag, ranges are unions of intervals.
- SQL, CSV, network, remotes, archives, drivers, frontends and compiler option tables.
- The cygwin branch of the depfile scanner.
