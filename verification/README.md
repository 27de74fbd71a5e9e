# A model of the update agent

This project models the parts of the updatehub agent where a mistake would cost a device: the A/B update
life cycle over steps, requests, power cuts and boots; the bounded in-memory log and the client that
follows it; the check that refuses to write to storage in use; and the smaller algorithms these rest on
(download directory, back-off, hook metadata). Every theorem is stated for all inputs, all runs or all
boots. Where the obvious statement is false of the code, an if-and-only-if lemma gives the exact condition.

`dafny verify dfyconfig.toml` checks the whole project.

## How it is laid out

| file | what it is about |
|---|---|
| `LogBuffer.dfy`, `LogFollower.dfy` | the log buffer, its offline account, and `log --watch` |
| `BlockDevices.dfy`, `MountTable.dfy`, `Text.dfy` | block devices sharing storage, the mount table, text parsing |
| `Packages.dfy`, `DownloadDir.dfy` | objects and their status, cleanup and download |
| `HookMetadata.dfy`, `Sorting.dfy` | metadata printed by hooks, and the stable sort |
| `SettingsStore.dfy` | the runtime settings in memory and on disk, and the boot flag |
| `Machine.dfy` | one step of the state machine as a function of the world and a choice |
| `Backoff.dfy`, `BusyLoop.dfy` | back-off delays, and why the machine does not spin |
| `Diagram.dfy`, `Outcomes.dfy` | which states follow which, and what comes of each case and of an update on its way |
| `Requests.dfy`, `InstallGate.dfy`, `Runs.dfy` | what requests do, what precedes an install, what every run keeps |
| `Startup.dfy`, `CrashSafety.dfy` | boots, and power cuts over the life of a device |
| `Trails.dfy` | every durable change is a write on the trail, and what begins a turn |
| `WriteAhead.dfy`, `LostUpdate.dfy` | the marks of an install before the swap, and a power cut between them |
| `ExampleRuns.dfy`, `SecondInstall.dfy` | runs that show what can happen, and a second install before the reboot |
| `ReadyObjects.dfy` | what validation finds ready after a download or a local package |
| `Agent.dfy` | the agent's objects, loops and handlers, each proved to do what `Machine` and `Startup` say |

The code that works by changing things step by step is imperative here too: the log buffer, the settings,
the boot flag, the download folder, the state machine and its loops are classes with methods, and the
worklist, mount check, watch loop, chunked reading, parsing and grouping are methods with loops. Each is
proved against a function, and the theorems are about that function. `Agent.StateMachine.Start` carries
the theorems about runs over to the main loop, and `Agent.RunAgent` those about boots to a whole boot.

Where a function says what a handler does, lemmas beside it say in plain cases what it leads to: which reply,
which state next, what is stored. `Outcomes.dfy` has them for the states, and the other files for their own
functions (`StatusIs`, `RepliesAreTrue`, `StartupChanges`, `MetadataReadsBack` and the like).

What the agent does not control is a parameter. A `Choice` holds the requests of a step and the outcome of
callbacks, server, scripts, saves, object installs, the clock and the download directory; a `StartupChoice`
does the same for a boot. Both are arbitrary, so "for all choices" means for every behaviour of the
environment. The trail of a step lists what is on durable storage after each durable write; a power cut
leaves one element of a trail.

Three predicates carry the crash theorems. `Ahead` says that a flag naming the other set is stored along
with that set as the pending upgrade. `SafeNow` says that the flagged set can boot, untouched since it last
booted or completely installed, and that a rollback could land on the other one if the flagged set is
pending; it holds after every startup, however it ends. `Safe` says more of a clean start: the running set
is as it booted.

## What the proofs show about the code

- For life-long crash safety it is not enough that at most one install completes per boot: none may even
  *begin to write* the set the flag names, and that is its target once the flag was swapped
  (`updatehub/src/runtime_settings.rs:151-153`). Nor may one begin while a rollback to its target is
  pending. A package with an empty object list for the target swaps to the other set as it is, so that set
  must be bootable already. `CrashSafety.InstallIsSafeExactlyWhen` is exact about all of it, and
  `SecondInstall.OneCompletedInstallIsNotEnough` runs into it from every clean start.
- A startup error is logged and the run goes on (`updatehub/src/states/mod.rs:367-371`), and so it does
  after the reboot of a rollback was asked for. Crash safety holds for such runs too, under the same
  condition on installs; `Startup.StartupShieldsExactlyWhen` and `Runs.RunningSetIsShieldedExactlyWhen` say
  exactly when the running set is not written in them.
- A swapped flag is on disk as the pending upgrade at every power cut exactly if settings are saved and
  shield the running set (`WriteAhead.FlagIsWrittenLastExactlyWhen`). On storage that is not persistent a
  fresh set boots without being validated.
- A power cut between the two marks of an install (`updatehub/src/states/install.rs:68-77`) loses the
  update: the package counts as applied, nothing is pending, and over any number of boots it is not
  installed again before another package. `LostUpdate.UpdateIsLostExactlyWhen` says exactly when there is
  such a moment.
- A probe whose address does not parse does not refresh the time of the last poll
  (`updatehub/src/states/probe.rs:70-72`). The machine spins exactly while, each time it comes to
  poll, that time lies in the future or an interval has passed since (`BusyLoop.UrlErrorSpinsExactlyWhen`).
- A server that keeps asking for an extra poll (`updatehub/src/states/probe.rs:108-113`) makes the machine
  spin exactly if it asks for zero seconds or less (`BusyLoop.ExtraPollSpinsExactlyWhen`).
- Two waking requests in one queue block the machine for ever on the wake-up channel, and in a wait the
  second one is dropped instead. `Requests.DrainBlocksExactlyWhen` and `Requests.WaitAnswersAllExactlyWhen`
  count the waking requests of a queue from its messages alone.
- A token is posted before the request is known to take effect: if the client went away, or the time of a
  probe cannot be saved, the machine wakes without its new state
  (`updatehub/src/states/machine/mod.rs:86-96`, `Requests.RequestTakesEffectExactlyWhen`).
- The documented diagram (`updatehub/src/states/mod.rs:326-336`) draws Probe leading to Download; the code
  goes through validation, twice for a downloaded package. `Diagram.DiagramIsExact` has every transition.
- A download takes its set from the flag alone (`updatehub/src/states/download.rs:29-30`), validation and
  install from the settings first. They differ exactly while the settings name the flagged set as pending
  (`SecondInstall.SetsDifferExactlyWhen`), as they do after an install that completed.
  `ReadyObjects.DownloadIsAcceptedExactlyWhen` says what validation then accepts.
- A local install extracts the objects of the active set and cleans up for the inactive one
  (`updatehub/src/states/prepare_local_install.rs:69-94`), while validation looks at the target. So the
  objects of the target must share their digests with the other set's, or be in the directory already
  (`ReadyObjects.LocalPackageIsAcceptedExactlyWhen`).
- The comment in `updatehub/src/states/download.rs:76` says duplicates are removed, but only equal
  neighbours are (`DownloadDir.DedupRemovesAllExactlyWhen`).
- Cleanup fails when two objects of a set find one file corrupted, as it is removed twice;
  `DownloadDir.DownloadFolder.ClearUnrelatedFiles` succeeds exactly under `CanCleanUp`.
- A hook directory gives different metadata for another order of its entries exactly if one of several
  hooks prints nothing and all else is valid (`HookMetadata.DirectoryOrderMattersExactlyWhen`).
- The documentation of `related_block_devices` promises every device sharing storage. A disk recorded as a
  parent before it is popped is never walked; `BlockDevices.NothingIsMissedExactlyWhen` says exactly when
  that misses something, as it does in `BlockDevices.SecondPartitionIsMissed`.
- When the agent restarts, its indices start over. `LogFollower.RestartMissesNothingExactlyWhen` says
  exactly which entries the follower then misses.

## Model

| member | source | states |
|---|---|---|
| `LogBuffer.DataBytesRemoves` | updatehub/src/mem_drain.rs:89-95 | the size of a record's data does not depend on the order in which its pairs are visited |
| `LogBuffer.MeasureRecord` | updatehub/src/mem_drain.rs:89-95 | visiting the pairs in any order gives the one size of the record |
| `LogBuffer.SizeCountsEveryByte` | updatehub/src/mem_drain.rs:89-95 | each byte of level, message, time, keys and values counts once, beside the record itself |
| `LogBuffer.RecordBuffer.ClearEntries` | updatehub/src/mem_drain.rs:59-62 | entries and bytes go, the number ever inserted stays |
| `LogBuffer.RecordBuffer.PushRecord` | updatehub/src/mem_drain.rs:64-85 | counting a repeat, or appending and evicting in a loop, gives exactly the record-level specification `Push`, which the lemmas below relate to the offline account |
| `LogBuffer.MemDrain.StartLogging` | updatehub/src/mem_drain.rs:139-142 | a new operation discards what the previous one left and records |
| `LogBuffer.MemDrain.SetRecording` | updatehub/src/mem_drain.rs:144-153 | the scope changes, what is held does not |
| `LogBuffer.MemDrain.Record` | updatehub/src/mem_drain.rs:197-215 | a record is kept only while recording is on |
| `LogBuffer.MemDrain.RecordOutOfScope` | updatehub/src/logger.rs:51-60 | everything logged meanwhile is pushed whatever the scope was, and the scope is restored |
| `LogBuffer.ScopeIsKept` | updatehub/src/mem_drain.rs:138-153 | a start empties the buffer and records, switching keeps what is held, nothing is recorded while off, and while on the newest entry is the record logged last |
| `LogBuffer.RunLengthDecodes` | updatehub/src/mem_drain.rs:64-73 | the run-length account of a history decodes to that history: each decoded record is the logged one but for its time |
| `LogBuffer.RunLengthIsMaximal` | updatehub/src/mem_drain.rs:64-73 | adjacent runs differ in level, message or data |
| `LogBuffer.RunLengthCounts` | updatehub/src/mem_drain.rs:46-50 | the counts of the runs add up to the number of records |
| `LogBuffer.EvictRetains` | updatehub/src/mem_drain.rs:79-84 | evicting from the front one by one stops at the longest suffix that may be kept, for any suffix of the runs it starts from |
| `LogBuffer.PushRetains` | updatehub/src/mem_drain.rs:64-85 | one push keeps the buffer equal to the retained suffix of the runs, and counts an insertion exactly for a new run |
| `LogBuffer.RetainedIsUnique` | updatehub/src/mem_drain.rs:79-84 | there is only one longest suffix, so the offline account determines the buffer |
| `LogBuffer.OnlineEqualsOffline` | updatehub/src/mem_drain.rs:59-85 | after any sequence of records, scope changes and starts, the buffer is the longest suffix of the run-length encoding of the accepted history that fits the bound, or the newest run alone |
| `LogBuffer.HeldAndEvictedAddUp` | updatehub/src/mem_drain.rs:59-85 | held counts plus evicted counts equal the records accepted since the last start |
| `LogBuffer.BufferIsBounded` | updatehub/src/mem_drain.rs:32-35 | the byte counter is exact, the bound holds or one entry is left, and adjacent held entries differ in level, message or data |
| `LogBuffer.StepKeepsIndices` | updatehub/src/mem_drain.rs:54-85 | no operation moves an end of the index range back, and an index held before and after names the same record up to its count |
| `LogBuffer.IndicesAreStable` | updatehub/src/mem_drain.rs:36-39 | the same over any events, so a reader can tell entries apart by index |
| `LogFollower.Watch` | updatehub/src/main.rs:135-147 | the loop prints exactly `Printed`, and its subtraction is safe for arbitrary answers |
| `LogFollower.PrintSkipping` | updatehub/src/main.rs:139-141 | skipping entries prints the rest with their absolute indices |
| `LogFollower.PrintsExactlyOnce` | updatehub/src/main.rs:131-147 | over snapshots whose ends never move back: increasing indices, an index is printed exactly if some snapshot held it, and what is printed is what a snapshot held there |
| `LogFollower.PrintsWhatIsShown` | updatehub/src/main.rs:139-141 | for any answers at all, a printed entry is one a snapshot held under the printed index |
| `LogFollower.AgentAdvances` | updatehub/src/mem_drain.rs:54-85 | snapshots of one agent process taken at any moments are such snapshots |
| `LogFollower.PrintedIsTheAgentsRecord` | updatehub/src/main.rs:131-147 | a printed line was in the agent's buffer at some poll, and agrees with what the buffer holds under that index at every other |
| `LogFollower.FollowerPrintsExactlyOnce` | updatehub/src/main.rs:131-147 | for any interleaving of pushes, evictions, starts and polls of one agent process, every index seen is printed once and in order, with the record the agent has under that index at any time, up to its count |
| `LogFollower.RestartMissesNothingExactlyWhen` | updatehub/src/main.rs:131-147 | after the agent restarted, exactly which entries are missed, and that none is if and only if the first answer is empty or starts no earlier than the loop resumes |
| `LogFollower.RestartIsNotFollowed` | updatehub/src/main.rs:131-147 | concrete answers around an agent restart after which an entry is missed, so the one-process hypothesis is needed |
| `BlockDevices.RelatedBlockDevices` | updatehub/src/utils/fs.rs:154-181 | the worklist terminates on any finite graph, finds only related devices, and in a tidy graph finds exactly those related without walking the target's own disk |
| `BlockDevices.WalkIsSound` | updatehub/src/utils/fs.rs:154-181 | nothing unrelated is found, whatever sysfs says |
| `BlockDevices.TidyWalkIsExact` | updatehub/src/utils/fs.rs:154-181 | both directions of the closure in a tidy graph |
| `BlockDevices.RelatedIsLeast` | updatehub/src/utils/fs.rs:148-153 | related devices are within any set that holds the target, the partitions of its whole devices and their holders, and the parents of its partitions |
| `BlockDevices.RelatedHolds` | updatehub/src/utils/fs.rs:148-153 | and they do hold all of those |
| `BlockDevices.OnlyOwnDiskIsNotWalked` | updatehub/src/utils/fs.rs:168-175 | in a tidy graph no disk other than the target's own is recorded without being walked |
| `BlockDevices.NothingIsMissedExactlyWhen` | updatehub/src/utils/fs.rs:159-177 | leaving the recorded disk unwalked loses nothing if and only if the disk is not reachable from the target or adds nothing |
| `BlockDevices.NothingIsMissedWithoutCycles` | updatehub/src/utils/fs.rs:159-177 | nothing is missed if partitions and holders never lead back and the target's disk lists it |
| `BlockDevices.SecondPartitionIsMissed` | updatehub/src/utils/fs.rs:159-177 | a tidy graph with such a cycle in which a related partition is missed |
| `BlockDevices.SiblingsAreLeftOut` | updatehub/src/utils/fs.rs:152-153 | sibling partitions are never related to a partition target |
| `MountTable.ParseReadsBack` | updatehub/src/utils/fs.rs:136-146 | for any number of optional fields, parsing a written line gives back device, source and mount point |
| `MountTable.EntryParsesExactlyWhen` | updatehub/src/utils/fs.rs:136-146 | any line is an entry if and only if it has five words, the third a pair of numbers, and two words after the first lone dash; which words it then names |
| `MountTable.CollectDevices` | updatehub/src/utils/fs.rs:85-95 | the collected devices share storage with the target or one of its named sources, and in a tidy graph are all of them |
| `MountTable.FindMounted` | updatehub/src/utils/fs.rs:97-102 | the entry found uses the target, and none is found only if no entry does |
| `MountTable.EnsureNotMounted` | updatehub/src/utils/fs.rs:74-110 | refusal is sound for any graph and exact for a tidy one; a missing target is free, an unreadable one an error |
| `MountTable.MountedSiblingIsHarmless` | updatehub/src/utils/fs.rs:148-153 | a filesystem on a sibling partition does not keep a partition from being written |
| `Text.SplitJoin` | updatehub/src/utils/fs.rs:137 | splitting at whitespace undoes joining words |
| `Text.ParseDecimal` | updatehub/src/utils/fs.rs:142 | parsing a decimal number in range gives it back |
| `Text.ParseAcceptsDecimalsOnly` | updatehub/src/utils/fs.rs:142 | a plus sign is allowed; the empty text, any other character and what exceeds 64 bits are refused |
| `Text.WhitespaceIs` | updatehub/src/utils/fs.rs:137 | exactly the characters of the Unicode property White_Space separate words |
| `Backoff.RetryDelayIsCappedPower` | updatehub/src/states/probe.rs:25-34 | the clamped shift equals the unbounded power capped by the interval and an hour, between one second and the cap |
| `Backoff.CapFitsTheInterval` | updatehub/src/states/probe.rs:20-28 | the cap is the most whole seconds that fit the polling interval, between a second and an hour |
| `Backoff.RetryDelayGrows` | updatehub/src/states/probe.rs:19-24 | more failures never wait less |
| `Backoff.WaitsDouble` | updatehub/src/states/probe.rs:19-24 | until the cap is met, n failures wait 2^n - 1 seconds in total |
| `Backoff.WaitsSaturate` | updatehub/src/states/probe.rs:19-24 | after that the total grows by exactly the cap for each failure |
| `HookMetadata.MetadataValueFromStr` | updatehub/src/firmware/hook.rs:45-66 | parsing, sorting and grouping gives the specified map, or the error exactly if some line is malformed |
| `HookMetadata.ParsePairs` | updatehub/src/firmware/hook.rs:46-57 | all pairs in order, or an error at the first line without a separator |
| `HookMetadata.GroupByKey` | updatehub/src/firmware/hook.rs:60-63 | filling the map in a loop groups the values by key |
| `HookMetadata.LineOrderIsIrrelevant` | updatehub/src/firmware/hook.rs:45-66 | any permutation of the lines gives the same result, map or error |
| `HookMetadata.MetadataHoldsEveryLine` | updatehub/src/firmware/hook.rs:58-63 | each key's list is sorted and holds each value as often as it was printed, and no key is invented |
| `HookMetadata.LineReadsBack` | updatehub/src/firmware/hook.rs:48 | a line that holds a key and a value, padded with whitespace anywhere around them, gives that key and that value, if the key has no separator |
| `HookMetadata.MetadataReadsBack` | updatehub/src/firmware/hook.rs:45-66 | from any such lines, each value is found under its key as often as it was printed there, in sorted order, and nothing else is |
| `HookMetadata.LinesAreRefusedExactlyWhen` | updatehub/src/firmware/hook.rs:49-54 | an error if and only if some line has no separator |
| `HookMetadata.TrimOf` | updatehub/src/firmware/hook.rs:48 | trimming removes the whitespace around a text and no more |
| `HookMetadata.LinesReadBack` | updatehub/src/firmware/hook.rs:47 | splitting a text of lines, ended by newlines or carriage returns and newlines, gives back the lines |
| `HookMetadata.LexLeIsLexicographic` | updatehub/src/firmware/hook.rs:58 | the order of values: a prefix comes first, or else the first difference decides |
| `HookMetadata.OutputsGive` | updatehub/src/firmware/hook.rs:19-26 | joining trimmed outputs gives the lines of all hooks, unless a silent hook leaves a blank line, which is an error |
| `HookMetadata.HookOrderMattersExactlyWhen` | updatehub/src/firmware/hook.rs:19-26 | the order of the hooks matters if and only if there are several, exactly one prints nothing, and all lines are valid |
| `HookMetadata.RunHooksFromDir` | updatehub/src/firmware/hook.rs:19-26 | the loop collects the trimmed outputs up to the first hook that fails, which is an error, and parses their join |
| `HookMetadata.DirectoryOrderMattersExactlyWhen` | updatehub/src/firmware/hook.rs:11-26 | over arbitrary hooks: another order of the directory can give another result if and only if all hooks run and exactly one of several prints nothing while the others print only valid lines |
| `Sorting.SortSorts` | updatehub/src/states/install.rs:60 | sorting by a total preorder leaves no pair out of order |
| `Sorting.SortIsStable` | updatehub/src/states/install.rs:60 | elements the order does not tell apart keep their order |
| `Sorting.SortedIsUnique` | updatehub/src/firmware/hook.rs:58 | under a total order a multiset has one sorted arrangement |
| `Packages.HashContent` | updatehub/src/object/info.rs:56-66 | reading in chunks of any length up to 1024 feeds the hasher the whole content |
| `Packages.FileStatus` | updatehub/src/object/info.rs:45-73 | the status of a readable file: missing, incomplete without reading it, corrupted or ready by digest |
| `Packages.StatusIs` | updatehub/src/object/info.rs:45-73 | the exact condition of each of the four verdicts, in terms of what is in the directory |
| `DownloadDir.DownloadFolder.RemoveAll` | updatehub/src/update_package/mod.rs:122-137 | removing files in any order succeeds exactly if each can be removed, and loses nothing else |
| `DownloadDir.DownloadFolder.RemoveEach` | updatehub/src/update_package/mod.rs:147-151 | removing a list in turn succeeds exactly if each can be removed and none is listed twice |
| `DownloadDir.DownloadFolder.ClearUnrelatedFiles` | updatehub/src/update_package/mod.rs:115-154 | cleanup succeeds exactly under `CanCleanUp`, then leaves exactly the survivors; when it fails nothing new is there and every survivor still is |
| `DownloadDir.OnlyUsefulFilesRemain` | updatehub/src/update_package/mod.rs:121-151 | every regular file left is named by an object and no object finds it corrupted |
| `DownloadDir.SurvivorsAre` | updatehub/src/update_package/mod.rs:121-151 | a file survives if and only if an object names it or it is no regular file, it is neither metadata nor signature, and no object finds it corrupted |
| `DownloadDir.UsefulIsKeptExactlyWhen` | updatehub/src/update_package/mod.rs:121-151 | what was ready or incomplete keeps that status if and only if it is not named like a leftover and no object of its digest finds it corrupted |
| `DownloadDir.PendingCoversWhatIsMissing` | updatehub/src/states/download.rs:37-80 | the pending list holds exactly the names and digests of the objects that are neither remote nor ready |
| `DownloadDir.DedupRemovesAllExactlyWhen` | updatehub/src/states/download.rs:76-77 | nothing is downloaded twice if and only if equal entries stand next to each other |
| `DownloadDir.StartDownload` | updatehub/src/states/download.rs:25-101 | cleanup, then the pending objects in turn up to the first failure, which may leave anything in its file; after a failed cleanup nothing new is in the directory and every survivor is |
| `DownloadDir.HonestDownloadMakesReady` | updatehub/src/states/download.rs:84-98 | a download that succeeds from a server delivering the right content leaves every needed object ready |
| `SettingsStore.BootFlag.Inactive` | updatehub/src/firmware/installation_set.rs:45-50 | the other set, or an error of the script |
| `SettingsStore.BootFlag.SwapActive` | updatehub/src/firmware/installation_set.rs:57-60 | the flag moves to the other set exactly if the scripts succeed |
| `SettingsStore.RuntimeSettings.Load` | updatehub/src/runtime_settings.rs:79-104 | stored settings, or the defaults if the file is absent or does not parse, made persistent unless storage is read-only |
| `SettingsStore.RuntimeSettings.WriteOut` | updatehub/src/runtime_settings.rs:126-142 | saving replaces the stored record as a whole, and is skipped without complaint when not persistent |
| `SettingsStore.RuntimeSettings.DisableForcePoll` | updatehub/src/runtime_settings.rs:166-170 | memory changes even when the save fails |
| `SettingsStore.RuntimeSettings.SetLastPolling` | updatehub/src/runtime_settings.rs:188-192 | memory changes even when the save fails |
| `SettingsStore.RuntimeSettings.SetAppliedPackageUid` | updatehub/src/runtime_settings.rs:198-202 | the package is marked in memory, and on disk if the save succeeds |
| `SettingsStore.RuntimeSettings.SetUpgradingTo` | updatehub/src/runtime_settings.rs:204-208 | the target is marked in memory, and on disk if the save succeeds |
| `SettingsStore.RuntimeSettings.ResetInstallationSettings` | updatehub/src/runtime_settings.rs:228-238 | both marks go and a probe is forced, in one save |
| `SettingsStore.RuntimeSettings.GetInactiveInstallationSet` | updatehub/src/runtime_settings.rs:148-156 | the pending set if there is one, otherwise the set the flag does not name |
| `SettingsStore.SavedIsLoadedAgain` | updatehub/src/runtime_settings.rs:79-142 | settings that were saved are loaded again, all of them |
| `SettingsStore.SaveFailsExactlyWhen` | updatehub/src/runtime_settings.rs:126-142 | a save fails if and only if settings are persistent and cannot be written, and then the file stays as it was |
| `SettingsStore.LoadingIs` | updatehub/src/runtime_settings.rs:41-62 | what is loaded from a file and without one, and that only persistency is changed by it |
| `SettingsStore.InactiveSetIs` | updatehub/src/runtime_settings.rs:148-156 | the pending set, or else B for A and A for B |
| `Agent.StateMachine.HandleStartupCallbacks` | updatehub/src/states/mod.rs:222-258 | the startup handler does to settings and flag what `Startup.HandleStartup` says, which the startup and crash theorems are about |
| `Agent.StateMachine.HandleEntryPoint` | updatehub/src/states/entry_point.rs:29-54 | a forced probe is taken once, otherwise the custom server is dropped |
| `Agent.StateMachine.HandlePoll` | updatehub/src/states/poll.rs:27-41 | the transition of the specification `PollKeepsTheInterval` is about |
| `Agent.StateMachine.HandleProbe` | updatehub/src/states/probe.rs:63-133 | retries are counted or forgotten and the time of the poll is stored as the answer demands |
| `Agent.StateMachine.CancelProbe` | updatehub/src/states/probe.rs:37-50 | a cancelled probe refreshes the time of the last poll, whether or not it can be saved |
| `Agent.StateMachine.HandleValidation` | updatehub/src/states/validation.rs:34-127 | the checks with their early returns decide as `ValidationAcceptsExactlyWhen` states |
| `Agent.StateMachine.InstallObjects` | updatehub/src/states/install.rs:54-65 | objects are begun in install order until one fails; all of them make the target hold the package |
| `Agent.StateMachine.MarkAndSwap` | updatehub/src/states/install.rs:67-82 | two saved marks and the swap, in that order, stopping at the first failure |
| `Agent.StateMachine.HandleInstall` | updatehub/src/states/install.rs:44-89 | the whole handler refines the specification the crash theorems are about |
| `Agent.StateMachine.HandleMessage` | updatehub/src/states/machine/mod.rs:46-97 | one request: reply, next state, token and saved settings of the specification |
| `Agent.StateMachine.PostToken` | updatehub/src/states/machine/mod.rs:218 | the wake-up channel holds one token, a second post waits |
| `Agent.StateMachine.AnswerProbe` | updatehub/src/states/machine/mod.rs:99-150 | a requested probe posts the token before the time of the poll is stored |
| `Agent.StateMachine.HandleRequests` | updatehub/src/states/machine/mod.rs:306-324 | each request is handled by the state the one before left, up to one that blocks |
| `Agent.StateMachine.ServeDownload` | updatehub/src/states/machine/mod.rs:152-164 | requests are heard during a download until one of them replaces the state |
| `Agent.StateMachine.HandleDownload` | updatehub/src/states/download.rs:131-150 | a replaced state wins over the download, otherwise the download's result decides |
| `Agent.StateMachine.MoveToNextState` | updatehub/src/states/mod.rs:284-301 | the dispatch with both kinds of callback handling |
| `Agent.StateMachine.AwaitCommunication` | updatehub/src/states/machine/mod.rs:268-302 | a token ends the wait at once; one posted meanwhile ends it too and drops a request that waits to post another |
| `Agent.StateMachine.Turn` | updatehub/src/states/machine/mod.rs:254-303 | one turn of the loop is one `Machine.Step`, with the same durable writes in the same order |
| `Agent.StateMachine.Start` | updatehub/src/states/machine/mod.rs:253-304 | the loop over any number of turns is `Machine.Run`, so what is proved of runs holds of it |
| `Agent.RunAgent` | updatehub/src/states/mod.rs:357-371 | one whole boot leaves exactly the durable writes of `BootTrail`, and every one of them boots if installs begin when they may |
| `Requests.RequestEffect` | updatehub/src/states/machine/mod.rs:46-208 | one request: when it posts a token, when it blocks, which states it can replace, and the mode it leads to |
| `Requests.RequestReply` | updatehub/src/states/machine/mod.rs:54-96 | a request is answered in kind unless it is left waiting to post |
| `Requests.RepliesAreTrue` | updatehub/src/states/machine/mod.rs:46-207 | what each reply says: the state and settings as they were, whether the request was accepted, and what the server answered; a refused request changes nothing |
| `Requests.EachIsAnsweredInKind` | updatehub/src/states/machine/mod.rs:306-314 | over any queue each request gets one reply of its own kind, in order, up to one that blocks |
| `Requests.AnsweredAsFarAsHandled` | updatehub/src/states/machine/mod.rs:306-314 | there are exactly as many replies as requests were handled without blocking |
| `Requests.BusyStatesIgnoreRequests` | updatehub/src/states/mod.rs:76-82 | installing, rebooting, the error state and preparing a local install keep the whole world over any queue, and answer each request |
| `Requests.IdleStatesHeedInstalls` | updatehub/src/states/machine/mod.rs:166-207 | parked, at the entry point, polling, probing or validating, an install that a client asks for and listens to is prepared or fetched, and wakes the machine |
| `Requests.IdleStatesHeedProbes` | updatehub/src/states/machine/mod.rs:99-150 | there a probe that is answered takes effect and wakes the machine, its time and custom server are kept, and the time is saved |
| `Requests.OnlyAbortsEndADownload` | updatehub/src/states/machine/mod.rs:152-164 | a download is left if and only if a client that still listens aborts it, and then for the entry point with nothing else changed |
| `Requests.ReplacedStateWakes` | updatehub/src/states/machine/mod.rs:131-140 | a preemptive state is replaced only along with a token |
| `Requests.WaitingMachineIsWoken` | updatehub/src/states/machine/mod.rs:268-302 | the machine waits only in preemptive states, and a state replaced while it waits has a token |
| `Requests.DrainBlocksExactlyWhen` | updatehub/src/states/machine/mod.rs:218 | draining a queue blocks for ever if and only if the queue, going by its messages alone, holds two requests that wake the machine, or one with a token already posted |
| `Requests.WaitAnswersAllExactlyWhen` | updatehub/src/states/machine/mod.rs:268-302 | in a wait every request is answered if and only if no two of the queue wake the machine, and the machine never blocks |
| `Requests.RequestTakesEffectExactlyWhen` | updatehub/src/states/machine/mod.rs:86-96 | a waking request posts its token in any case, and its state takes effect if and only if the client still listens and a probe's time could be saved |
| `InstallGate.ValidationAcceptsExactlyWhen` | updatehub/src/states/validation.rs:34-127 | install, download, dropping and refusal, each exactly under its condition on signature, hardware, modes, requirements, readiness and the applied package |
| `InstallGate.StepIntoInstall` | updatehub/src/states/validation.rs:92-126 | a step that ends in an install, whatever requests it handled, dispatched a validation that passed and changed nothing else |
| `InstallGate.EveryInstallWasValidated` | updatehub/src/states/install.rs:48-55 | in every run with any requests, every install handled was validated in the step before, same package, same download directory, same target set |
| `Runs.StepIsQuiet` | updatehub/src/states/machine/mod.rs:254-303 | a step that does not install keeps flag, images, writes, pending upgrade and applied package, in memory and in every durable write |
| `Runs.InstallWritesInOrder` | updatehub/src/states/install.rs:54-82 | objects are written once each in install order, and after a failure at any position settings, disk and flag are as before |
| `Runs.InstallOrderIsStable` | updatehub/src/states/install.rs:57-60 | the order is a permutation of the package's list, sizes never grow, ties keep the listed order |
| `Runs.RunKeepsRunningSet` | updatehub/src/states/install.rs:48-65 | the invariant over every run: no pending upgrade and the flag names the booted set, or the other set is pending; the booted set is never written |
| `Runs.UnshieldedSetIsWritten` | updatehub/src/runtime_settings.rs:148-156 | from any other start, an environment and a run that write the booted set |
| `Runs.RunningSetIsShieldedExactlyWhen` | updatehub/src/runtime_settings.rs:148-156 | no run from a start writes the booted set if and only if that start satisfies the invariant |
| `Diagram.DiagramIsExact` | updatehub/src/states/mod.rs:320-336 | one kind of state is followed by another, in some environment and world, if and only if the full diagram draws it; the documented one leaves out validation, local installs and errors |
| `Diagram.OnlyAsDrawn` | updatehub/src/states/mod.rs:284-301 | no handler, callback, failure or abort leads anywhere else |
| `Outcomes.ProbeLeadsTo` | updatehub/src/states/probe.rs:63-133 | where each answer leads: an update to its validation before the download, no update to the entry point, an extra poll to a wait of its seconds |
| `Outcomes.EntryPointLeadsTo` | updatehub/src/states/entry_point.rs:29-54 | a forced probe is made once, otherwise the custom server is forgotten and polling goes on if it is enabled |
| `Outcomes.FailuresEndInError` | updatehub/src/states/machine/mod.rs:261-266 | every failure of a handler, a save or a reported callback ends in the error state and leaves flag and images alone |
| `Outcomes.FailedCallbackIsAnError` | updatehub/src/states/mod.rs:187-204 | in a reported state a callback that fails is an error before anything is done |
| `Outcomes.CancelledEndsAtTheEntryPoint` | updatehub/src/states/mod.rs:94-131 | what is cancelled ends at the entry point with nothing done, but for the time of a probe |
| `Outcomes.FetchedIsValidated` | updatehub/src/states/download.rs:166-181 | a download, a fetched package and a local one each go on to what validates them next |
| `Outcomes.AbortEndsTheDownload` | updatehub/src/states/download.rs:141-164 | an abort that a listening client asks for leads to the entry point, whether or not the download was done |
| `Outcomes.InstallSwapsExactlyWhen` | updatehub/src/states/install.rs:44-89 | an install ends in a reboot with the flag swapped and both marks set if and only if it has a target, every object installs, both marks can be saved and the swap succeeds; otherwise in the error state with the flag as it was |
| `Outcomes.ValidationLooksAtTheTarget` | updatehub/src/states/validation.rs:34-127 | validation over the two lists of a package: the first is for set A, the second for set B, and signature, hardware, modes, requirements, readiness and the applied package decide as spelled out |
| `Outcomes.InstallWritesTheTarget` | updatehub/src/update_package/mod.rs:82-94 | a completed install writes exactly the objects listed for its target, larger ones first and those of one size as listed |
| `Outcomes.OfferedUpdateIsDownloaded` | updatehub/src/states/probe.rs:115-131 | an update the server offers, that suits the device and is not the applied one, is being downloaded two steps after the probe |
| `Outcomes.DownloadedUpdateIsInstalled` | updatehub/src/states/download.rs:131-181 | three steps after a download that made everything ready, the target holds the package, which is applied and pending, and the flag is swapped |
| `Trails.TrailIsComplete` | updatehub/src/states/machine/mod.rs:253-304 | over every run, the durable states noted begin with what was durable at the start and end with what is durable now, so no durable change goes unnoted |
| `Trails.BootTrailIsComplete` | updatehub/src/states/mod.rs:357-371 | the same of a boot and its startup |
| `Trails.TokenIsDischarged` | updatehub/src/states/machine/mod.rs:255-257 | a token that is there when a turn begins makes no difference |
| `Trails.RequestsComeFirst` | updatehub/src/states/machine/mod.rs:259-265 | pending requests are handled before the state: the turn goes on as one from the world they leave |
| `Startup.TwoBootsSettle` | updatehub/src/states/mod.rs:222-258 | from any stored upgrade and flag, two error-free boots leave nothing pending, and the flag moved once exactly if the pending set booted and failed validation |
| `Startup.StartupEndsExactlyWhen` | updatehub/src/states/mod.rs:222-258 | the exact conditions of a clean startup and of a rollback |
| `Startup.StartupChanges` | updatehub/src/states/mod.rs:222-258 | the flag moves exactly on a rollback that swaps, the settings are reset exactly when the booted set is confirmed, and nothing else changes |
| `Startup.BootIs` | updatehub/src/states/mod.rs:357-371 | the flagged set boots, and the machine starts at its entry point |
| `Startup.ConfirmedBootProbesFirst` | updatehub/src/runtime_settings.rs:228-238 | after a confirmed upgrade both marks are gone, on disk too, and the first step goes to the probe, or to an error if that cannot be saved |
| `Startup.StartupShieldsExactlyWhen` | updatehub/src/states/mod.rs:226-255 | startup establishes the invariant if and only if the booted set was not pending or was validated and confirmed |
| `WriteAhead.FlagIsWrittenLast` | updatehub/src/states/install.rs:67-82 | with saved settings that shield the running set, at every durable write of every run: a flag naming the other set is stored along with that set as the pending upgrade |
| `WriteAhead.FlagIsWrittenLastExactlyWhen` | updatehub/src/runtime_settings.rs:126-142 | over all environments and runs from a start, that is so if and only if the start is written ahead and either its settings are saved and shield the running set, or nothing is saved and the disk names the other set already |
| `WriteAhead.FreshInstallIsValidated` | updatehub/src/states/mod.rs:226-248 | such a set, when it boots, is validated before anything is reset, or rolled back to the set that ran before |
| `WriteAhead.ConfirmedAfterValidationExactlyWhen` | updatehub/src/states/mod.rs:226-255 | a set that boots is confirmed only after validation if and only if it is on disk as the pending upgrade |
| `LostUpdate.UpdateIsLostExactlyWhen` | updatehub/src/states/install.rs:68-77 | some durable write of an install leaves the package marked as applied with nothing pending if and only if storage is persistent, no other upgrade was pending, the target is known, every object installed and the first mark was saved; the flag has not moved then |
| `LostUpdate.LostUpdateIsRefused` | updatehub/src/states/validation.rs:84-90 | the next boot is clean, and validation does not let that package through |
| `LostUpdate.LostOverBoots` | updatehub/src/runtime_settings.rs:198-202 | any number of boots that install nothing, each cut at any durable write, leave the package marked with nothing pending |
| `LostUpdate.LostUpdateStaysLost` | updatehub/src/states/validation.rs:84-90 | over any number of boots that install nothing, each cut anywhere, and the run of a further one: the first package installed is another one |
| `CrashSafety.InstallStaysSafe` | updatehub/src/states/install.rs:48-82 | after a clean start, an install that may begin keeps the running set as it booted at each of its durable writes |
| `CrashSafety.InstallIsSafeExactlyWhen` | updatehub/src/states/install.rs:48-82 | from any safe world, also after a failed startup, an install keeps every cut bootable if and only if it writes another set than the flagged one and no rollback to that set is pending, or writes nothing and swaps to a bootable set |
| `CrashSafety.RunStaysSafe` | updatehub/src/states/machine/mod.rs:253-304 | every run from a safe world whose installs begin when they may is bootable at each of its durable writes |
| `CrashSafety.CleanRunStaysSafe` | updatehub/src/states/machine/mod.rs:253-304 | after a clean start, moreover, the running set stays as it booted and is never the pending one |
| `CrashSafety.StartupStaysSafe` | updatehub/src/states/mod.rs:222-258 | every startup of a bootable device, however it ends and whether or not settings are stored, leaves a safe world and bootable durable writes |
| `CrashSafety.BootStaysSafe` | updatehub/src/states/mod.rs:357-371 | one boot, its startup and the run that follows whatever came of it, cut anywhere, leaves a device that boots if its installs begin when they may; a rollback moves the flag to the other set, which can boot |
| `CrashSafety.LifelongCrashSafety` | updatehub/src/states/install.rs:48-82 | for any number of boots, each configured in its own way, with any outcome of its startup, with or without stored settings, and cut at any durable write: if installs begin when they may, the set that boots is untouched since it last booted or completely installed, and so is the set a rollback would land on |
| `SecondInstall.OneCompletedInstallIsNotEnough` | updatehub/src/states/install.rs:48-82 | from every clean start, a run in which one install completes, a callback cancels the reboot and a second install is cut leaves a device that cannot boot |
| `SecondInstall.SetsDifferExactlyWhen` | updatehub/src/states/download.rs:29-30 | download and install are for different sets if and only if the settings name the flagged set as pending |
| `SecondInstall.SetsComeToDiffer` | updatehub/src/runtime_settings.rs:148-156 | from every clean start, a run that reaches such a world |
| `ReadyObjects.ReadyAfterDownloadExactlyWhen` | updatehub/src/states/download.rs:33-98 | after a successful download from an honest server, any object of the package is ready if and only if the cleanup left it ready or an object of its digest had to be fetched |
| `ReadyObjects.DownloadIsAcceptedExactlyWhen` | updatehub/src/states/validation.rs:59-122 | validation accepts a downloaded package if and only if it suits the device, is not the applied one, and each needed object of its target was left ready or fetched for the set of the download |
| `ReadyObjects.DownloadForItsSetIsAccepted` | updatehub/src/states/validation.rs:95-108 | while the sets agree, a download makes every needed object ready |
| `ReadyObjects.DownloadForTheOtherSetIsRefused` | updatehub/src/states/validation.rs:95-122 | while the sets differ, validation does not install a downloaded package whose target needs an object the other set does not hold, given that what the directory held under that name was a regular file |
| `ReadyObjects.ReadyAfterUnpackingExactlyWhen` | updatehub/src/states/prepare_local_install.rs:69-94 | after a local package was unpacked, an object of the inactive set is ready if and only if the active set shares its digest or it was ready before, one of the active set if and only if the inactive set shares its digest |
| `ReadyObjects.LocalPackageIsAcceptedExactlyWhen` | updatehub/src/states/prepare_local_install.rs:69-107 | validation accepts a local package if and only if it suits the device, is not the applied one, and every needed object of its target is ready in that sense |
| `BusyLoop.PollKeepsTheInterval` | updatehub/src/states/poll.rs:27-41 | the poll waits until exactly one interval after the last, and is immediate if and only if the last is in the future or a whole second overdue |
| `BusyLoop.StepRanksDown` | updatehub/src/states/machine/mod.rs:254-303 | without requests every step that is over at once lowers an explicit rank, whatever callbacks, handlers and saves do |
| `BusyLoop.NoBusyLoop` | updatehub/src/states/machine/mod.rs:253-304 | from any state no more than 56 steps in a row are over at once, immediate or with a sleep of zero or less, for a parsing address, extra polls after some time, and a clock that never goes back and advances less than an interval |
| `BusyLoop.UrlErrorComesBack` | updatehub/src/states/probe.rs:70-72 | with an address that does not parse, four steps lead back to the same world, all of them over at once if and only if the last poll is overdue or in the future |
| `BusyLoop.UrlErrorSpinsExactlyWhen` | updatehub/src/states/probe.rs:70-72 | for any readings of the clock, every step is over at once if and only if the last poll is overdue or in the future each time the round comes to poll |
| `BusyLoop.ExtraPollSpinsExactlyWhen` | updatehub/src/states/probe.rs:108-113 | under a repeated extra poll chains of every length are over at once if and only if it is asked for after zero seconds or less |
| `BusyLoop.RetriesCountFailures` | updatehub/src/states/probe.rs:81-92 | in every run the retry counter is the number of probes that failed since the last answer, whatever requests, installs and errors come in between |
| `BusyLoop.ProbeTimeIsStored` | updatehub/src/states/probe.rs:37-50 | an answered or cancelled probe is what the interval counts from, also after a restart if it could be saved |
| `BusyLoop.FailedProbeBacksOff` | updatehub/src/states/probe.rs:73-89 | a failed probe waits the back-off of one more failure and stays a probe |
| `BusyLoop.FailuresWait` | updatehub/src/states/probe.rs:73-92 | n failures in a row from zero make the machine wait as long in total as the back-off says |
## Left out

- Agent.StateMachine.InstallObjects: installs from a sorted copy of the package's list, where the source sorts the list of its own package in place; nothing reads that list afterwards.
- Agent.StateMachine.AwaitCommunication: requests are handled whole; a timer that fires while a request is being handled, which drops the rest of it, is not modelled.
- Agent.StateMachine.HandleDownload: what the download does to the directory is an arbitrary new directory; `DownloadDir.StartDownload` models it on its own. The result of the download and the requests heard before it are chosen independently.
- Agent.StateMachine.HandleProbe: the time of the poll and the retries are unbounded integers, without overflow of dates, durations or counters.
- SettingsStore.RuntimeSettings.WriteOut: a save is atomic; a power cut in the middle of writing the file is not modelled.
- SettingsStore.RuntimeSettings.Load: a file in the version 1 format is not read; a file that does not parse counts as absent.
- Agent.StateMachine.HandleStartupCallbacks: restoring the content of a version 1 file on rollback is not modelled, nor that it may fail.
- DownloadDir.StartDownload: what one download leaves under the object's digest is arbitrary; how a range request resumes a file is not modelled.
- DownloadDir.DownloadFolder.ClearUnrelatedFiles: only the top level of the directory is modelled, as sub-directories are not entered; reading errors while listing it are left out.
- LogBuffer.RecordBuffer.PushRecord: byte counts and repeat counts are unbounded, where the source uses machine words.
- LogFollower.Watch: the loop ends with its list of answers, where the source polls until a poll fails.
- MountTable.EnsureNotMounted: the names under which MTD and UBI volumes are mounted are a parameter; opening the devices is not modelled.
- BlockDevices.RelatedBlockDevices: sysfs is a finite map that does not change during the walk.
- Memory logging calls inside handlers are not tied to the machine model; scope handling is modelled in `LogBuffer`.
- Installing an object is "writes its set, succeeds or fails"; copy, raw, flash, ubifs, tarball and the other installers are not modelled, nor the U-Boot environment, which rewrites the flag's current value.
- Signatures, digests and archive extraction are parameters: a set of accepted pairs, a digest per file, an arbitrary extracted package and directory.
- HTTP serving and clients, the cloud protocol, JSON, TOML and INI parsing, schema structs, command line, terminal logging, progress reports and percentages are left out; they add no state the theorems depend on.
