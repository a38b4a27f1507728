# Lambdary: a verified model of its core

Lambdary runs AWS Lambda functions on a developer's machine: it discovers them in a project, starts an instance of each
on first use in a container or as a process, routes HTTP requests to them, fetches and stages their layers, multiplexes
their logs, and reloads on change. This project models the parts of it where order, concurrency, crashes or exact bytes
matter, and proves what its code and documentation promise of them.

`dafny verify dfyconfig.toml` checks everything.

| file | models |
|---|---|
| `Lifecycle.dfy` | `router.Manager` and `Router.invoke` as program counters over atomic steps, for any number of threads |
| `LifecycleSafety.dfy` | the inductive invariant of that machine |
| `LifecycleTheorems.dfy` | what follows for every run: instances, starts, waiting, invocations |
| `LifecycleEvictions.dfy` | and that no instance found dead stays in the map |
| `Manager.dfy` | the same methods as a class; each statement is shown to be a step of the machine |
| `LockFile.dfy` | `.lambdary/lock`: records, atomic replacement, crashes |
| `LayerCache.dfy` | fetching a layer into the cache, and when a later run may trust it |
| `LogBuffer.dfy`, `LogLines.dfy` | the output buffer as a condition-variable monitor with replaying readers; the line streamer |
| `Watcher.dfy` | the debounce loop and its coalescing window |
| `Trees.dfy`, `ZipNames.dfy`, `Staging.dfy` | file trees; where names in a zip lead; staging a function's layers over each other |
| `LayerArn.dfy` | the grammar of layer ARNs and their cache directories |
| `WatchChannel.dfy` | the channel between a watch and the server: which reports are lost, and when a cancelled watch ends |
| `DevServer.dfy` | the dev server's reload loop |
| `Bytes.dfy`, `Base64.dfy`, `Utf8.dfy`, `Http.dfy`, `Frame.dfy` | request bodies into events, responses and streamed frames out of them |
| `Routes.dfy` | route matching, collision warnings, prefix stripping |
| `Readiness.dfy` | the readiness probe loop of both backends |
| `Resolver.dfy` | the per-function backend resolver and what the process backend supports |

## How the lifecycle is modelled

A thread's step is split in two: its program says which program counter follows which and names an effect, and the effect
says what happens to the shared state. Locks, the two tables of mutexes, the map of instances, `Start`, `Stop` and POST
are each a step or the two ends of one; every interleaving of any number of threads is a run. Two assumptions are part of
the machine: an instance's invoke URL is one that no other instance ever had, and a request whose failure the code marks
as a transport error, without its deadline or a cancellation being the cause, reached no runtime.

`Manager.dfy` has the methods as they are written. Its ghost state is the machine with one thread, in a state that has
every invariant of the machine; a statement that was no step could not be followed by the next state. `LogBuffer.dfy` has the methods of the buffer and its
readers in the same way, with other threads running between any two statements.

## Where code and documentation differ

The model follows the code.

- `internal/cli/dev.go:144-160`: when an eager start fails, `run` returns without stopping what it has started, though
  `serve` takes care to on the similar path where it cannot listen. `DevServer.Server.Run` says exactly when every manager
  is stopped.
- `internal/cli/dev.go:441-447`: a watch that cannot be started is said to disable reload until the next successful
  reconfigure; without a watch there is nothing that could bring one about (`DevServer.Server.Loop`).
- `internal/watcher/watcher.go:66-68`: who calls `Watch` must drain its channel until it closes; on a structural change
  `internal/cli/dev.go:427-438` cancels the old watch and never reads its channel again. What that watch has reported by
  then and not been received is lost; the new watch, which takes what it finds for what was there, does not report it
  again. With more than eight reports unread it blocks for ever and its fsnotify watcher stays open
  (`WatchChannel.AbandonedIsLost`, `EndsIffFits`, `TooMany`).
- `internal/layers/layers.go:77-81`: the staging directory is said to be the function's own, `<cacheDir>/staging/<fnName>/`.
  Nothing restricts the `name:` of a manifest, so a name may climb, out of the cache directory even, and one name may be
  a directory in another's; `Stage` clears what is there (`Staging.StagingDirStays`, `ClimbingName`, `StagingDirsApart`).
- `internal/event/request.go:154-159`: a function routed at "/" is said to behave like a catch-all; `matchRoute` does not
  match `/x` against it (`Routes.RootRoute`).
- `internal/event/stream.go:11-16`: a body that contains eight NULs is said to be mis-split; since the split is at the
  first delimiter and JSON has no raw NUL, it is not (`Frame.SplitIff`).

## Model

| member | source | states |
|---|---|---|
| `LifecycleTheorems.ReachableInv` | internal/router/manager.go:122-316 | every state that any number of threads can reach, one atomic step at a time, has the invariant from which the rows below follow: who holds which lock, where each instance is, what the log of starts and removals says |
| `LifecycleTheorems.ExactlyOnePlace` | internal/router/manager.go:122-300 | each instance that a Start returned is in exactly one place: with the one Ensure that holds its name's start guard, in the map under one name, which is the one it was started under, with the one Restart, Discard or StopAll that took it out, or stopped |
| `LifecycleTheorems.CachedUnderItsName` | internal/router/manager.go:122-162 | whatever the map has under a name was started under that name |
| `LifecycleTheorems.StoppedAtMostOnce` | internal/router/manager.go:192-300 | Stop is called on an instance at most once, and never on one that was not started |
| `LifecycleTheorems.InsertFindsNoInstance` | internal/router/manager.go:149-153 | Ensure's insert never replaces an instance that is in the map |
| `LifecycleTheorems.OneStartInFlight` | internal/router/manager.go:122-162 | at most one Start is in flight for a name |
| `LifecycleTheorems.StartsSeparatedByRemoval` | internal/router/manager.go:122-300 | between two successful Starts under one name the first one's instance was taken out of the map |
| `LifecycleTheorems.EveryCallBegan` | internal/router/manager.go:122-300 | every call under way began at one step, as the operation and for the name it has |
| `LifecycleTheorems.EnsureReturnsCached` | internal/router/manager.go:122-162 | Ensure returns only an instance that was in the map under that name at some moment of that call |
| `LifecycleTheorems.WaitsInOrder` | internal/router/manager.go:122-316 | a thread that waits for a lock, the resolver's mutex among them, holds only locks before it in the order: start guards, invoke locks, then mapMu, instMu and the resolver's mutex |
| `LifecycleTheorems.SomeCallCanStep` | internal/router/manager.go:122-316 | no deadlock: while any call is under way some call can take a step, if backends return when they are called |
| `LifecycleTheorems.CanStepIsNext` | internal/router/manager.go:122-316 | such a step is one of the whole system |
| `LifecycleTheorems.NamesDoNotBlockEachOther` | internal/router/manager.go:305-316 | whoever holds the start guard or invoke lock that a thread waits for is working on that thread's own name |
| `LifecycleTheorems.LeafHoldersDoNotWait` | internal/cli/backend_resolver.go:217-239 | the holder of mapMu, instMu or the resolver's mutex can always take its next step, whatever name it works on |
| `LifecycleTheorems.RestartStopsBetweenInvocations` | internal/router/manager.go:180-221 | while Restart calls Stop, or waits for it to return, no invocation of that name is inside the invoke lock |
| `LifecycleTheorems.OneInvocationAtATime` | internal/router/manager.go:164-175 | two invocations of one name are never inside the invoke lock together |
| `LifecycleTheorems.BodyReachesOneRuntime` | internal/router/router.go:207-261 | whatever its attempts meet and whatever runs beside it, one invoke sends at most two POSTs and the body reaches at most one runtime; an answer is relayed exactly if the last POST was answered, and then the body has reached exactly one |
| `LifecycleTheorems.SecondPostOnlyAfterTransportFailure` | internal/router/router.go:214-217 | the second POST is sent only by the second attempt, after a first that failed in transport and reached no runtime, as was decided before time ran out |
| `LifecycleTheorems.FirstFailureIsRetried` | internal/router/router.go:214-217 | an invoke whose first POST failed in transport ends without a second attempt only if its time had run out |
| `LifecycleTheorems.EvictionsAreOwnAndDead` | internal/router/router.go:214-226 | what an invoke evicts is the instance its own attempt used, and only after a transport failure found with time left or a Runtime.ExitError answer: never after a timeout or a failed read of the response body |
| `LifecycleTheorems.EvictsOnlyOwnDead` | internal/router/router.go:214-226 | the same at the very step: an instance that a thread takes out of the map in an invoke is the one it used, for such an outcome, and the log says so |
| `LifecycleEvictions.DeadAreEvicted` | internal/router/router.go:214-226 | and it does evict: once an invoke has relayed a Runtime.ExitError answer, or has gone on to its second attempt, the instance it used is in the map under no name, and has been stopped or is about to be by the one other call that took it |
| `ManagerMethods.Manager.constructor` | internal/router/manager.go:102-115 | a manager starts with no instance, no mutex and none held |
| `ManagerMethods.Manager.NamedMutex` | internal/router/manager.go:305-316 | the mutex returned is the one the table has for the name, or else a new one, which the table then has; nothing else is filed, mapMu is released again and no instance moves |
| `ManagerMethods.Manager.LockNamed` | internal/router/manager.go:128-129 | a call that holds at most its own start guard finds the mutex it asks for free: no call locks itself out |
| `ManagerMethods.Manager.Ensure` | internal/router/manager.go:122-162 | alone: an instance in the map is returned and nothing starts; otherwise the one that starts is inserted and returned, a failure inserts nothing, an unknown name is an error; every lock is released on every path |
| `ManagerMethods.Manager.Restart` | internal/router/manager.go:192-221 | alone: the instance of the name is forgotten and stopped once, and with none there nothing changes; only an unknown name or a failed Stop is an error; every lock is released on every path |
| `ManagerMethods.Manager.Discard` | internal/router/manager.go:239-266 | alone: the instance is forgotten and stopped once if its URL is the one given, and any other stays; every lock is released on every path |
| `ManagerMethods.Manager.StopAll` | internal/router/manager.go:283-300 | the map is emptied, and each instance that was in it is stopped exactly once whatever fails, no other being stopped; it is an error exactly if some Stop was |
| `ManagerMethods.Manager.WithLock` | internal/router/manager.go:169-175 | exactly the invoke lock that the table has for the name is held when the POST is sent, and no lock afterwards; the POST's outcome and whether it reached a runtime are all else it changes |
| `ManagerMethods.Router.Attempt` | internal/router/router.go:246-261 | Ensure and then one POST to the instance it gave; no POST if it gave none |
| `ManagerMethods.Router.Retry` | internal/router/router.go:214-217 | the instance the first attempt used is taken out and stopped, and a second attempt is made against one that is started anew |
| `ManagerMethods.Router.Relay` | internal/router/router.go:219-227 | only an answer is relayed, as it came; if it is a Runtime.ExitError its instance has been evicted first |
| `ManagerMethods.Router.Invoke` | internal/router/router.go:207-228 | alone: instances, starts, stops and the answer are those of the sequential definition Invoked, and at most two POSTs reach at most one runtime; after a Runtime.ExitError answer no instance has the name, and the one that answered is in the map under no name and has been stopped once |
| `ManagerMethods.InvokedMeans` | internal/router/router.go:207-228 | what Invoked comes to, by what is met: no instance and no start, no answer and no change; an answer, a timeout or a broken body, the instance kept but for a Runtime.ExitError; a transport failure with time left, a second try whose answer and instance are what is left |
| `ManagerMethods.InvokedBalances` | internal/router/router.go:207-228 | whatever it comes to, each instance ever started is still in the map or has been stopped once, and those of other names stay as they are |
| `ManagerMethods.BooksAreBalanced` | internal/router/manager.go:122-300 | and so the manager's books are whenever no call is under way |
| `ManagerMethods.ReachedIsReachable` | internal/router/manager.go:122-316 | the state of the machine that Valid() ties every field of the manager to is one that the machine reaches, so its theorems hold of it |
| `ManagerMethods.StoppedOnce` | internal/router/manager.go:294-297 | what StopAll has stopped it stopped for the first time |
| `LockFile.Lock.constructor` | internal/lockfile/lockfile.go:81-115 | Load gives the record in the file, as it is but for a missing version, or an empty one if there is none or it cannot be read |
| `LockFile.Lock.SaveLocked` | internal/lockfile/lockfile.go:207-250 | whatever step fails or the process dies at, the file is as it was or holds exactly the record in memory, and the latter whenever nil is returned |
| `LockFile.Lock.Record` | internal/lockfile/lockfile.go:137-202 | afterwards memory has for the key exactly the value that was given and for every other key what it had, even when the save fails; the save then decides the file |
| `LockFile.FileIsAlwaysSnapshot` | internal/lockfile/lockfile.go:207-250 | in every run of loads, calls, failures and crashes the file is absent or is one of the values the record had in memory, never a mixture |
| `LockFile.SavesInOrder` | internal/lockfile/lockfile.go:207-250 | the values reach the file in the order of the operations, and a file that is there stays |
| `LockFile.LaterLoadsSeeIt` | internal/lockfile/lockfile.go:81-202 | once a record call has returned nil, memory and file have for its key a value that it or a later call was given |
| `LockFile.RecordedIsDurable` | internal/lockfile/lockfile.go:81-202 | if no later call records anything for that key, every later Load finds exactly the value that was given |
| `LockFile.DigestsAreDurable` | internal/lockfile/lockfile.go:137-202 | by operation: the image digest under its tag, the layer digest under its ARN, the emulator version |
| `LayerCache.ContradictedMayChange` | internal/layers/fetch.go:118-124 | a directory whose marker the record contradicts may lose any of its entries, one by one, without the record being fooled |
| `LayerCache.Cache.RemoveAll` | internal/layers/fetch.go:118-124 | after any prefix of the removal, ended by failure or crash, no record is fooled by what is left |
| `LayerCache.Cache.ExtractToTemp` | internal/layers/fetch.go:101-116 | entries are extracted in order, later over earlier; however it ends, a marker that is not itself content is there only once all content is |
| `LayerCache.Cache.Fetch` | internal/layers/fetch.go:77-130 | what is put in place is the whole extraction of an archive whose digest was checked; a failure or crash at any step leaves nothing that a record would trust |
| `LayerCache.Cache.EnsureLayerFetched` | internal/cli/layers.go:88-109 | nothing is fetched exactly when the directory is accepted, and then it is complete; a fetch that succeeds is recorded with the digest of what is in place; a failed one changes no record |
| `LayerCache.Cache.Processes` | internal/cli/layers.go:88-138 | after any number of processes, each dying anywhere, with damage in between that changes or drops a recorded marker: a directory that the lock file's record accepts is the whole extraction of content with the recorded digest, or whole if none is recorded |
| `LayerCache.AfterRecord` | internal/cli/layers.go:95-108 | recording the digest of the directory just put in place keeps memory and file right, whether or not the save succeeds |
| `LayerCache.MarkerIsDigest` | internal/layers/fetch.go:36-43 | a marker is the digest that it holds, with whatever space around it |
| `LayerCache.LostRecordIffWhole` | internal/cli/layers.go:121-138 | a process whose record lacks entries, as after the lock file could not be read or was put back to an earlier version, accepts whatever is there for those; it is not fooled exactly if all of that is whole |
| `LayerCache.LostRecordIsFooled` | internal/lockfile/lockfile.go:81-115 | a half-removed directory, refused by the record of its digest, is accepted by the empty record of a lock file that could not be read |
| `LogBuffer.SleepersAreOwedBroadcast` | internal/backend/process/output.go:39-111 | no lost wake-up: a reader asleep with something to read, or with the buffer closed, is owed a Broadcast by a Write or close that has made its change |
| `LogBuffer.OnlyReadersWithNothingToReadWait` | internal/backend/process/output.go:39-111 | when no call can go on, the calls under way are Reads of an open buffer by readers that have read all of it |
| `LogBuffer.ReaderHasPrefix` | internal/backend/process/output.go:95-111 | each reader has been given exactly the first bytes written, up to its position, however writes and reads were chunked |
| `LogBuffer.EofWhenClosedAndRead` | internal/backend/process/output.go:99-108 | EOF comes only when the buffer is closed and this reader has read it all |
| `LogBuffer.ReaderThatEndedHasAll` | internal/backend/process/output.go:39-111 | if nothing is written after close, a reader that has seen EOF has been given everything |
| `LogBuffer.OutputBuf.Write` | internal/backend/process/output.go:39-47 | statement by statement, with any steps of other threads between: the payload is appended under the mutex, which is released before the readers are woken, and the call ends only after that |
| `LogBuffer.OutputBuf.Close` | internal/backend/process/output.go:52-58 | the same with the flag |
| `LogBuffer.OutputBuf.Tail` | internal/backend/process/output.go:64-78 | the last n bytes, labelled, or nothing when there are none |
| `LogBuffer.OutputBufReader.Read` | internal/backend/process/output.go:95-111 | statement by statement, with any steps of other threads between: the bytes continue what this reader had, no more than it asked for and none only if it asked for none, and EOF is for a closed buffer |
| `LogBuffer.ReachedHasInv` | internal/backend/process/output.go:39-111 | whatever these methods come to is a state in which the mutex has one holder at most and every reader has the first bytes written |
| `LogLines.LinesJoin` | internal/cli/logs.go:79-93 | the lines of a text, put together, are the text |
| `LogLines.LineReader.ReadString` | internal/cli/logs.go:82-88 | the next line up to its newline, or at the end what is left with EOF; nothing is lost between reads |
| `LogLines.LogStreamer.ColorFor` | internal/cli/logs.go:97-110 | a name keeps the color it was first given; new names take the palette in turn |
| `LogLines.LogStreamer.Stream` | internal/cli/logs.go:79-127 | one write for each line of all the bytes, however the reads chunked them: the prefix "[name] ", with the name's color around it exactly if colors are on, the line less the CRs and LFs at its end, and one newline |
| `LogLines.NeighboursDiffer` | internal/cli/logs.go:18-31 | of any eight names first seen in a row no two share a color |
| `LogLines.LogStreamer.StreamBuffer` | internal/cli/logs.go:79-127 | for a reader of a log buffer that has come to EOF, those are the lines of everything the process wrote |
| `Watcher.PendingWindow.Add` | internal/watcher/watcher.go:381-392 | the window holds one more event, and its fields say of all of them what they should |
| `Watcher.PendingWindow.Flush` | internal/watcher/watcher.go:398-417 | one Structural event with every path, structural ones first, if any was structural; otherwise one event a function in name order, each with its paths in the order observed |
| `Watcher.EmitsEveryPathOnce` | internal/watcher/watcher.go:398-417 | a flush loses no path and repeats none, whichever way it coalesces |
| `Watcher.Watch.Arm` | internal/watcher/watcher.go:183-194 | the timer runs for 300 ms from now, and a tick that came before is drained |
| `Watcher.Watch.Accept` | internal/watcher/watcher.go:181-194 | an accepted event goes into the open window; the timer is armed exactly while the window is not empty |
| `Watcher.Watch.Flush` | internal/watcher/watcher.go:196-199 | the window is sent, 300 ms or more after its last event, and an empty one follows with no timer |
| `Watcher.Watch.Step` | internal/watcher/watcher.go:170-216 | one turn of the loop: a change that classify does not ignore is accepted as it is, structural or not, and nothing else is; the open window is flushed by exactly the ticks that come 300 ms or more after its last event |
| `Watcher.Watch.Run` | internal/watcher/watcher.go:155-218 | for every order of events, ticks, errors and passing time: the k-th change that came before the end and was not ignored is the k-th event accepted, with its path, function, structural flag and time, and no other is; the windows, flushed and open, are those of the definition AfterAll, which has no timer |
| `Watcher.Watch.RunToRest` | internal/watcher/watcher.go:155-218 | after any run that has not ended, 300 quiet ms and a tick leave nothing unsent: every path of every change that was not ignored has been emitted exactly once |
| `Watcher.NothingLost` | internal/watcher/watcher.go:155-218 | flushed or open, the windows hold exactly what was accepted, in order and once |
| `Watcher.PathsConserved` | internal/watcher/watcher.go:155-218 | over any run every path of every flushed window is sent exactly once |
| `ZipNames.WithinIsBeneath` | internal/layers/zip.go:118-125 | isWithin accepts exactly the target and what goes on from it without climbing, for absolute and relative targets |
| `ZipNames.BeneathResolves` | internal/layers/zip.go:57-61 | and so it is of the directories they stand for, wherever a relative target is resolved |
| `ZipNames.LandsBeneath` | internal/layers/zip.go:52-57 | a name that does not climb lands at its cleaned path beneath the target, even an absolute one |
| `ZipNames.RefusedNames` | internal/layers/zip.go:52-61 | every cleaned name is some climbs and then a path; it is let through exactly when it comes back down the way it went up, which from above a relative target it cannot |
| `ZipNames.LandsWhereItLeads` | internal/layers/zip.go:52-57 | an entry lands in the directory that one comes to from the target by its name, segment by segment; one with an absolute name, where that leads from the root, put beneath the target |
| `ZipNames.SegmentsAre` | internal/layers/zip.go:52-57 | the segments of a name are what is before its first slash, and then those of the rest |
| `Staging.Disk.MkdirAll` | internal/layers/layers.go:64-66 | the directories missing on the way are made, or it fails on a file in the way; nothing else changes |
| `Staging.Disk.OpenTrunc` | internal/layers/stage.go:72-75 | a file that is there is emptied and keeps its mode; a new one gets the mode less the umask |
| `Staging.Disk.PutFile` | internal/layers/stage.go:56-99 | the file has the given content and mode whether or not it was there; it is refused exactly for a file where a directory must be, or the reverse |
| `Staging.Disk.CopyTree` | internal/layers/stage.go:18-52 | copied in any order, a tree without links lies over what was there, each file with its content and mode, and nothing outside the destination changes |
| `Staging.Disk.ExtractEntry` | internal/layers/zip.go:47-113 | one entry is at the place its name leads to, a directory or a file with its content and its mode, 0644 if it has none, with directories above it and all else as it was; or it is refused for being a link, escaping, or meeting a node of the other kind |
| `Staging.Disk.ExtractZip` | internal/layers/zip.go:29-43 | the entries lie over what was there, later over earlier, beneath the target only |
| `Staging.Disk.ResolveARN` | internal/layers/layers.go:123-147 | the cached directory lies over what was there, less the cache marker |
| `Staging.Disk.ResolvePath` | internal/layers/layers.go:153-181 | a directory or a zip file lies over what was there; anything else is refused |
| `Staging.Disk.Stage` | internal/layers/layers.go:53-81 | for any function name, an absolute or relative cache directory and whatever was there before, success leaves exactly the left-to-right fold of the layers, a closed tree; a refusal means the layers do not fit; outside the directory that the name leads to nothing changes but directories made above it; no layers, no change |
| `Staging.StagingDirIsBelow` | internal/layers/layers.go:79-81 | for a name that does not climb, the staging directory is the name's cleaned path in the root of staging directories; and whenever it is in there, it is so in whatever working directory |
| `Staging.StagingDirLeads` | internal/layers/layers.go:79-81 | whatever the name, it is the directory one comes to by it, segment by segment, from the root of staging directories |
| `Staging.StagingDirStays` | internal/layers/layers.go:79-81 | every name is some climbs and then a path; its staging directory is in that root exactly when the path comes back down the way the climbs went up |
| `Staging.ClimbingName` | internal/layers/layers.go:79-81 | the function name "../../x" has its staging directory beside the cache directory, not in it |
| `Staging.StagingDirsApart` | internal/layers/layers.go:79-81 | of two names that do not climb, neither staging directory is in the other exactly if neither cleaned name begins the other |
| `Staging.StagingOneKeepsOther` | internal/layers/layers.go:53-81 | staging one function leaves alone what is staged for another whose directory is apart from its own |
| `Staging.LastLayerWins` | internal/layers/layers.go:30-31 | in the fold each path is decided by the last layer that has it: it is the source directory's file with its content and mode, or what the zip's last entry there is, and is there only if a layer has it; the marker is there only from a local layer with no ARN after it |
| `Staging.LastEntryWins` | internal/layers/zip.go:35-84 | in a zip each path is decided by the last entry that lands on it or beneath it: a file has that entry's content and its mode, 0644 if it has none |
| `Staging.OnlyStageable` | internal/layers/zip.go:47-61 | only directories without links can be staged, and as local layers zips whose entries are no links and do not escape |
| `LayerArn.ParsesWhatIsWritten` | internal/manifest/layers.go:60-80 | fields of the pattern's shapes with colons between them are parsed as an ARN, with the fourth as region |
| `LayerArn.OnlyWrittenIsParsed` | internal/manifest/layers.go:60-80 | nothing else is parsed as an ARN |
| `LayerArn.WhatIsParsed` | internal/manifest/layers.go:65-80 | an entry is an ARN exactly if it is so written, a path, as it is, exactly if it does not begin with "arn:" and is not empty, and an error otherwise |
| `LayerArn.AlternatesAreWords` | internal/manifest/layers.go:60 | the partition after "aws" is any number of words of small letters, each after a dash |
| `LayerArn.CharClasses` | internal/manifest/layers.go:60 | the character classes of the pattern, letter by letter |
| `LayerArn.Examples` | internal/manifest/layers.go:50-60 | ARNs of the standard partition, of GovCloud and of China fit the pattern |
| `LayerArn.NonExamples` | internal/manifest/layers.go:50-60 | a missing version, one that is no number and an account of eleven digits do not |
| `LayerArn.NoneMayBeEmpty` | internal/manifest/layers.go:60 | nor does anything with an empty field |
| `LayerArn.SanitizeIsInjective` | internal/layers/layers.go:94-104 | two layer version ARNs that are sanitized to one name are one ARN, though layer names may have underscores |
| `LayerArn.CachePathsDiffer` | internal/layers/layers.go:90-92 | two ARNs have one cache directory exactly if they are one |
| `LayerArn.OneSegment` | internal/layers/layers.go:94-104 | the name is a single path segment |
| `LayerArn.NotInjectiveInGeneral` | internal/layers/layers.go:100-104 | of strings that are no ARNs two may share a name |
| `LayerArn.FirstSeen` | internal/cli/layers.go:50-81 | the ARNs among the entries, all of them, each once |
| `LayerArn.CollectLayerArnRefs` | internal/cli/layers.go:55-81 | the loops over functions and entries give exactly those, in first-seen order |
| `DevServer.Server.HandleReloadEvent` | internal/cli/dev.go:370-439 | a rebuild that succeeds replaces manager, functions, handler and watch, and the old manager has been stopped once; a failed rebuild or a code change leaves all of them as they were, and the latter restarts the function it names on the current manager |
| `DevServer.Server.Switch` | internal/cli/dev.go:414-424 | the old manager's StopAll has returned before requests are routed to the new one |
| `DevServer.Server.Rewatch` | internal/cli/dev.go:427-438 | the old watch is cancelled and nothing is received from its channel; of all watches opened at most the new one, if there is one, is not cancelled |
| `DevServer.Server.Loop` | internal/cli/dev.go:304-340 | the managers made and the restarts called are exactly those of the reports received, in order; at every head of the loop requests go to the current manager, the last made, every earlier one has been stopped once and all watches but the current are cancelled; without a watch nothing is received; a signal cancels the watch at once, and the error is that serving failed |
| `DevServer.Server.Turn` | internal/cli/dev.go:307-340 | a report that is in the current watch's channel when its case is taken is received, the first one, and applied; any other case receives none and applies none |
| `DevServer.Server.Serve` | internal/cli/dev.go:252-354 | however it ends, also when it cannot listen, every manager has been stopped once and every watch cancelled; the reports of a watch that were not received are exactly those left in its channel and those it has still to send; and, requests included, no manager has started an instance before the StopAll of the one before it returned |
| `DevServer.Server.Run` | internal/cli/dev.go:134-167 | every manager is stopped once if and only if no eager start failed; if one did, the one manager is never stopped and all it has started so far is left running; every watch is cancelled either way |
| `WatchChannel.AbandonedIsLost` | internal/cli/dev.go:427-438 | from when nobody receives from a watch any more, what it has reported and was not received, and all it reports from then on, stays in its channel or unsent |
| `WatchChannel.EndsIffFits` | internal/watcher/watcher.go:66-68 | a cancelled watch that nobody receives from can end, and close its channel, exactly if what is in the channel and what its flush has still to send are eight reports at most |
| `WatchChannel.EndsInTime` | internal/watcher/watcher.go:398-417 | and it does if it flushes no other window before it sees its context: any steps of its own lead there |
| `WatchChannel.Stuck` | internal/watcher/watcher.go:398-417 | with more than that it never ends, whatever else happens: it blocks in its flush for ever |
| `WatchChannel.TooMany` | internal/watcher/watcher.go:98-104 | one window of nine reports or more, with the server at something else until the watch is cancelled, is enough |
| `Base64.RoundTrip` | internal/event/request.go:115 | what Go's standard base64 encoded it decodes (section 4 of RFC 4648) |
| `Base64.EncodesBits` | internal/event/request.go:115 | each four characters are the digits to base 64 of the number that three bytes are to base 256, with zeros for missing bytes and a "=" for each |
| `Base64.AlphabetIsStandard` | internal/event/request.go:115 | the digits are the standard alphabet's, not the URL-safe one's (table 1 of RFC 4648) |
| `Base64.BreaksDoNotMatter` | internal/event/response.go:91 | and wherever CRs and LFs are put into a text, it is decoded as without them |
| `Base64.DecodableIff` | internal/event/response.go:88-94 | a text without line breaks is decoded exactly if it is groups of four characters of the alphabet, the last two or the last of all possibly "=", and is an error otherwise |
| `Utf8.ValidIffEncodes` | internal/event/request.go:287 | utf8.Valid accepts exactly the encodings of sequences of scalar values (section 4 of RFC 3629) |
| `Http.EchoRoundTrip` | internal/event/request.go:109-119 | for every body and content type the event's body is valid UTF-8, and a handler that gives it back as a shaped response has the original bytes written |
| `Http.TextArrivesAsItIs` | internal/event/request.go:109-119 | the body is in the event as it came exactly if it is empty, or textual and valid UTF-8, and isBase64Encoded says whether it is not |
| `Http.EchoRoundTripV1` | internal/event/request_v1.go:79-88 | the same round trip for the v1 event, whose body is missing exactly when it is empty |
| `Http.TextArrivesAsItIsV1` | internal/event/request_v1.go:79-88 | and whose body is as it came exactly if it is not empty, textual and valid UTF-8, isBase64Encoded saying when it is not |
| `Http.ContentTypeIsCanonical` | internal/event/response.go:140-148 | hasContentType finds exactly the names that the header map files under Content-Type |
| `Http.CanonicalForm` | internal/event/response.go:123-130 | the names that a response's headers are filed under: of a token, letters at the front and after a dash capital and the others small, and any name that is no token as it is |
| `Http.ResponseWriter.WriteHeadersStatusBody` | internal/event/response.go:116-135 | the headers in any order, the cookies in their order, the status and the body are written; a status outside 100 to 999 panics and writes no body; one below 200 but 101 is sent at once and the body makes the final status 200, or no body leaves it open; with 101, 204 and 304 a body is an error and is not written; no body is no write |
| `Http.OneContentType` | internal/event/response.go:117-122 | there is exactly one Content-Type: the handler's, in whatever case it named it, or the default |
| `Http.ResponseWriter.WriteShaped` | internal/event/response.go:88-99 | the decoded body is written by the same rules, and a body that is not the base64 it says it is writes nothing |
| `Http.ResponseWriter.ToHTTPStream` | internal/event/stream.go:76-91 | a frame's prelude and body are written unmodified by the same rules; a payload that is no frame, or whose prelude does not decode, leaves the response untouched |
| `Frame.SplitIff` | internal/event/stream.go:42-54 | a payload is split into a prelude and a body exactly when it is an accepted prelude, eight NULs and that body, whatever NULs the body has |
| `Frame.RefusedIff` | internal/event/stream.go:42-54 | it is refused exactly when it is no such thing |
| `Routes.MatchRoute` | internal/router/router.go:647-670 | the functions, in order, whose non-empty route is the longest that the path lies under at a segment boundary; all have that one route |
| `Routes.WarnCollisions` | internal/discovery/discovery.go:242-282 | every function gets, after its own warnings, the message of its route if others share it and then that of its name; nothing else of it changes |
| `Routes.WarnGroups` | internal/discovery/discovery.go:251-265 | one pass of it, for a grouping by any key |
| `Routes.MessagesNameAll` | internal/discovery/discovery.go:251-282 | there is such a message exactly if a second function has the route, or the name, and it lists the names, or the directories, of all that have it, in order |
| `Routes.GroupAtIndexes` | internal/router/router.go:647-670 | the functions of a route are those at the indexes that have it, in order |
| `Routes.RouterAgreesWithDiscovery` | internal/discovery/discovery.go:251-265 | a request for a function's own route finds exactly the group that discovery warned of, under the same names in the same order |
| `Routes.RouteAndRest` | internal/event/request.go:160-177 | for a matched route other than "/", the route and what is left are the path again, but for the slash a bare hit gains |
| `Routes.RootRoute` | internal/router/router.go:647-670 | the route "/" matches exactly "/" and what starts with two slashes, and strips nothing |
| `Readiness.WaitReady` | internal/backend/process/ports.go:86-155 | the loop takes the rounds, with 50, 100, 200, 400 and then 500 ms between them, that the definition From takes |
| `Readiness.FewProbes` | internal/backend/container/port.go:76-145 | from any round on, one probe for every whole 50 ms that is left, and two; one if none is left |
| `Readiness.Bounds` | internal/backend/process/ports.go:86-155 | it ends within the timeout and 2 s, after at most one probe for every 50 ms of the timeout and two more |
| `Readiness.EndsInTime` | internal/backend/container/port.go:76-145 | the same bound on time from any round on, and it never reports a timeout early |
| `Readiness.LateByTwoSeconds` | internal/backend/process/ports.go:146-155 | the 2 s are reached: a deadline that has just passed does not limit the last probe |
| `Readiness.ReadyIff` | internal/backend/process/ports.go:95-108 | a round ends the wait with success exactly if its probe succeeds within four pauses and, if any time is left, within that |
| `Readiness.CancelledAtOnce` | internal/backend/process/ports.go:112-120 | a caller that gives up during a failed probe or at the start of the pause after it is answered then |
| `Resolver.SupportedIsNotRefused` | internal/backend/process/runtime.go:162-188 | a function that Supports accepts is never refused for its runtime, whatever became of its bootstrap since |
| `Resolver.CommandRuns` | internal/backend/process/runtime.go:162-188 | a command is run by the shell, a managed runtime by the shim of its language with the handler, a provided one by its bootstrap |
| `Resolver.UnsupportedIff` | internal/backend/process/runtime.go:90-123 | Supports refuses exactly the functions that would be refused for their runtime, or would miss a bootstrap that their layers are there to bring |
| `Resolver.PerFunctionBackend.ResolveContainerOnce` | internal/cli/backend_resolver.go:217-227 | the container backend is looked for at most once, and its result or error is kept |
| `Resolver.PerFunctionBackend.ResolveProcessOnce` | internal/cli/backend_resolver.go:229-239 | the same for the process backend |
| `Resolver.PerFunctionBackend.Notify` | internal/cli/backend_resolver.go:146-163 | a function's notice is printed unless it has been |
| `Resolver.PerFunctionBackend.ResolveTarget` | internal/cli/backend_resolver.go:121-136 | the hint "container" asks for a container and "process" for a process, unless it is the mode already; that and any other hint get the backend detected for all |
| `Resolver.PerFunctionBackend.Resolve` | internal/cli/backend_resolver.go:91-102 | among any other calls: what is returned is a process exactly if the hint, or else the backend for all, says so and the function is supported as one; if it is not, a container is returned and the fallback has been announced |
| `Resolver.ResolveAll` | internal/cli/backend_resolver.go:75-239 | over any sequence of resolves each backend is looked for at most once and each notice printed at most once |

## Left out

- Manager.OnStart and log pumping goroutines: the hook runs outside every lock and changes no state of the manager.
- Aliveness after StopAll: it takes no start guard, so an Ensure in flight may insert after its snapshot, and a request that
  still holds an old handler may start an instance of a manager that was stopped; nothing is claimed about either.
- Fairness: the theorems on waiting say that some call can go on, not that each one will.
- InvokeTimeout, status codes and error texts of the router, and JSON inside payloads; `isRuntimeExit` is an input of the
  model, and so is `shapedStatusCode` but for accepting no raw NUL.
- LogLines.LogStreamer.Stream: does not model lines of other functions coming between, since each line is one write under
  the streamer's own mutex.
- LogBuffer.OutputBufReader.Read: gives up after a number of waits that is an input, where the source waits on; so does a
  Write or Close that finds the mutex taken.
- LogBuffer.ReaderThatEndedHasAll: takes it that nothing is written after close, because the code does not enforce it; close
  is called once the process has exited and its pipes are drained.
- LayerCache.Cache.Damage: damage that leaves the marker of the recorded digest in place is not detected by the code, so only
  a vanished directory or one with another marker is admitted; nor is damage to the lock file, whose record is then lost:
  `LayerCache.LostRecordIffWhole` says when that does no harm. An entry put back to an earlier digest is not modelled.
- LayerArn.CachePathsDiffer: compares paths letter by letter; on a file system that ignores case, the default on macOS, two
  ARNs whose layer names differ only in case do share a directory.
- LayerCache: archives that are not regular files and directories, leftover temporary files, and two processes at once on one
  cache; digests are taken to be base64 text, which trimming leaves alone.
- LockFile: Load's own read errors other than an unreadable file, YAML (decoding is taken to invert encoding, with empty
  entries normalized), power loss (there is no fsync) and two processes at once.
- Watcher: `classify` with its ignore rules and the set of root children is an input; a Structural event's paths come
  structural ones first and otherwise in the map's order, so their observed order is not claimed; a consumer that does not
  receive delays the loop, here by passing time, and for ever once the channel is full and abandoned, which `WatchChannel`
  is about. A watch that is cancelled drops its open window.
- WatchChannel: what a window's reports are is an input of it, and of the watch only its sends, its look at the context and
  its end are steps.
- Staging.Disk.CopyTree: sources are values, so a layer directory that contains the staging directory is not modelled, nor is
  a source that changes while it is read; directories have no modes of their own.
- Staging.StagingDirsApart: is about names that do not climb; for any others `Staging.StagingOneKeepsOther` goes by the two
  directories as they are resolved.
- Staging.Disk.Stage: a name that leads to a directory which holds the working directory or a layer's source has those
  cleared in the code before they are read, while the model's working directory and sources stay; symbolic links on the way
  to the staging directory are taken to have been followed; nothing in the model puts one beneath it.
- Staging.Disk.ExtractZip: decompression and reading errors are failures at any step; names use "/" as separator, as on
  Linux and macOS.
- Routes: `invokeName`, the 404, 409 and 501 answers and payload versions are one branch each.
- Http: header, cookie and query maps of the event, `isTextualContentType` (its verdict is an input, both ways), and encoding
  the event as JSON, which is lossless on valid UTF-8.
- Readiness.WaitReady: a timer is taken to fire on time and a probe to end at its limit.
- DevServer: signals, listening and watching succeed or fail as inputs; how long requests in flight run on is not modelled.
- Resolver: detecting container runtimes and finding the emulator are outcomes; the standalone invoke path uses the same
  gate.
- Container command lines, image naming and building, port allocation, the AWS SDK, manifests and their validation, the
  runtime shims and the command-line surface: plumbing, or one branch a field.
