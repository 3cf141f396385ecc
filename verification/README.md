# Dropserve: verified models of its state machines and text algorithms

Dropserve serves dropped folders as web apps on a local machine. This project models the parts of it that
are hard to get right, in Dafny, and proves what they promise for every input and every run.

**The command-app supervisor.** `SupervisorWorld` describes the manager as a transition system: one process
record per start, the map from app path to current record, the route objects, and one event for each critical
section of each actor (first requests, lazy starts, background starters in their check, launch, probe and publish
phases, exit monitors in their observe, decide and delay phases, explicit restarts, reconciliation, shutdown).
Children exit whenever they like, health checks answer whatever they like, and the clock moves on in any steps.
`SupervisorInvariants` proves one inductive invariant for all events; `SupervisorRuns` draws the conclusions:
ownership of children, shutdown, the restart budget, routes. `SupervisorStarts` says of the worlds before and after
what each kind of start achieves and follows a background start through all its steps, and `SupervisorChains` ties the
stored failures to the exits of a whole run. `Supervisor` is the manager itself, a class that
updates its fields in place, with the retry loop and the in-place pruning of the failure list; each of its
methods is proved to make exactly the step of its event. `RestartBudget` is the sliding window.

**Its data structures.** `RotatingLog` is the five-file log over a directory in which every remove, rename,
open, close and write may fail; `LogSink` is the in-memory ring beside it; `Ports` is the port allocator with the
reservations shared by all registries of the process.

**Other step machines.** `Listener` (connection slots and serve goroutines), `Addons` (changes and runtimes of the
add-on manager), `Funnel` (execute, persist, compensate), `PhpWriter` (the buffering response writer) and
`Addresses` (address normalisation and certificate re-issue, with the key and certificate files as two writes that can fail in several ways).

**Text algorithms.** `CommandLine` with its grammar `CommandGrammar`, `Slug`, `Scanner`, `Router` and `BaseHref`.

Where the code changes state step by step, the model is a class or a method with loops, proved against a function
or predicate on values; the properties are then proved about those. Everything outside (processes, sockets,
commands, files, the clock) answers through parameters, events or nondeterministic methods.

## What the proofs brought to light

These are statements about the code as it is; each has a lemma.

- A lazy route requested after shutdown starts a child that nothing closes, because `startLazy` does not look at
  `closed` (`SupervisorRuns.ALateLazyStartLeaks`); it is the only way anything comes back to life
  (`SupervisorRuns.OnlyALazyStartRevives`).
- A second concurrent `Close` of the supervisor, and of the add-on manager, returns while children still run
  (`SupervisorRuns.SecondCloseMayReturnEarly`, `Addons.SecondCloseReturnsEarly`); the lemmas
  `SecondCloseLeavesNothingExactly` of both say when they do not.
- The add-on manager clears a busy name before it leaves its wait group, so the wait group counts the busy names
  and the changes that have reported but not left (`Addons.OutstandingChanges`,
  `Addons.ReportedChangesStillCount`, `Addons.NamesAndCountDiffer`).
- Slugs of one scan collide exactly when one app's base slug is another's numbered slug
  (`Scanner.SlugsCollideExactly`, `Scanner.NotesCollide`), and then the earlier app is reached under no path
  (`Router.ShadowedAppIsLost`).
- Two slugs of one registry can hold one port if and only if the saved file gives them one that is usable and inside
  the range (`Ports.DuplicatesInTheFileAreShared`; otherwise `Ports.Registry.constructor`, `Ports.Registry.Assign`
  and `Ports.HeldPortsAreDistinct` keep them apart for ever).
- A failed save whose compensating command fails too leaves a share public without an entry
  (`Funnel.SafeExactly`, `Funnel.AFailedUndoLeaks`).
- A re-issue that fails after the key file was replaced or lost leaves a pair that does not match, and asking for the
  stored addresses again does not repair it (`Addresses.PairBreaksExactly`, `Addresses.PairIsRepairedExactly`).
- An argument that ends a manifest's command line with an escaped blank loses the blank, because the line is trimmed
  before it is read (`CommandGrammar.TrimmingCanCutAnArgument`).
- The generation guard of the listener never rejects an exit: at most one serve goroutine is outstanding, always
  the newest (`Listener.LateExitsAreHarmless`).

## Model

| member | source | states |
|---|---|---|
| `SupervisorRuns.StepKeeps` | internal/supervisor/supervisor.go:91-393 | every critical section of every actor keeps the invariant: records, entries, ownership, routes, drivers and budget |
| `SupervisorRuns.EveryChildHasOneOwner` | internal/supervisor/supervisor.go:113-393 | in every interleaving a live child has exactly one owner: its map entry, the starter that launched it, or the shutdown list |
| `SupervisorRuns.NothingLivesAfterClose` | internal/supervisor/supervisor.go:511-540 | once the shutting-down call has closed its list, anything live is the entry of a lazy start that began after the sweep; without one nothing lives and the map is empty |
| `SupervisorRuns.OnlyALazyStartRevives` | internal/supervisor/supervisor.go:314-328 | after shutdown a step brings a child to life if and only if it is a lazy start that succeeds and whose key nobody else holds |
| `SupervisorRuns.ALateLazyStartLeaks` | internal/supervisor/supervisor.go:314-328 | for every app path there is a run in which shutdown has returned and a child of that app lives |
| `SupervisorRuns.SecondCloseMayReturnEarly` | internal/supervisor/supervisor.go:513-517 | for every app path a second call can return while a child of that app lives; whatever lives then is in the map or on the first call's list |
| `SupervisorRuns.SecondCloseLeavesNothingExactly` | internal/supervisor/supervisor.go:513-517 | a returned second call leaves nothing running if and only if no map entry and no record on the first call's list has a live child |
| `SupervisorChains.EntriesFollowTheirChains` | internal/supervisor/supervisor.go:190-206 | in every run the exits, attempts and pruned failures stored for an app are those of its chain, which is read off the events alone: fresh starts begin it, booked exits and automatic restarts continue it |
| `SupervisorChains.RestartsExactlyBelowFive` | internal/supervisor/supervisor.go:341-375 | in every run an app whose exit is found is started again if and only if fewer than five exits of its chain, this one included, lie in the last ten minutes; otherwise it has crashed |
| `SupervisorChains.FiveExitsEndTheChain` | internal/supervisor/supervisor.go:353-370 | in no run does an app with five exits of its chain in one window run or start |
| `SupervisorChains.ChainsMakeFifteenAttempts` | internal/supervisor/supervisor.go:190-226 | in every run a chain whose exits lie in one window makes at most fifteen attempts |
| `SupervisorRuns.RestartsExactlyBelowFive` | internal/supervisor/supervisor.go:341-375 | the same decision for the history a single record carries, and the stored list is that history's window |
| `SupervisorRuns.ChainsAreBounded` | internal/supervisor/supervisor.go:190-226 | the bound of fifteen for the attempts a single record carries; no record ever shows more than five attempts |
| `SupervisorRuns.RestartHasAnAttempt` | internal/supervisor/supervisor.go:377-391 | an automatic restart always has at least one attempt left |
| `SupervisorRuns.RoutesFollowStatus` | internal/supervisor/supervisor.go:330-339 | between critical sections the route of every entry serves the page its status promises |
| `SupervisorRuns.RouteKeepsItsIdentity` | internal/supervisor/supervisor.go:330-339 | while a key stays in the map, no step changes which route object it has |
| `SupervisorRuns.StaleActorsChangeNothing` | internal/supervisor/supervisor.go:235-306 | a starter or monitor whose process is no longer the entry, or that outlived the beginning of shutdown, changes neither map nor route |
| `SupervisorRuns.NoEntryIsAbandoned` | internal/supervisor/supervisor.go:341-393 | until shutdown a ready entry is watched and a starting one has a starter or a pending restart |
| `SupervisorRuns.SectionsFindTheirState` | internal/supervisor/supervisor.go:229-393 | what the manager's methods require of the state holds in every reachable state |
| `SupervisorStarts.HandleAchieves` | internal/supervisor/supervisor.go:91-109 | a first request files a lazy page, a ready, crashed or runtime-less record on a new route, or changes nothing when closed, filed or refused |
| `SupervisorStarts.HandleAsyncAchieves` | internal/supervisor/supervisor.go:113-162 | the same for the asynchronous first request, which files a starting record with a starter at its first attempt |
| `SupervisorStarts.LazyAchieves` | internal/supervisor/supervisor.go:314-328 | a request to a lazy page starts the app on the same route with a fresh chain, or puts the placeholder back |
| `SupervisorStarts.RestartAchieves` | internal/supervisor/supervisor.go:450-485 | a restart stops the old process and files a new record with an empty chain on the same route: ready and live, crashed, or without a runtime, as the start went; it is refused only when closed, unknown or starting |
| `SupervisorStarts.DelayAchieves` | internal/supervisor/supervisor.go:377-391 | an automatic restart does the same with the failures, exits and attempts of the chain carried on |
| `SupervisorStarts.DecisionAchieves` | internal/supervisor/supervisor.go:353-373 | a booked exit leaves the entry on its route, starting with a restart pending, or crashed and closed |
| `SupervisorStarts.ObservationIsTimely` | internal/supervisor/supervisor.go:341-347 | the exit is booked with the clock at its observation |
| `SupervisorStarts.BackgroundStartSucceeds` | internal/supervisor/supervisor.go:229-265 | left alone, a background start whose attempt n of five is the first healthy one makes the app ready and live with n attempts on the route of the first request |
| `SupervisorStarts.BackgroundStartGivesUp` | internal/supervisor/supervisor.go:266-306 | left alone, a background start that fails five times leaves the app crashed on that route |
| `SupervisorStarts.ReconcileAchieves` | internal/supervisor/supervisor.go:488-508 | reconciliation stops exactly the filed apps that are gone, drops them and touches nothing else |
| `RestartBudget.PruneInPlace` | internal/supervisor/supervisor.go:353-358 | filtering the list inside its own storage leaves exactly the exits inside the window, in order |
| `RestartBudget.RecentOfRecent` | internal/supervisor/supervisor.go:353-360 | pruning earlier loses nothing that a later prune would keep |
| `RestartBudget.RecentCountsTheWindow` | internal/supervisor/supervisor.go:353-361 | the list's length is the number of exits inside the window |
| `RestartBudget.TracksAfterExit` | internal/supervisor/supervisor.go:353-360 | pruning and appending keeps the list equal to the window of the whole history |
| `RestartBudget.LaunchBoundIsFifteen` | internal/supervisor/supervisor.go:28-30 | the launches that one window allows add up to at most fifteen, and reach it with four exits |
| `Supervisor.OutcomesArePossible` | internal/supervisor/supervisor.go:164-227 | however the machine answers, a synchronous start ends in a way the transition system allows |
| `Supervisor.OutcomeDecides` | internal/supervisor/supervisor.go:164-227 | no port or no logs refuse a start, a missing runtime is shown, and otherwise the first healthy one of the attempts left decides |
| `Supervisor.Manager.TryAttempts` | internal/supervisor/supervisor.go:191-216 | the retry loop ends at the first healthy attempt or when the budget is used up, and sleeps the configured delays with indices in bounds |
| `Supervisor.Manager.StartLocked` | internal/supervisor/supervisor.go:164-227 | publishes the record of the first healthy attempt, a crashed one or one without a runtime, and returns the route of the entry; an error changes nothing |
| `Supervisor.Manager.PublishLocked` | internal/supervisor/supervisor.go:330-339 | the given route object is retargeted and kept, or a new one made; record, map and route change together |
| `Supervisor.Manager.Handler` | internal/supervisor/supervisor.go:91-109 | makes the step of a synchronous first request; returns the entry's route, or an error exactly when closed or refused |
| `Supervisor.Manager.HandlerAsync` | internal/supervisor/supervisor.go:113-162 | makes the step of an asynchronous first request (nothing, a lazy page, a missing runtime, or a starter) and returns the entry's route or an error |
| `Supervisor.Manager.StartLazy` | internal/supervisor/supervisor.go:314-328 | makes the lazy step and returns the entry's route; if the start is refused the placeholder is put back and the caller gets an error |
| `Supervisor.Manager.Restart` | internal/supervisor/supervisor.go:450-485 | an open manager restarts an entry whose application has the slug, if there is one: the old process is gone and the new record on the same route is what the start left; an entry that is starting is left alone |
| `Supervisor.Manager.Reconcile` | internal/supervisor/supervisor.go:488-508 | closes and removes exactly the entries the scan no longer lists |
| `Supervisor.Manager.StarterChecks` | internal/supervisor/supervisor.go:236-243 | goes on if and only if the manager is open and the starter is still the entry |
| `Supervisor.Manager.StarterPublishes` | internal/supervisor/supervisor.go:251-262 | the same check again before the healthy child replaces the starter |
| `Supervisor.Manager.StarterFails` | internal/supervisor/supervisor.go:266-287 | after a failed attempt the child is closed, the delay index is in bounds, and the starter retries or, after the fifth attempt, gives up |
| `Supervisor.Manager.StarterGivesUp` | internal/supervisor/supervisor.go:289-304 | files a crashed record only if the starter is still the entry |
| `Supervisor.Manager.MonitorDecides` | internal/supervisor/supervisor.go:346-375 | prunes in place, books the exit, and makes the record crashed and closed, or starting with the first restart delay to wait |
| `Supervisor.Manager.MonitorFires` | internal/supervisor/supervisor.go:379-392 | restarts the chain with its failures, exits and attempts carried on, or puts the record back as crashed |
| `Supervisor.Manager.CloseSweeps` | internal/supervisor/supervisor.go:525-532 | empties the map; the list to close is exactly what was in it |
| `RotatingLog.Log.Write` | internal/supervisor/logs.go:81-108 | whatever fails, the files stay a suffix of all bytes written and the active file within its limit; an open log fails only if the disk failed during the call and can be written again; on a reliable disk everything is written, the canonical layout is kept, and the active file is never left empty by a rotation |
| `RotatingLog.Log.Rotate` | internal/supervisor/logs.go:121-149 | keeps the suffix whatever fails, leaves a log that can be retried, and on success starts an empty active file |
| `RotatingLog.Log.Open` | internal/supervisor/logs.go:58-79 | opens with room left; a full file found on disk is rotated away |
| `RotatingLog.Log.ShiftFiles` | internal/supervisor/logs.go:127-139 | on success every file has moved up by one; on failure the active file is as it was |
| `RotatingLog.ChainOfShift` | internal/supervisor/logs.go:132-139 | renaming a file into the free slot above it loses no byte |
| `RotatingLog.ChainOfRemove` | internal/supervisor/logs.go:127-131 | removing the oldest file leaves a suffix |
| `RotatingLog.RunFromEmpty` | internal/supervisor/logs.go:58-149 | from an empty directory that never fails, T bytes in writes of any sizes leave exactly min(T, 4L + ((T-1) mod L) + 1) of them in the files, the last ones |
| `RotatingLog.RetainsFourFilesAndTheActiveOne` | internal/supervisor/logs.go:13-17 | the same count for every canonical layout whose active file holds a byte |
| `LogSink.RingBuffer.Write` | internal/supervisor/supervisor.go:969-983 | the ring holds the last bytes of everything ever written, however it was cut |
| `LogSink.RingBuffer.DropOldest` | internal/supervisor/supervisor.go:976-979 | the overlapping copy drops exactly the oldest bytes |
| `LogSink.LastOfLast` | internal/supervisor/supervisor.go:969-983 | keeping the last n of the kept bytes is keeping the last n of all |
| `LogSink.LogOutlastsRing` | internal/supervisor/logs.go:13-17 | a canonical log contains the end that the ring shows |
| `LogSink.Sink.Write` | internal/supervisor/logs.go:36-42 | the ring takes everything and the disk as much as it can; on a reliable disk the ring's contents are always a suffix of the chain of files |
| `LogSink.RunFromEmpty` | internal/supervisor/logs.go:23-42 | from an empty directory that never fails, after any writes the ring shows the last bytes of them all and is a suffix of the files, which hold the retained bytes |
| `Ports.Registry.Assign` | internal/supervisor/ports.go:62-93 | a saved port is kept if it is free on the machine and not reserved by another registry; otherwise the first port in range that is free, unreserved and no other slug's; fails only if the save fails or there is none; keeps every held slug's port and reservation, here and in other registries, and injectivity |
| `Ports.Registry.Release` | internal/supervisor/ports.go:95-103 | gives back exactly this registry's reservations |
| `Ports.Registry.constructor` | internal/supervisor/ports.go:32-60 | loads exactly the saved ports inside the range; they are separate if and only if the file gives no two slugs one usable port inside the range |
| `Ports.Registry.SetRange` | internal/supervisor/supervisor.go:76-88 | takes a valid range, ignores another, reports the previous one |
| `Ports.HeldPortsAreDistinct` | internal/supervisor/ports.go:24-27 | while a registry is separate, which every call keeps, no port is held twice, in one registry or in two |
| `Ports.DuplicatesInTheFileAreShared` | internal/supervisor/ports.go:51-66 | for every file and range, two slugs of a new registry are granted one port if and only if the file gives them one that is usable and inside the range, as long as saved ports are free |
| `Listener.SlotsMatchConnections` | internal/server/listener_runtime.go:83-112 | tokens are the Accept calls holding one plus the open connections, at most 256, across all listeners; a release never waits; no slot can be taken exactly at the limit |
| `Listener.ReleaseNeverBlocks` | internal/server/listener_runtime.go:90-93 | every receive from the slot channel finds a token |
| `Listener.LateExitsAreHarmless` | internal/server/listener_runtime.go:61-73 | an exit that reports is that of the newest listener and the only one outstanding |
| `Listener.HealthyMeansServing` | internal/server/listener_runtime.go:41-60 | until shutdown, active if and only if one goroutine serves the current listener |
| `Listener.ShutdownIsFinal` | internal/server/listener_runtime.go:148-158 | after shutdown nothing becomes active and every listener offered later is closed |
| `Listener.ListenerRuntime.Start` | internal/server/listener_runtime.go:41-60 | starts a goroutine for the next generation, or closes the listener |
| `Listener.ListenerRuntime.AcceptBegins` | internal/server/listener_runtime.go:83-88 | takes a slot or is refused by a closed listener |
| `Listener.ListenerRuntime.AcceptEnds` | internal/server/listener_runtime.go:89-94 | an error gives the slot back, a connection keeps it |
| `Listener.ListenerRuntime.CloseConnection` | internal/server/listener_runtime.go:108-112 | the first close gives back one token, later ones none |
| `Addons.OutstandingChanges` | internal/runtimes/manager.go:192-230 | the wait group counts busy names plus reported changes; equal to the busy names if and only if none is between reporting and leaving; each name has at most one working change |
| `Addons.ReportedChangesStillCount` | internal/runtimes/manager.go:220-230 | after every report the count exceeds the busy names, and the name may already be taken again |
| `Addons.NamesAndCountDiffer` | internal/runtimes/manager.go:220-230 | for every pack there is a run in which the two numbers differ and the pack may change again |
| `Addons.EveryRuntimeHasOneOwner` | internal/runtimes/manager.go:295-359 | a live runtime is in exactly one place: a slot, a change about to publish or close it, or the closing call |
| `Addons.PublishDropsNothingLive` | internal/runtimes/manager.go:316-337 | filling a slot never overwrites a runtime that still runs |
| `Addons.StartBringsUp` | internal/runtimes/manager.go:295-339 | left alone, a start of an installed pack that does not run ends with its runtime live in its slot and nothing else changed |
| `Addons.CheckDecides` | internal/runtimes/manager.go:295-313 | a start launches if and only if the pack is installed and does not run |
| `Addons.InstallGoesOn` | internal/runtimes/manager.go:233-266 | a finished installation of PHP goes on to start it, other packs are not started |
| `Addons.StopTakesDown` | internal/runtimes/manager.go:341-359 | left alone, a stop or removal of a running pack ends with its slot empty and its runtime gone |
| `Addons.StopLeavesNothing` | internal/runtimes/manager.go:220-283 | when a stop or removal reports, its name has no runtime left, though other changes ran in between |
| `Addons.NothingRunsAfterClose` | internal/runtimes/manager.go:399-427 | once the closing call returned, in every later state nothing runs, nothing is in flight and no change can begin |
| `Addons.NoChangeBeginsAfterClosing` | internal/runtimes/manager.go:203-206 | from the moment of closing no change is accepted |
| `Addons.SecondCloseReturnsEarly` | internal/runtimes/manager.go:400-404 | a second call returns at once though a runtime lives |
| `Addons.SecondCloseLeavesNothingExactly` | internal/runtimes/manager.go:400-404 | it leaves nothing running if and only if no slot, change in flight or list of the first call has a live runtime, which is certain once the first call has returned |
| `Addons.OnlyTheReturnIsSafe` | internal/runtimes/manager.go:400-427 | before that return, while waiting and while closing, there are runs in which a runtime lives |
| `Addons.FinishingIsARun` | internal/runtimes/manager.go:419-426 | closing all swept runtimes one after the other is a run that ends with all of them closed |
| `Addons.Manager.BeginChange` | internal/runtimes/manager.go:192-218 | accepts if and only if the pack is known, the manager open and the name not busy, and says which of these failed |
| `Addons.Manager.StartChecks` | internal/runtimes/manager.go:295-312 | launches if and only if installed and nothing runs in the slot |
| `Addons.Manager.StopTakes` | internal/runtimes/manager.go:341-358 | empties the slot and hands its runtime to the caller |
| `Addons.Manager.CloseSweeps` | internal/runtimes/manager.go:410-418 | takes exactly what the slots held and empties them |
| `Addons.Manager.CloseFinishes` | internal/runtimes/manager.go:419-426 | after the closing loop none of the swept runtimes lives |
| `Funnel.EveryRunIsSafe` | internal/discovery/funnel.go:81-201 | over any calls and restarts whose compensations succeed, everything public has an entry and every entry is in the state file; without a restart, public is exactly the entries |
| `Funnel.SafeExactly` | internal/discovery/funnel.go:95-108 | one call keeps safety if and only if it is not a confirmed new share whose save and undo both fail |
| `Funnel.AFailedUndoLeaks` | internal/discovery/funnel.go:100-108 | such a call leaves a public share with no entry |
| `Funnel.EnableDecides` | internal/discovery/funnel.go:81-112 | which error Enable returns and when; an unexpired share is left alone, a new one is public, in the map and on file with its times, a failed one is in neither and, with a working undo, not public; other shares are untouched |
| `Funnel.DisableDecides` | internal/discovery/funnel.go:117-143 | which error Disable returns and when; success leaves the share off and off file, a failed save puts it back |
| `Funnel.ExpireLeavesNothingExpired` | internal/discovery/funnel.go:174-201 | after success exactly the shares unexpired at the call's clock reading remain, and nothing else is public |
| `Funnel.ExpireExactly` | internal/discovery/funnel.go:187-199 | Expire takes down a prefix of its list, all of it if and only if it succeeds, and the share at which it stopped is the one whose command or save failed |
| `Funnel.ExpireEffect` | internal/discovery/funnel.go:187-199 | succeeds if and only if every command and save does; touches no unexpired entry, and keeps safety even when it stops half-way |
| `Funnel.ExposureNeedsConfirmation` | internal/discovery/funnel.go:81-84 | a share becomes public only by typing its own name, or as the undo of a failed removal |
| `Funnel.Manager.Enable` | internal/discovery/funnel.go:81-112 | the call's effect on map, file and exposure, and its error |
| `Funnel.Manager.Disable` | internal/discovery/funnel.go:117-143 | the call's effect on map, file and exposure, and its error |
| `Funnel.Manager.Expire` | internal/discovery/funnel.go:174-201 | takes down exactly the expired entries, each once, in some order, up to the first failure |
| `Funnel.Manager.ActiveEntries` | internal/discovery/funnel.go:157-171 | exactly the unexpired entries |
| `PhpWriter.ServeHttp` | internal/php/handler.go:32-39 | for any calls the client gets one status, before every body byte, and a body that is all writes in order; the status is raised to 500 and marked if and only if at most 256 KiB were written, they read as a fatal error and the status was below 500 |
| `PhpWriter.AnswersAgree` | internal/php/handler.go:49-98 | the calls alone determine status, mark and body |
| `PhpWriter.FatalExactly` | internal/php/handler.go:100-103 | a text reads as fatal if and only if `Fatal error` and `Stack trace:` or `Uncaught ` occur in it |
| `PhpWriter.ResponseWriter.WriteHeader` | internal/php/handler.go:51-55 | keeps the invariant: the first status that is not zero counts |
| `PhpWriter.ResponseWriter.Write` | internal/php/handler.go:57-70 | keeps the invariant: everything is held back until the limit is passed, then all of it has been sent behind one head |
| `PhpWriter.ResponseWriter.Finish` | internal/php/handler.go:72-98 | completes the answer |
| `Addresses.NormalizeAddresses` | internal/tlsca/authority.go:360-378 | strictly ascending, and exactly the usable unmapped addresses of the input |
| `Addresses.UsableExactly` | internal/tlsca/authority.go:360-373 | in numbers: which addresses of a list are usable, and that mapped ones count as IPv4 |
| `Addresses.OrderIsNumeric` | internal/tlsca/authority.go:374-376 | IPv4 before IPv6, each by number |
| `Addresses.AscendingIsCanonical` | internal/tlsca/authority.go:374-390 | two ascending lists with the same elements are equal, so comparing positions compares sets |
| `Addresses.AddressOrder` | internal/tlsca/authority.go:374-376 | the order on addresses is strict and total |
| `Addresses.SameAddresses` | internal/tlsca/authority.go:380-390 | true if and only if the lists are equal |
| `Addresses.Authority.UpdateAddresses` | internal/tlsca/authority.go:107-122 | an unchanged usable set changes nothing; otherwise set, certificate and key move together, or only what the failing write left |
| `Addresses.Authority.IssueLeaf` | internal/tlsca/authority.go:183-225 | in numbers: a success covers loopback and exactly the given addresses that are not unspecified, mapped ones as IPv4, without zones and duplicates; a failure leaves the certificate or, at worst, loses its file |
| `Addresses.LastSuccessIsServed` | internal/tlsca/authority.go:107-122 | over every run of updates, failing or not, the stored set is that of the last success, and so is the certificate as long as its file is there |
| `Addresses.LeafCoversExactly` | internal/tlsca/authority.go:107-122 | in numbers, after every run: the certificate on file covers loopback and exactly the usable addresses of the last list whose update did not fail |
| `Addresses.ReissuedExactlyOnChange` | internal/tlsca/authority.go:107-122 | after every run an update puts a new certificate on file if and only if the usable set changed and issuing worked |
| `Addresses.PairBreaksExactly` | internal/tlsca/authority.go:215-223 | the key and certificate files stop matching if and only if a change replaces or loses the key file and does not end in success |
| `Addresses.PairIsRepairedExactly` | internal/tlsca/authority.go:107-122 | they match again if and only if a change succeeds |
| `CommandLine.SplitCommandLine` | internal/app/detect.go:439-493 | the loop computes the specified split |
| `CommandLine.SplitOfJoin` | internal/app/detect.go:439-493 | every list of arguments, each quoted and joined with spaces, is split back into the same list |
| `CommandLine.FailsExactlyInsideAQuote` | internal/app/detect.go:486-488 | splitting fails if and only if the value ends inside a quote |
| `CommandLine.ArgumentsComeFromTheValue` | internal/app/detect.go:439-493 | the arguments put together are a subsequence of the value |
| `CommandGrammar.SplitsExactly` | internal/app/detect.go:439-493 | a value splits into given arguments if and only if its trimmed text can be spelled with legal tokens (characters, escapes, quote marks, gaps) that have them between their gaps |
| `CommandGrammar.ArgumentsAreTheContent` | internal/app/detect.go:439-493 | the arguments put together are the text without quote marks, escaping backslashes and gaps |
| `CommandGrammar.WritingsSplit` | internal/app/detect.go:439-493 | arguments written in any mixture of plain text, quotes and escapes, joined by runs of blanks, are split back |
| `CommandGrammar.WrittenArgumentsSplit` | internal/app/detect.go:439-493 | in particular bare words, single-quoted texts and texts with blanks and backslashes escaped, as long as the line has no white space at its ends |
| `CommandGrammar.TrimmingCanCutAnArgument` | internal/app/detect.go:451 | with white space at the ends they need not be: a last escaped blank is trimmed off |
| `CommandGrammar.TrimIsExact` | internal/app/detect.go:451 | trimming takes off white space at both ends, and all of it |
| `Slug.MakeSlug` | internal/scanner/scanner.go:312-338 | the loop computes the slug of the specification |
| `Slug.ValidSlug` | internal/config/config.go:157-165 | accepts exactly the hyphen-separated runs of letters and digits |
| `Slug.SlugIsEmptyOrValid` | internal/scanner/scanner.go:312-338 | every slug that is not empty is accepted by the recogniser |
| `Slug.ValidSlugsAreFixedPoints` | internal/config/config.go:157-165 | the recogniser accepts exactly the non-empty fixed points of the slug function |
| `Slug.SlugIsIdempotent` | internal/scanner/scanner.go:312-338 | taking the slug twice is taking it once |
| `Slug.TrimIsIdle` | internal/scanner/scanner.go:337 | the final trim never removes anything |
| `Slug.SlugIsHyphenatedWords` | internal/scanner/scanner.go:312-338 | a slug is the lower-cased words of the name joined with hyphens |
| `Slug.SlugKeepsTheLetters` | internal/scanner/scanner.go:312-338 | without its hyphens a slug is the letters and digits of the name, in order, capitals made small |
| `Slug.StemExactly` | internal/scanner/scanner.go:312-320 | exactly `.html` and `.htm`, in any case, are taken off a name |
| `Scanner.SlugsCollideExactly` | internal/scanner/scanner.go:174-192 | two apps of a scan share a slug if and only if one's base is the other's base, a hyphen and the other's use number |
| `Scanner.DecimalReads` | internal/scanner/scanner.go:178 | the number in a numbered slug reads back as the use number |
| `Scanner.SlugsAreDistinct` | internal/scanner/scanner.go:174-192 | when no base ends in a hyphen and a decimal of at least 2, all slugs differ |
| `Scanner.NotesCollide` | internal/scanner/scanner.go:174-192 | folders `notes`, `notes`, `notes-2` collide |
| `Scanner.OneMoreApp` | internal/scanner/scanner.go:174-192 | counting uses keeps every app numbered by its position among its base |
| `Scanner.Collector.Add` | internal/scanner/scanner.go:126-281 | adds an app exactly for new admitted entries, with the warnings the source gives, and keeps paths distinct and slugs numbered |
| `Scanner.AdmittedExactly` | internal/scanner/scanner.go:133-172 | which names are admitted, with the reserved and ignored names written out |
| `Scanner.WarningsTell` | internal/scanner/scanner.go:133-189 | an entry earns at most one warning, and which one |
| `Router.Router.Swap` | internal/router/router.go:39-48 | the stored table is the one the snapshot describes |
| `Router.Router.Serve` | internal/router/router.go:51-83 | one request is answered from one table |
| `Router.MountedAppIsReached` | internal/router/router.go:51-83 | an app that no later mount hides receives `/rest` for every path `/slug/rest` |
| `Router.OnlyItsOwnPathsReachAnApp` | internal/router/router.go:51-83 | a handler is reached only below its own slug and only if visible |
| `Router.HiddenAppIsDenied` | internal/router/router.go:65-68 | below the slug of an app that is not visible every request is denied |
| `Router.BareSlugRedirects` | internal/router/router.go:69-77 | the bare slug of a visible app redirects to the slug with a slash, query included |
| `Router.UnmountedIsNotFound` | internal/router/router.go:61-64 | a slug without a mounted handler, or none, is not found |
| `Router.EveryScannedAppIsReached` | internal/router/router.go:39-83 | when no base looks numbered every visible app of a scan is reached under its slug |
| `Router.ShadowedAppIsLost` | internal/router/router.go:39-48 | an app whose slug a later app shares is reached under no path |
| `BaseHref.OpeningTagEnd` | internal/supervisor/rewrite.go:78-101 | the search ends in bounds, behind the first genuine opening tag, and fails if and only if there is no such end |
| `BaseHref.InjectBaseElement` | internal/supervisor/rewrite.go:61-76 | the element goes behind the head tag, or nothing changes |
| `BaseHref.TagEndIsUnique` | internal/supervisor/rewrite.go:78-101 | a document has at most one such end |
| `BaseHref.HeaderIsNotHead` | internal/supervisor/rewrite.go:88-94 | `<header` is never taken for `<head` |
| `BaseHref.TagExactly` | internal/supervisor/rewrite.go:61-94 | a genuine tag is `<`, the letters of the name in any case, and then the end of the text, `>` or white space |
| `BaseHref.AutoInjectionIsIdempotent` | internal/supervisor/rewrite.go:61-76 | a second automatic injection changes nothing |
| `BaseHref.InjectionIsReversible` | internal/supervisor/rewrite.go:70-75 | deleting the inserted bytes gives back the document |
| `BaseHref.InjectionWritesThePrefix` | internal/supervisor/rewrite.go:70-75 | what stands between the untouched parts is the base element with the prefix and a slash |
| `BaseHref.AlwaysInjectionRepeats` | internal/supervisor/rewrite.go:61-76 | in always mode each further injection adds one more element at the same place |

## Left out

- Real processes, health polling, the reverse proxy and kill failures: children, health and clock are events, and closing a child succeeds.
- Liveness: nothing says that a starter, monitor or shutdown eventually takes its next step.
- Supervisor.Manager.StartLocked: ports, runtimes and logs are three answers given once; the allocator and the log sink are proved on their own and not composed with it.
- Supervisor.Manager.Restart: error texts, and the change notifications of all critical sections.
- Supervisor.Manager.CloseSweeps: releasing the port reservations in the same section is `Ports.Registry.Release`.
- RotatingLog.Log.Rotate: the rename of the active file to `.1` is the last round of the shifting loop; a disk whose failing operation nevertheless takes effect is not modelled, except for partial writes.
- RotatingLog.Log.Write: a log has one writer; two sinks open on one slug's files at the same time are not modelled.
- LogSink.Sink.Write: a sink without a log directory, which has only the ring.
- Ports.Registry.Assign: the port file is only its save succeeding or failing; two processes sharing it are not modelled.
- Listener.ListenerRuntime.Start: the HTTP server's own loop is the events it causes; the address field and `HTTPSRuntime`, a near copy, are left out.
- Addons.Manager.BeginChange: progress and message fields, installation, download and the removal of data directories; an unknown action cannot be expressed.
- Addons.Manager.CloseFinishes: a runtime that fails to close counts as closed.
- Funnel.Manager.Enable: overlapping calls; a command that fails after taking effect; a save that fails and also loses the old file; the sharing notification; a manager without an executor, which only returns an error.
- PhpWriter.ServeHttp: an informational 1xx status counts as the one status, as it does in the writer; a real server sends it and follows it with an implied 200. Also headers other than the fatal-error mark; failing writes to the client; FastCGI and path mapping.
- Addresses.Authority.IssueLeaf: backups and temporary files beside the two files, names, validity and serial numbers of certificates, and the root.
- Addresses.NormalizeAddresses: the library sort is an insertion sort; the result is unique, so the algorithm does not matter.
- CommandLine.SplitCommandLine: as in the source the character NUL stands for "no quote"; strings are sequences of characters, not of encoded bytes.
- Slug.MakeSlug: lower-casing and white space cover the characters that can matter to `a`-`z` and `0`-`9`; other Unicode case mappings are not modelled. The extension is found with `/` as the path separator.
- Scanner.Collector.Add: display names, detection, manifests, file counts and databases of an app folder, and warning texts.
- Router.Router.Serve: the visibility test is a predicate given with the request; parsing remote addresses is not modelled.
- BaseHref.InjectBaseElement: non-ASCII documents, whose length lower-casing can change; the response headers around it.
- The dashboard, CLI, tray, doctor, autostart, update check, preferences and the SQLite browser: plumbing and user interface.
