# dbgflow, modelled and proved in Dafny

This project models the parts of dbgflow whose correctness is not visible from one function, and proves
properties of the model for all inputs, all runs and all interleavings.

| module files | part of dbgflow |
|---|---|
| `EtwEvents`, `IrpHistory`, `IrpRows`, `PathHistory`, `EventIndex`, `ModuleTable`, `ModuleHistory`, `StackParking`, `StackHistory`, `StackPlacement`, `EtwProcessor` | the ETW trace processor |
| `SessionManager`, `SessionInvariant`, `SessionProperties`, `SessionExactness`, `SessionStatus`, `SessionOutcomes`, `SessionAlone`, `WorkerRegistry` | the debug session manager and its worker registry |
| `SessionWorkerLoop`, `SessionWorkerAnswers`, `SessionWorkerWire`, `SessionWorkerReplies`, `SessionWorkerLosses` | the protocol between the manager and a session worker |
| `SupervisorMultiplexer`, `MultiplexerRouting`, `MultiplexerHistory`, `MultiplexerStarts`, `MultiplexerKills`, `MultiplexerUndisturbed`, `MultiplexerOrphans`, `MultiplexerRuns` | the requests many callers share one IDA supervisor for |
| `IdaSessions`, `IdaBinding`, `IdaReadiness`, `IdaTargets`, `IdaAlone`, `IdaRuns` | IDA sessions, the databases they are bound to, and their targets |
| `CommandLinePrinter`, `CommandLineParser`, `CommandLineRoundTrip`, `InstalledServiceCommand` | Windows command lines |
| `EnvironmentBlock`, `ProxySettings`, `ProxyDerivation` | process environments and proxy variables |
| `Gregorian`, `LogFileNames` | daily log file names |
| `InstallPaths`, `PathContainment` | install-root paths and removal |
| `Wrappers`, `Texts` | option and result types, joined and upper-cased texts |

How the parts are modelled:

- The trace processor is a class whose fields are those of the program. A ghost field holds the records
  seen so far, and `Valid()` says that every other field is a function of that history: the rows, the IRP
  maps and counters, the path cache, the timestamp index, the parked and attached stacks, the module table.
  The declarative meaning of each of these functions is proved beside it.
- The session manager, the IDA sessions and the supervisor multiplexer are transition systems. A step is
  one critical section of one thread, one message, or one return of a call to another process; between two
  steps of a thread any other thread may run. What the outside decides (whether a worker starts, what a
  backend reports, when something times out or dies) is a parameter of the step, so every theorem about
  runs covers all of it.
- Beside the theorems about all runs, `SessionAlone`, `IdaAlone` and `MultiplexerUndisturbed` say, for every
  state to begin with, what each operation comes to when no other thread interferes.
- The worker loop, the parsers and printers, the environment and path functions are methods with the loops
  of the program, each proved equal to a specification function about which the theorems are.

Some properties hold only under a condition. The exact condition is proved, and where it is a matter of
interleaving, a run from the start shows that it can fail:

- A step makes it possible for a command to get a second terminal record if and only if it is a
  `close_session` that moves its session straight to Closed under an eval that may still record a command
  decided before (`SessionExactness.DangerIsExact`). The worker monitor can decide a command while its eval
  still executes; in `SessionProperties.RecordsCanRepeat` the eval then writes a second record.
- Statuses only advance exactly as long as no eval ends with effect on a session whose last operation has
  ended before in another way (`SessionStatus.StatusStep`, `StatusIsExact`): `finish_operation` puts its status
  on the last operation without looking at what it was. Records agree with what sessions show exactly as long
  as no such operation has a record (`ShownStep`). `StatusCanGoBack` is a run in which a failed command becomes
  Finished. This is another condition than the one for repeated records.
- Both are met in every run in which no session is closed directly while an eval is inside its operation lock
  (`SessionStatus.AtMostOneRecord`), which is enough and easier to look at, but is not needed.
- That the operation lock excludes, and that every decided status reaches the log, needs no condition
  (`SessionProperties.LockExcludes`, `QuietLogIsComplete`).
- At most one reusable debug session has a target as long as no backend event other than Closed reaches a
  Closed session; `SessionProperties.UniqueStep` says exactly which step breaks it, and `TargetsCanClash` is a
  run that does.
- At most one reusable IDA session has a target as long as no failed save restores a session whose target has
  been opened again meanwhile (`IdaTargets.ApartStep`, `IdaRuns.TargetsCanClash`).
- The command line of the service printer is read back exactly if every argument is free of whitespace or
  has one of the printer's own triggers, and only then (`CommandLineRoundTrip.ServiceRoundTrip`): other
  Unicode whitespace separates arguments for the parser, but does not make this printer quote.
- A running supervisor process is always current or within reach of the next kill, except after the three steps
  that `MultiplexerOrphans.ForgettingIsExact` names. One needs no failure: a call may start a process between
  two steps of a kill, which then clears the state of the new process (`MultiplexerRuns.ProcessCanBeForgotten`).

Two more places where the program does less than one may expect are stated as they are, each with a run: an
IDA session whose save output cannot be written may stay Closing with its binding
(`IdaRuns.UnwrittenOutputCanLeaveClosing`), and a late health refresh can turn a Closed IDA session into Error
(`IdaRuns.ClosedCanBecomeError`).

The whole project verifies with `dafny verify dfyconfig.toml`.

## Model

| member | source | states |
|---|---|---|
| EtwProcessing.EtwProcessor.constructor | crates/dbgflow-trace/src/profile/native_etw.rs:758-793 | A new processor holds exactly what the empty history calls for, for its target and settings |
| EtwProcessing.EtwProcessor.ProcessLifecycleEvent | crates/dbgflow-trace/src/profile/native_etw.rs:811-890 | Every field again is the function of the history that `Valid` names, the history being longer by this record, whether or not the record is the target's |
| EtwProcessing.EtwProcessor.ProcessFileIoEvent | crates/dbgflow-trace/src/profile/native_etw.rs:892-981 | The same for file records: rows, paths, IRP tables, counters, index, parked and attached stacks |
| EtwProcessing.EtwProcessor.ProcessStackWalkEvent | crates/dbgflow-trace/src/profile/native_etw.rs:1104-1118 | The same for StackWalk records: the stack goes to the row its timestamp and thread call for, or to the parking lot, or is dropped, as the history determines |
| EtwProcessing.EtwProcessor.ProcessRecord | crates/dbgflow-trace/src/profile/native_etw.rs:795-809 | One decoded record of any kind; file records are not looked at when file events were not asked for |
| EtwProcessing.ProcessTrace | crates/dbgflow-trace/src/profile/native_etw.rs:1379-1424 | After any trace, under any settings, the object describes exactly the records it looks at, and each StackWalk record is attached, dropped or parked |
| EtwProcessing.EtwProcessor.MergeFileIoCompletion | crates/dbgflow-trace/src/profile/native_etw.rs:993-1020 | An OpEnd completes the one row pending on its IRP, is swallowed after a close, or counts as unmatched; the branch for a row out of range is never reached |
| EtwProcessing.EtwProcessor.IgnoreFileIoClose | crates/dbgflow-trace/src/profile/native_etw.rs:983-991 | A close opens no row, abandons the request pending on its IRP and forgets the paths of its pointers |
| EtwProcessing.EtwProcessor.ResolveFilePath | crates/dbgflow-trace/src/profile/native_etw.rs:1060-1080 | The event's own path, else the path the history makes known for its file object, else for its file key |
| EtwProcessing.EtwProcessor.CacheFilePath | crates/dbgflow-trace/src/profile/native_etw.rs:1039-1049 | Exactly the pointers of a path-bearing event get its path |
| EtwProcessing.EtwProcessor.RemoveFilePath | crates/dbgflow-trace/src/profile/native_etw.rs:1051-1058 | Exactly the pointers of the event lose their paths |
| EtwProcessing.EtwProcessor.RecordModuleUnload | crates/dbgflow-trace/src/profile/native_etw.rs:1092-1102 | The youngest loaded module at the base (and size, if given) gets its end; nothing else changes |
| EtwProcessing.EtwProcessor.AttachStackWalkEvent | crates/dbgflow-trace/src/profile/native_etw.rs:1169-1200 | The stack is attached to the first row of its timestamp on its thread, else, for a target stack, to the first of its timestamp; the result says whether there was one |
| EtwProcessing.EtwProcessor.AttachParked | crates/dbgflow-trace/src/profile/native_etw.rs:970-977 | Re-attaching parked stacks never fails, and attaches each to the row it belongs to, in order |
| EtwProcessing.EtwProcessor.CacheParked | crates/dbgflow-trace/src/profile/native_etw.rs:1120-1143 | Foreign stacks are dropped; a full lot gives up its oldest timestamp for a new one; a full timestamp drops the newcomer |
| EtwProcessing.EtwProcessor.PruneParkedBefore | crates/dbgflow-trace/src/profile/native_etw.rs:1145-1154 | Exactly the stacks older than the timestamp are given up |
| EtwProcessing.EtwProcessor.DropOldestParked | crates/dbgflow-trace/src/profile/native_etw.rs:1156-1167 | The oldest timestamp leaves the lot, and its stacks are accounted for as dropped |
| EtwProcessing.EtwProcessor.FinalizeStacks | crates/dbgflow-trace/src/profile/native_etw.rs:1226-1258 | Each row's stack is its addresses resolved against the final module table at the row's own time, outermost first, and the statistics count exactly those frames |
| EtwProcessing.FinalizeStack | crates/dbgflow-trace/src/profile/native_etw.rs:1330-1341 | One stack finished, and its frames added to the counts |
| EtwProcessing.AppendStackFrames | crates/dbgflow-trace/src/profile/native_etw.rs:1322-1328 | The loop computes the specified appending |
| EtwProcessing.EtwProcessor.Finish | crates/dbgflow-trace/src/profile/native_etw.rs:1260-1320 | The reported counts are the numbers of rows with each fate: matched, reused, incomplete, with and without path, per kind |
| EtwProcessing.EtwProcessor.StackAccounting | crates/dbgflow-trace/src/profile/native_etw.rs:882-889 | Seen = matched + dropped + parked at all times; at most 4096 parked timestamps with 32 stacks each, none of them indexed |
| EtwProcessing.PostProcessTrace | crates/dbgflow-trace/src/profile/native_etw.rs:1379-1424 | From any records and settings to the report: the rows the records call for, each with its finished stack, and the figures and frame counts about exactly those rows |
| EtwProcessing.StacksReadAsOfTheirOwnTime | crates/dbgflow-trace/src/profile/native_etw.rs:1226-1242 | If lifecycle records come in timestamp order, every reported stack reads as if resolved with the modules of all records up to the row's own timestamp |
| StackParking.AppendedAddsEachMissingAddressOnce | crates/dbgflow-trace/src/profile/native_etw.rs:1322-1328 | Appending keeps what was there, adds each missing nonzero address once and nothing else |
| StackParking.FramesAreOwnAndAttached | crates/dbgflow-trace/src/profile/native_etw.rs:1169-1200 | A row keeps its own addresses in front and adds exactly the nonzero ones of the stacks attached to it, each once |
| StackParking.ConservedNumbers | crates/dbgflow-trace/src/profile/native_etw.rs:1104-1200 | Conservation as multisets gives conservation of the counters |
| StackParking.BagRemove | crates/dbgflow-trace/src/profile/native_etw.rs:1156-1167 | What leaves the lot with a timestamp is exactly what was parked under it |
| StackPlacement.TakerTakes | crates/dbgflow-trace/src/profile/native_etw.rs:1169-1200 | A row takes a stack if and only if it is the first row of the stack's timestamp on the stack's own thread, or there is none on that thread, the row is the first of the timestamp, and the stack is the target's |
| StackPlacement.StackIsAttached | crates/dbgflow-trace/src/profile/native_etw.rs:1104-1118 | A stack that arrives is attached to the row that takes it, and to none if no row does |
| StackPlacement.ArrivalIsAttached | crates/dbgflow-trace/src/profile/native_etw.rs:1104-1118 | In every history a stack that found a row on its arrival is attached to that row |
| StackPlacement.AttachmentsBelong | crates/dbgflow-trace/src/profile/native_etw.rs:1169-1200 | In every history each attached stack went to the row that took it when it was attached, and no other |
| StackPlacement.RowTakesTheParked | crates/dbgflow-trace/src/profile/native_etw.rs:970-977 | A record that opens a row gives it all stacks parked for its timestamp, in their order, and every other record attaches none |
| StackPlacement.ParkedAreAttached | crates/dbgflow-trace/src/profile/native_etw.rs:970-977 | In every history the first row of a timestamp has every stack that was parked for it |
| StackPlacement.LeavesTheLot | crates/dbgflow-trace/src/profile/native_etw.rs:1120-1167 | A timestamp leaves the lot if and only if a row of it opens, a record with a later timestamp opens a row or one of the target arrives, or the lot has 4096 timestamps, this is the oldest, and a stack of a new one comes |
| StackPlacement.JoinsTheLot | crates/dbgflow-trace/src/profile/native_etw.rs:1120-1143 | A target stack without a row is parked behind those of its timestamp unless 32 are there; nothing else joins |
| IrpHistory.PendingIsTheOpenRow | crates/dbgflow-trace/src/profile/native_etw.rs:960-968 | `pending_file_irps` maps a pointer to a row exactly when the last target begin, target close or OpEnd naming it was the begin that opened that row |
| IrpHistory.CompletionLandsOnTheLatestBegin | crates/dbgflow-trace/src/profile/native_etw.rs:993-1020 | A completed row was completed by the first event naming its IRP after it, so by an OpEnd with no begin or close in between |
| IrpHistory.OneCompletionPerOpEnd | crates/dbgflow-trace/src/profile/native_etw.rs:993-1020 | No OpEnd completes two rows |
| IrpHistory.NextNamingIsTheFirst | crates/dbgflow-trace/src/profile/native_etw.rs:1022-1037 | The event that settles a row is the first later one naming its IRP |
| IrpHistory.CompletionSequenceIsLater | crates/dbgflow-trace/src/profile/native_etw.rs:993-1020 | A completion sequence is larger than the sequence of the record that opened its row |
| IrpHistory.CompletionSequencesAreDistinct | crates/dbgflow-trace/src/profile/native_etw.rs:993-1020 | No two rows have the same completion sequence |
| IrpHistory.IncompleteCountIsExact | crates/dbgflow-trace/src/profile/native_etw.rs:1279-1280 | Pending plus reused is the number of IRP rows without a completion |
| IrpHistory.IrpRowsAreConserved | crates/dbgflow-trace/src/profile/native_etw.rs:960-1020 | At all times the rows are those without an IRP plus the pending, the matched and the reused ones (a request abandoned by a close counts as reused) |
| IrpHistory.PendingRowExists | crates/dbgflow-trace/src/profile/native_etw.rs:998-1008 | A pending row index is always in range |
| IrpHistory.FatesStep | crates/dbgflow-trace/src/profile/native_etw.rs:892-1037 | How one event changes the fates of all rows |
| IrpHistory.RowsStep | crates/dbgflow-trace/src/profile/native_etw.rs:920-1020 | How one event changes the row table |
| IrpHistory.KeptByBegin | crates/dbgflow-trace/src/profile/native_etw.rs:960-968 | A begin keeps maps and counters in agreement with the history |
| IrpHistory.KeptByClose | crates/dbgflow-trace/src/profile/native_etw.rs:983-991 | So does a close |
| IrpHistory.KeptByOpEnd | crates/dbgflow-trace/src/profile/native_etw.rs:993-1020 | So does an OpEnd |
| IrpHistory.RejectedEventChangesNothing | crates/dbgflow-trace/src/profile/native_etw.rs:892-895 | An event that does not concern the target changes no fate, row or count |
| IrpRows.RowsAreTheBegins | crates/dbgflow-trace/src/profile/native_etw.rs:920-958 | The rows are exactly the target events that are neither OpEnd nor close, in order of arrival |
| IrpRows.RowTellsItsEvents | crates/dbgflow-trace/src/profile/native_etw.rs:920-1020 | A row numbers and repeats its begin, with the path resolved then; the OpEnd that answers it supplies the completion, and status and extra information if it has them; without one both are the begin's own |
| IrpRows.SwallowedOnlyForAClose | crates/dbgflow-trace/src/profile/native_etw.rs:983-1020 | The next OpEnd of an IRP that answers no begin is swallowed if and only if a target close of that IRP waits: every OpEnd since then answered a begin made since then |
| IrpRows.AcceptedOpEnds | crates/dbgflow-trace/src/profile/native_etw.rs:892-907 | An OpEnd is looked at if and only if it is the target's own, answers a begin, or a close waits for it, and is unmatched if and only if it is the target's own and neither of the others |
| PathHistory.KnownIsTheLatestRevealed | crates/dbgflow-trace/src/profile/native_etw.rs:908-918 | A known path is that of the latest target event with a path naming the pointer, with no cleanup or close naming it since |
| PathHistory.KnownPathsAreNotEmpty | crates/dbgflow-trace/src/profile/native_etw.rs:1039-1049 | No cached path is empty |
| PathHistory.ResolvedPathIsNotEmpty | crates/dbgflow-trace/src/profile/native_etw.rs:1060-1080 | No resolved path is empty |
| PathHistory.PathsComeInOrder | crates/dbgflow-trace/src/profile/native_etw.rs:1060-1080 | A row has its event's own path, else the latest path behind its file object, else the latest behind its file key, and names which of these it was |
| EventIndex.RowsAtHoldsExactlyTheRowsOfItsTimestamp | crates/dbgflow-trace/src/profile/native_etw.rs:856-880 | The index entry of a timestamp lists a row if and only if the row exists and carries that timestamp |
| EventIndex.RowsAtIsInOrder | crates/dbgflow-trace/src/profile/native_etw.rs:856-880 | An index entry lists the rows of each table in order of arrival |
| EventIndex.CountsAddUpToTheRows | crates/dbgflow-trace/src/profile/native_etw.rs:1356-1377 | The per-kind counters add up to the number of file rows |
| EventIndex.PathCountStep | crates/dbgflow-trace/src/profile/native_etw.rs:920-926 | One event changes the number of rows and of rows with a path by exactly what its own row adds; an event without a row, a completion included, changes neither |
| ModuleTable.OwnerIsTheLatest | crates/dbgflow-trace/src/profile/native_etw/stack.rs:39-49 | An address belongs to the module loaded last among those containing it at the time |
| ModuleTable.ResolvedFrameIsInsideItsModule | crates/dbgflow-trace/src/profile/native_etw/stack.rs:39-59 | A resolved frame has an offset below the module's size, and base plus offset is the address |
| ModuleTable.ContainsExactly | crates/dbgflow-trace/src/profile/native_etw/stack.rs:17-25 | A module contains an address if and only if the time lies between its load and its unload, both included, and the address in its range, whose saturating end costs only the last address of the 64-bit space |
| ModuleHistory.TableListsLoads | crates/dbgflow-trace/src/profile/native_etw.rs:1082-1102 | In every history the table lists the usable loads in order, each with its own base, size, name and time, and ended at the time of the unload that ended it, if any |
| ModuleHistory.ResolvesToItsOwner | crates/dbgflow-trace/src/profile/native_etw/stack.rs:39-59 | By loads and unloads alone: an address resolves into the module loaded last among those covering it whose load is not after the time and which no unload has ended before it, at its offset there; without one it stays bare |
| ModuleHistory.EndedModulesOwnNothing | crates/dbgflow-trace/src/profile/native_etw/stack.rs:39-59 | An address whose covering modules were all loaded later or ended before the time is unknown |
| EtwProcessing.ReportedFramesAreOwned | crates/dbgflow-trace/src/profile/native_etw.rs:1226-1242 | Every frame of a reported stack is what the loads and unloads of the trace make of its address at the row's time, outermost first |
| ModuleTable.DeferredResolutionIsOnline | crates/dbgflow-trace/src/profile/native_etw.rs:1082-1102 | Lifecycle events later than a time do not change what addresses resolve to at that time |
| ModuleTable.OrderedTraceResolvesOnline | crates/dbgflow-trace/src/profile/native_etw.rs:1226-1242 | So resolving at the end equals resolving with the modules seen by then |
| ModuleTable.ReversalKeepsInside | crates/dbgflow-trace/src/profile/native_etw.rs:1330-1341 | Turning the stack around keeps the number of resolved frames |
| SessionInvariant.InvKept | crates/dbgflow-debug/src/session/manager.rs:189-1785 | Every step of every thread, without exception, keeps the invariant: locks, positions, ids, live operations, closers and debts agree |
| SessionInvariant.LocalStep | crates/dbgflow-debug/src/session/manager.rs:301-1571 | The same of the step's own slot and thread, for all startup, eval, close and monitor steps |
| SessionInvariant.LiveHeldKept | crates/dbgflow-debug/src/session/manager.rs:857-909 | A live operation of an open session always belongs to the eval inside its lock |
| SessionInvariant.ClosersApartKept | crates/dbgflow-debug/src/session/manager.rs:301-462 | Two threads close one session only if its startup never finished |
| SessionInvariant.LocksAgreeKept | crates/dbgflow-debug/src/session/manager.rs:393-447 | The recorded holder of each operation lock is the one thread inside it |
| SessionInvariant.NothingLostKept | crates/dbgflow-debug/src/session/manager.rs:1667-1785 | A decided status is written or still owed by a thread after every step |
| SessionInvariant.RecordsOkKept | crates/dbgflow-debug/src/session/manager.rs:1176-1303 | As long as only undecided commands are decided, records and debts stay distinct and say what was decided |
| SessionProperties.LockExcludes | crates/dbgflow-debug/src/session/manager.rs:393-447 | In every run no two threads are inside one session's operation lock |
| SessionProperties.QuietLogIsComplete | crates/dbgflow-debug/src/session/manager.rs:1667-1785 | In every run, when no thread owes a record, the log holds exactly the commands whose final status was decided |
| SessionStatus.StatusStep | crates/dbgflow-debug/src/session/manager.rs:911-947 | In every reachable state a step changes a session's last operation legally if and only if it is not the effective end of an eval of a session whose last operation has ended before in another way |
| SessionStatus.StatusIsExact | crates/dbgflow-debug/src/session/manager.rs:857-1009 | In a run all statuses change legally if and only if no step is such an end |
| SessionStatus.StatusOnlyAdvances | crates/dbgflow-debug/src/session/manager.rs:857-1303 | In runs without such a step a command's status only moves Running to CancelRequested, to Finished or Failed, or CancelRequested to Canceled or Failed, and a replaced command never returns |
| SessionStatus.ShownStep | crates/dbgflow-debug/src/session/manager.rs:911-947 | While records and sessions agree, a step makes them disagree if and only if it is such an end for an operation that has a record or is owed one |
| SessionStatus.RecordsAreShown | crates/dbgflow-debug/src/session/manager.rs:619-1009 | In runs without such a step every record has the status its session shows for the command |
| SessionStatus.StatusCanGoBack | crates/dbgflow-debug/src/session/manager.rs:934-947 | A run from the start in which a command that failed, and whose failure is recorded, is Finished later |
| SessionExactness.DangerIsExact | crates/dbgflow-debug/src/session/manager.rs:313-326 | From every state reached without such a step, a step makes a second record of some command possible if and only if it is a direct close under an eval that may still record a command decided before |
| SessionExactness.OneRecordWithoutDanger | crates/dbgflow-debug/src/session/manager.rs:619-1009 | In every run without such a step, whatever else the threads do, no command gets two records |
| SessionExactness.DangerRepeats | crates/dbgflow-debug/src/session/manager.rs:911-1009 | After such a step, the threads already running produce the second record |
| SessionExactness.HarmlessKept | crates/dbgflow-debug/src/session/manager.rs:189-1785 | What keeps records apart survives every other step |
| SessionProperties.DirectCloseRepeatsRecord | crates/dbgflow-debug/src/session/manager.rs:322-326 | From every state in which a command has its record and its eval still executes, a direct close leads to a second record |
| SessionProperties.RecordsCanRepeat | crates/dbgflow-debug/src/session/manager.rs:301-326 | A run from the start in which that happens |
| SessionStatus.AtMostOneRecord | crates/dbgflow-debug/src/session/manager.rs:619-1009 | In every run in which no session is closed directly while an eval is inside its operation lock: at most one terminal record per command, with the status the session shows, and all statuses change legally |
| SessionOutcomes.EvalRecordSaysOutcome | crates/dbgflow-debug/src/session/manager.rs:619-702 | In every run a record written after an eval is about that eval's command, and says Finished if and only if the eval returned with success and Failed if and only if it returned with a failure; one whose output was not stored writes none |
| SessionOutcomes.EvalFinishSaysOutcome | crates/dbgflow-debug/src/session/manager.rs:911-947 | In every run the end of an eval that counts gives the last operation the status of its outcome and its session the state the outcome calls for: Error after a failure, the named one or the old one after a success; one that does not count changes nothing |
| SessionOutcomes.OtherRecordsSayOutcome | crates/dbgflow-debug/src/session/manager.rs:1176-1260 | In every run a close records Canceled if the worker was closed and Failed if not, and a lost worker records Failed; nothing else is recorded |
| SessionOutcomes.FinishCloseSaysOutcome | crates/dbgflow-debug/src/session/manager.rs:1176-1260 | In every run the end of a close leaves its session Closed if the worker was closed and Error if not, without a live operation |
| SessionOutcomes.RunIsTied | crates/dbgflow-debug/src/session/manager.rs:480-1303 | In every run each thread is where its own actions have brought it |
| SessionAlone.PlayIsARun | crates/dbgflow-debug/src/session/manager.rs:185-1620 | The moves of one thread on its session's slot, whose results the next rows state for every slot, are a run of the manager in which no other thread steps |
| SessionAlone.StartupAttaches | crates/dbgflow-debug/src/session/manager.rs:1406-1452 | A startup whose worker starts and creates its session leaves the session attached and in Break, the lock free and the worker registered |
| SessionAlone.StartupFailsToCreate | crates/dbgflow-debug/src/session/manager.rs:1484-1570 | One whose worker does not create its session leaves the session in Error, the lock free and no worker |
| SessionAlone.StartupFailsToSpawn | crates/dbgflow-debug/src/session/manager.rs:1305-1360 | So does one whose worker does not start |
| SessionAlone.StartupCancelsWorker | crates/dbgflow-debug/src/session/manager.rs:1375-1383 | A startup that finds its session being closed cancels the worker it has just started, and the session is Closed |
| SessionAlone.StartupClosesWorker | crates/dbgflow-debug/src/session/manager.rs:1464-1482 | One that finds so once its session is created closes or drops the worker: a Closing session is Closed, or Error if the worker could not be closed, and an ended one stays as it is |
| SessionAlone.StartupGivesUp | crates/dbgflow-debug/src/session/manager.rs:1484-1570 | A failed startup removes its worker and leaves its session Error, Closed if it was Closing, or as it was if it had ended |
| SessionAlone.EvalLeavesItsOutcome | crates/dbgflow-debug/src/session/manager.rs:525-766 | An eval of an open session issues the next command id, leaves the session with that command and the state and status of its outcome and the lock free, and records that status unless the output was not stored |
| SessionAlone.EvalIsRefused | crates/dbgflow-debug/src/session/manager.rs:466-524 | An eval of a session in another state, or without a worker, changes nothing |
| SessionAlone.IdleSessionIsClosed | crates/dbgflow-debug/src/session/manager.rs:319-446 | Closing an idle session closes its worker and leaves it Closed, or Error if the worker could not be closed, with the lock free |
| SessionAlone.CloseAtOnce | crates/dbgflow-debug/src/session/manager.rs:308-328 | A session without worker and operation is Closed at once; closing a Closed or Closing one changes nothing |
| SessionAlone.BusySessionIsCanceled | crates/dbgflow-debug/src/session/manager.rs:321-384 | Closing a busy session asks for its command to be canceled and kills its worker |
| SessionAlone.BusySessionTimesOut | crates/dbgflow-debug/src/session/manager.rs:386-418 | If the command does not end in time the close removes the worker, fails and records the command, and leaves the session in Error and the lock with its holder |
| SessionAlone.LostWorkerIsMarked | crates/dbgflow-debug/src/session/manager.rs:1581-1740 | Losing the worker of an open session leaves it in Error without a worker, and fails and records its live command |
| SessionStatus.GentleIsEnough | crates/dbgflow-debug/src/session/manager.rs:313-326 | That one condition rules out every step that could repeat a record, take a status back, or make a record disagree |
| SessionProperties.OnlyEventsReopen | crates/dbgflow-debug/src/session/manager.rs:789-815 | A session leaves Closing, Closed and Error exactly when a backend event other than Closed reaches it in Closed |
| SessionProperties.UniqueStep | crates/dbgflow-debug/src/session/manager.rs:208-248 | A step keeps reusable sessions apart exactly unless such an event reopens a session whose target another one has |
| SessionProperties.AtMostOneReusable | crates/dbgflow-debug/src/session/manager.rs:208-248 | In every run without such events no two reusable sessions share a target, and Closing, Closed and Error are never left |
| SessionProperties.TargetsCanClash | crates/dbgflow-debug/src/session/manager.rs:789-815 | A run from the start that ends with two reusable sessions for one target: the worker exits with a Running frame unread, the session is closed and its target opened again, and the eval thread then reads the frame |
| SessionProperties.StartupSucceeds | crates/dbgflow-debug/src/session/manager.rs:1305-1395 | An undisturbed startup ends in Break with a registered worker, a monitor and the lock free |
| WorkerRegistry.Registry.InsertWorker | crates/dbgflow-debug/src/session/worker_registry.rs:26-38 | Registers the worker and clears an old cancel mark, and nothing else |
| WorkerRegistry.Registry.RemoveWorker | crates/dbgflow-debug/src/session/worker_registry.rs:40-45 | Forgets worker and mark, and returns the worker that was registered |
| WorkerRegistry.Registry.KillOnceFor | crates/dbgflow-debug/src/session/worker_registry.rs:47-58 | Kills the registered worker if and only if it is not marked yet, and marks it |
| WorkerRegistry.Registry.IsCancelRequested | crates/dbgflow-debug/src/session/worker_registry.rs:60-65 | Whether the session'On a sound registry the answer is yes exactly for a session whose registered worker has been killed |
| WorkerRegistry.KilledAtMostOnce | crates/dbgflow-debug/src/session/worker_registry.rs:26-65 | Over any interleaving of operations no worker is killed twice, and a registered worker is marked exactly if it was killed |
| WorkerRegistry.SlotsFollowRegistry | crates/dbgflow-debug/src/session/worker_registry.rs:26-65 | The session manager's slots change as the registry does, session by session |
| MultiplexerRouting.RepliesAreRouted | crates/dbgflow-reverse/src/ida/worker.rs:201-327 | In every run a call is sent at most one message and returns that one; a reply in it comes from the supervisor it asked, under the request id only it was given there |
| MultiplexerRouting.WaitersAreNotForgotten | crates/dbgflow-reverse/src/ida/worker.rs:201-268 | In every run a waiting call is in exactly one place: its supervisor's map, some thread's hand, or it has its message |
| MultiplexerRouting.ReplyFindsItsCaller | crates/dbgflow-reverse/src/ida/worker.rs:301-312 | Whoever is registered under a reply's id asked that supervisor under that id |
| MultiplexerRouting.KillTakesEveryWaiter | crates/dbgflow-reverse/src/ida/worker.rs:555-597 | A kill takes every waiter of the map it drains and leaves it empty |
| MultiplexerRouting.EndTakesEveryWaiter | crates/dbgflow-reverse/src/ida/worker.rs:270-300 | So do the end of the output and an unreadable line |
| MultiplexerRouting.DrainedByKillIsTold | crates/dbgflow-reverse/src/ida/worker.rs:600-614 | Over every run, whoever a kill drained has been sent its error or is about to be, by that killer |
| MultiplexerRouting.DrainedByReaderIsTold | crates/dbgflow-reverse/src/ida/worker.rs:270-327 | The same for the reader; once it has ended, everyone it drained has been told |
| MultiplexerRouting.MailStays | crates/dbgflow-reverse/src/ida/worker.rs:201-268 | A message once sent is never taken back or followed by another |
| MultiplexerRouting.InvKept | crates/dbgflow-reverse/src/ida/worker.rs:201-614 | Every step of callers, readers, killers and process exits keeps senders, tickets and channels in order |
| MultiplexerRouting.RegisterIsNew | crates/dbgflow-reverse/src/ida/worker.rs:215-223 | A call registers under an id its supervisor's map does not hold |
| MultiplexerStarts.RequestsGoToLiveSupervisors | crates/dbgflow-reverse/src/ida/worker.rs:329-392 | In every run a request goes to a supervisor if and only if its call settled on it: the current one, which it saw running then, or one it started after it had found none running |
| MultiplexerStarts.HeadedWhereSettled | crates/dbgflow-reverse/src/ida/worker.rs:329-392 | In every run the state mutex has one holder, and a call is headed for exactly the supervisors it has settled on |
| MultiplexerKills.OnlyTimeoutsKill | crates/dbgflow-reverse/src/ida/worker.rs:245-262 | In every run a request that has returned has begun a kill if and only if it had timed out |
| MultiplexerKills.KillsRunToTheirEnd | crates/dbgflow-reverse/src/ida/worker.rs:555-597 | In every run a kill that has returned has failed to kill the process, or has seen to the waiting callers and cleared the state |
| MultiplexerKills.TakenProcessesAreKilled | crates/dbgflow-reverse/src/ida/worker.rs:555-569 | In every run a process that a kill has taken is dead, unless the kill is just about to kill it or could not |
| MultiplexerKills.CurrentCanBeKilled | crates/dbgflow-reverse/src/ida/worker.rs:365-388 | In every run the current process and its waiting callers stand where kills take them, unless a kill has taken them already |
| MultiplexerKills.MutexIsReleased | crates/dbgflow-reverse/src/ida/worker.rs:201-212 | In every run the state mutex is held exactly by the one call that is inside it, so by no call that has returned |
| MultiplexerUndisturbed.UndisturbedCallIsAnswered | crates/dbgflow-reverse/src/ida/worker.rs:201-327 | From any state with the state mutex free, a call that nobody disturbs and whose process answers gets that answer, from the current process if it runs and from a new one if not, and nothing else changes |
| MultiplexerUndisturbed.DeadSupervisorIsReplaced | crates/dbgflow-reverse/src/ida/worker.rs:329-389 | From any such state with no process running, such a call comes to its ticket with a new process, which is current and stands where kills take it |
| MultiplexerUndisturbed.ProbeDropsTheDead | crates/dbgflow-reverse/src/ida/worker.rs:530-553 | From any such state a probe drops a dead process from every handle and leaves a running one where it is |
| MultiplexerUndisturbed.UndisturbedKillTakesDown | crates/dbgflow-reverse/src/ida/worker.rs:555-614 | From any such state with one process in reach, a kill that nobody disturbs kills it, tells everyone who waits for it and leaves no process current |
| MultiplexerOrphans.ForgettingIsExact | crates/dbgflow-reverse/src/ida/worker.rs:329-594 | In every run a step takes the last reference to a running process if and only if it is a start that meets it in the handle, a failed kill when it neither is nor becomes current, or the last step of a kill when it is current and an earlier kill has failed to kill it |
| MultiplexerOrphans.OrphansStay | crates/dbgflow-reverse/src/ida/worker.rs:329-594 | In every run such a process stays out of reach: no kill takes it and it never becomes current again |
| MultiplexerRuns.ProcessCanBeForgotten | crates/dbgflow-reverse/src/ida/worker.rs:585-594 | A run from the start in which a call starts a process between two steps of a kill, the kill clears its state, and the next start drops it from the handle while it runs |
| SessionWorkerLoop.RunSessionWorker | crates/dbgflow-debug/src/session/worker.rs:725-769 | The worker loop writes exactly the frames, and makes exactly the backend calls, the requests call for |
| SessionWorkerLoop.WorkerRuntime.HandleRequest | crates/dbgflow-debug/src/session/worker.rs:828-912 | One request: result, exit flag, session and backend calls |
| SessionWorkerLoop.OneResponsePerLine | crates/dbgflow-debug/src/session/worker.rs:740-766 | One response per line that is not blank, in order, under its id, or 0 for an undecodable line, up to the line after which the worker exits |
| SessionWorkerLoop.BackendSeesOneSession | crates/dbgflow-debug/src/session/worker.rs:828-912 | The backend sees one create at most, executes only in the session it made, before its close, and nothing after |
| SessionWorkerWire.AwaitResponse | crates/dbgflow-debug/src/session/worker.rs:262-361 | The parent's reading loop: the result, the events applied before it, and how much was read |
| SessionWorkerWire.RequestsReturnTheirHandling | crates/dbgflow-debug/src/session/worker.rs:206-361 | In every run with decodable frames, requests return in order what the worker made of them with all their events applied; after the worker is lost every request says so, and once one has found the process gone none takes an id any more; the unexpected-id branch is never taken |
| SessionWorkerAnswers.EveryLineIsAnswered | crates/dbgflow-debug/src/session/worker.rs:740-912 | Over all lines, a request gets the right reaction by what the backend answered to the calls so far and its own: Executed for an execute the backend did, the backend's id for a create, Closed for a close, the backend's failure, or AlreadyExists or NotInitialized without a call; the worker ends exactly after those, a failed create or a close |
| SessionWorkerReplies.RequestsAreAnswered | crates/dbgflow-debug/src/session/worker.rs:206-361 | In every run each request returns the right reaction to what was asked, or says that the worker was lost |
| SessionWorkerLosses.UnkilledWorkersAnswer | crates/dbgflow-debug/src/session/worker.rs:206-361 | In every run in which nobody kills the worker, every request it takes returns its answer; only requests after the answer it ends with lose it |
| SessionWorkerLosses.LossesNameTheirReason | crates/dbgflow-debug/src/session/worker.rs:206-361 | In every run a request says that the process had exited already if and only if it took no id, and that its write failed if and only if it took one and was not written |
| SessionWorkerWire.ReadsUpToItsAnswer | crates/dbgflow-debug/src/session/worker.rs:260-361 | A request reads up to the first line that is garbage or a response, applies the events of all lines before it and returns what that line says; without one it says that the worker exited |
| SessionWorkerWire.BackendSeesOneSessionOnTheWire | crates/dbgflow-debug/src/session/worker.rs:828-912 | The same about the backend for parent and worker joined by their pipes |
| SessionWorkerWire.InvKept | crates/dbgflow-debug/src/session/worker.rs:206-361 | Every step of parent, worker and pipes keeps requests and answers in step |
| CommandLinePrinter.QuoteForLauncher | crates/dbgflow-common/src/process.rs:1267-1297 | The loop prints the specified text; empty and quiet arguments are printed as they are |
| CommandLinePrinter.QuoteForService | crates/dbgflow-mcp/src/service.rs:707-739 | The same for the other printer and its own triggers |
| CommandLinePrinter.LauncherCommandLine | crates/dbgflow-common/src/process.rs:1257-1265 | Executable and arguments, printed one by one and joined |
| CommandLinePrinter.ServiceCommandLine | crates/dbgflow-mcp/src/service.rs:700-705 | Arguments, printed one by one and joined |
| CommandLineParser.SplitCommandLine | crates/dbgflow-mcp/src/runtime.rs:1007-1067 | The loop over backslash runs computes what a reference parser reading single characters computes |
| CommandLineRoundTrip.ReadEscaped | crates/dbgflow-common/src/process.rs:1278-1296 | Inside quotes, escaped text is read back as the text itself and closes the quotes |
| CommandLineRoundTrip.LauncherRoundTrip | crates/dbgflow-common/src/process.rs:1257-1297 | For every list of arguments, splitting the launcher's command line gives back exactly the arguments |
| CommandLineRoundTrip.ServiceRoundTrip | crates/dbgflow-mcp/src/service.rs:700-739 | For the service printer this holds if and only if each argument has no whitespace or one of the printer's triggers |
| CommandLineRoundTrip.ServiceLineIsReadAs | crates/dbgflow-mcp/src/service.rs:700-739 | In general such an argument is read as its words, and nothing else changes |
| InstalledServiceCommand.ParseInstalledServiceCommand | crates/dbgflow-mcp/src/runtime.rs:500-538 | The option loop takes the last configuration path named, and reports each malformed command line |
| InstalledServiceCommand.LastPathNamedWins | crates/dbgflow-mcp/src/runtime.rs:500-538 | The executable is the first argument and the configuration path the one the last option naming a path names, where the argument after a `--config` is no option; each error has its exact condition, in this order |
| InstalledServiceCommand.ServiceCommandRoundTrip | crates/dbgflow-mcp/src/runtime.rs:500-538 | The parser recovers executable and configuration path from the service's command line if and only if both are safe to write |
| InstalledServiceCommand.ConfigIsAnArgument | crates/dbgflow-mcp/src/runtime.rs:515-530 | A recovered configuration path is an argument or what follows `--config=` in one |
| LogFileNames.CivilInvertsDayNumber | crates/dbgflow-mcp/src/logging.rs:86-98 | For every day number the conversion yields the valid Gregorian date with that number |
| LogFileNames.DayNumberInvertsCivil | crates/dbgflow-mcp/src/logging.rs:86-98 | And for every valid date it gives the date back from its number |
| LogFileNames.CivilStepsToNextDay | crates/dbgflow-mcp/src/logging.rs:86-98 | The next day number yields the next date |
| LogFileNames.CivilIsMonotone | crates/dbgflow-mcp/src/logging.rs:86-98 | Day numbers and dates are ordered alike |
| LogFileNames.CastsKeepTheDate | crates/dbgflow-mcp/src/logging.rs:97 | The casts to 32 bits lose nothing if and only if the year fits |
| LogFileNames.ConversionFitsI64 | crates/dbgflow-mcp/src/logging.rs:87-96 | No intermediate value leaves the 64-bit range |
| LogFileNames.TimestampYearFits | crates/dbgflow-mcp/src/logging.rs:80-84 | For every 64-bit timestamp the year is between 1970 and the 32-bit limit |
| LogFileNames.SameFileSameDay | crates/dbgflow-mcp/src/logging.rs:80-84 | Two timestamps share a log file name if and only if they share a UTC day |
| LogFileNames.NameSpellsTheDay | crates/dbgflow-mcp/src/logging.rs:80-84 | A log file name is the prefix, a date as year, month and day, and the suffix, and that date is the UTC day of the timestamp |
| Gregorian.EarlierIsSmaller | crates/dbgflow-mcp/src/logging.rs:86-98 | The reference day count orders dates as the calendar does |
| Gregorian.NextDayIsNext | crates/dbgflow-mcp/src/logging.rs:86-98 | And counts one day after the other |
| EnvironmentBlock.ApplyEnvChanges | crates/dbgflow-common/src/process.rs:1026-1042 | The loop applies all changes in order |
| EnvironmentBlock.LastChangeDecides | crates/dbgflow-common/src/process.rs:1026-1042 | After any changes each variable is as the last change naming it in any case says, or as before |
| EnvironmentBlock.BuildEnvironmentBlock | crates/dbgflow-common/src/process.rs:1044-1052 | The loop writes the entries, each ended by NUL, and a final NUL |
| EnvironmentBlock.ParseEnvironmentBlock | crates/dbgflow-common/src/process.rs:1007-1024 | The loop reads exactly the entries up to the empty one and never past the end of the block |
| EnvironmentBlock.BlockRoundTrip | crates/dbgflow-common/src/process.rs:1007-1052 | Parsing a built block gives the same map if and only if every entry has an `=`, no NUL, and the folded text before its first `=` as key |
| EnvironmentBlock.ParsedIsWritable | crates/dbgflow-common/src/process.rs:1007-1024 | Whatever is parsed can be written |
| ProxySettings.ProxyApplied | crates/dbgflow-debug/src/session/worker.rs:472-484 | Removals and values of a proxy whose spellings agree, applied to any case-folded environment, leave exactly the configured values, none, or everything as before, by source; other variables are untouched |
| ProxyDerivation.ObtainableProxyApplied | crates/dbgflow-common/src/proxy.rs:49-118 | The same for every proxy the program can have: read from any environment, made from any URL, or disabled |
| ProxySettings.VariableAfter | crates/dbgflow-common/src/proxy.rs:102-118 | The same, variable by variable |
| ProxyDerivation.ReadEnvironment | crates/dbgflow-common/src/proxy.rs:76-92 | Reading an environment: the first rejected value is reported, else every variable has its setting |
| ProxyDerivation.InsertEnvPair | crates/dbgflow-common/src/proxy.rs:150-168 | Upper-case spelling first; a value is checked and set under both spellings |
| ProxyDerivation.DeriveSymbolProxy | crates/dbgflow-common/src/proxy.rs:170-184 | The first network proxy that is nothing but scheme, host and port gives the symbol proxy |
| ProxyDerivation.DerivationIsStable | crates/dbgflow-common/src/proxy.rs:76-92 | Reading its own variables back gives the same proxy |
| ProxyDerivation.SettingsAreConsistent | crates/dbgflow-common/src/proxy.rs:76-92 | Spellings of one variable agree |
| ProxyDerivation.SymbolProxyIsValid | crates/dbgflow-common/src/proxy.rs:201-240 | A symbol proxy is the URL without its scheme, and a valid value |
| ProxyDerivation.SymbolProxyIsTheAuthority | crates/dbgflow-common/src/proxy.rs:201-275 | A URL has a symbol proxy if and only if it is HTTP or HTTPS, without whitespace, and a bare host with a port, which is the symbol proxy |
| ProxyDerivation.EnvironmentIsReadInOrder | crates/dbgflow-common/src/proxy.rs:76-184 | The first invalid value in the order of reading is the error; else every variable has the value of its upper-case or else its lower-case spelling under both, and a symbol proxy that is not set comes from the first usable one of the HTTPS, HTTP and general proxies |
| ProxyDerivation.CliProxyIsStable | crates/dbgflow-common/src/proxy.rs:56-69 | The variables of a command-line URL, read as an environment, give the same variables |
| ProxyDerivation.CliProxyIsTheUrl | crates/dbgflow-common/src/proxy.rs:56-69 | A command-line URL is accepted if and only if it is a valid value with a symbol proxy, and then stands for exactly the symbol proxy and itself as HTTP and HTTPS proxy in either spelling |
| IdaBinding.FreeSessionsAgree | crates/dbgflow-reverse/src/ida/manager.rs:171-260 | In every run, when a session's operation lock is free the database map and the session name the same database or none |
| IdaBinding.UpstreamCallsAreBound | crates/dbgflow-reverse/src/ida/manager.rs:485-496 | In every run an upstream call with a database is made inside the session's lock, with the database bound to that session in both places |
| IdaReadiness.CallsFoundReady | crates/dbgflow-reverse/src/ida/manager.rs:480-496 | In every run a thread that calls a tool for a session found that session Ready since it took the session's operation lock, which it has held ever since |
| IdaAlone.OpeningBinds | crates/dbgflow-reverse/src/ida/manager.rs:169-238 | Left to itself, an opening whose database opens binds it in both places and leaves the session Ready and the lock free |
| IdaAlone.FailedOpeningIsError | crates/dbgflow-reverse/src/ida/manager.rs:239-261 | One whose database does not open leaves the session in Error and unbound |
| IdaAlone.RefreshFindsLostDatabase | crates/dbgflow-reverse/src/ida/manager.rs:617-680 | A refresh leaves a session with a listed database as it is and puts one whose database is gone in Error |
| IdaAlone.EndedSessionIsNotRefreshed | crates/dbgflow-reverse/src/ida/manager.rs:617-631 | One of a session that has ended or is bound to nothing changes nothing |
| IdaAlone.OpenSessionIsClosed | crates/dbgflow-reverse/src/ida/manager.rs:301-457 | Closing an open session without saving, or with a save that succeeds, leaves it Closed, unbound in both places, with the lock free |
| IdaAlone.FailedSaveKeepsSession | crates/dbgflow-reverse/src/ida/manager.rs:319-413 | A save that fails leaves the session as it was; one whose output is not written leaves it bound and Closing |
| IdaAlone.NothingToClose | crates/dbgflow-reverse/src/ida/manager.rs:310-314 | Closing a session that is Closed or bound to nothing changes nothing |
| IdaAlone.LostSessionIsClosed | crates/dbgflow-reverse/src/ida/manager.rs:301-457 | A session whose database is gone is closed all the same |
| IdaAlone.OpenSessionIsCalled | crates/dbgflow-reverse/src/ida/manager.rs:480-496 | A tool call for an open session goes upstream with its database and changes nothing here |
| IdaAlone.OtherSessionIsNotCalled | crates/dbgflow-reverse/src/ida/manager.rs:480-496 | One for a session that is not Ready, or whose database is gone, does not go upstream |
| IdaBinding.OnlyHolderRebinds | crates/dbgflow-reverse/src/ida/manager.rs:116-457 | Only the thread inside the lock changes a binding, and only to bind or unbind |
| IdaBinding.FailedSaveKeepsBinding | crates/dbgflow-reverse/src/ida/manager.rs:372-409 | A close whose save fails ends with the binding and the state the session had before |
| IdaBinding.UnwrittenOutputKeepsBinding | crates/dbgflow-reverse/src/ida/manager.rs:326-335 | A close whose save output cannot be written keeps the binding and leaves the state as it is, which is Closing, or Error if a refresh has lost the database meanwhile |
| IdaRuns.UnwrittenOutputCanLeaveClosing | crates/dbgflow-reverse/src/ida/manager.rs:326-335 | A run from the start after which nothing is going on and the session is still Closing and bound |
| IdaBinding.SuccessfulCloseUnbinds | crates/dbgflow-reverse/src/ida/manager.rs:411-436 | A successful close removes the binding in both places |
| IdaBinding.OnlyRefreshLeavesClosed | crates/dbgflow-reverse/src/ida/manager.rs:617-680 | A session leaves Closed exactly when a health refresh begun earlier marks it Error |
| IdaRuns.ClosedCanBecomeError | crates/dbgflow-reverse/src/ida/manager.rs:617-680 | A run from the start in which a Closed session becomes Error: the refresh read the database before the close, and the upstream list after it |
| IdaTargets.ApartStep | crates/dbgflow-reverse/src/ida/manager.rs:140-165 | In every reachable state with targets apart, a step keeps reusable sessions, and what a creator has found, apart if and only if it does not restore after a failed save a session whose target has been taken meanwhile |
| IdaTargets.AtMostOneReusable | crates/dbgflow-reverse/src/ida/manager.rs:140-165 | In every run without such a step no two reusable sessions share a target |
| IdaTargets.TargetInvKept | crates/dbgflow-reverse/src/ida/manager.rs:137-165 | Every step keeps the create lock with its creator, and a session Starting until its opener has bound it |
| IdaTargets.CreateLockIsReleased | crates/dbgflow-reverse/src/ida/manager.rs:116-150 | In every run the threads that look for a reusable session or insert one hold the create lock, one at a time, and no thread that has returned holds it |
| IdaRuns.TargetsCanClash | crates/dbgflow-reverse/src/ida/manager.rs:372-409 | A run from the start that ends with two reusable sessions for one target: it is opened again while the first session is being saved, and the save fails |
| IdaBinding.InvKept | crates/dbgflow-reverse/src/ida/manager.rs:116-680 | Every step of create, close, tool calls and refreshes keeps locks, bindings and openings in order |
| InstallPaths.NormalizeLexically | crates/dbgflow-mcp/src/runtime.rs:913-927 | The loop resolves components one by one |
| InstallPaths.NormalizedIsStable | crates/dbgflow-mcp/src/runtime.rs:913-927 | The result has no `.` or `..`, and normalising it again changes nothing |
| InstallPaths.DotsMeanNothing | crates/dbgflow-mcp/src/runtime.rs:913-927 | `.` and a name followed by `..` can be left out anywhere without changing the result |
| InstallPaths.EscapesIffDepthNegative | crates/dbgflow-mcp/src/runtime.rs:913-927 | An absolute path is refused if and only if some prefix of it has more `..` than names below the root; otherwise root and depth are kept |
| PathContainment.ContainmentIsComponentwise | crates/dbgflow-mcp/src/runtime.rs:989-1000 | On normal paths below a base that is no root, the test on folded texts holds if and only if the base's folded components come first in the path |
| PathContainment.TextTestIsPieceTest | crates/dbgflow-mcp/src/runtime.rs:989-1000 | For texts joined from names, prefix with a separator behind it is prefix of the names |
| PathContainment.BeneathMeansNames | crates/dbgflow-mcp/src/runtime.rs:989-1000 | Being beneath means the same drive or share and the same names, one by one |
| PathContainment.ValidateInstallRootRemoval | crates/dbgflow-mcp/src/runtime.rs:540-572 | Removal is accepted, with the normalised root, if and only if that root lies below a filesystem root, is named `dbgflow` up to ASCII case, is not reserved, and configuration, data directory and executable lie beneath it; each refusal names the first of these that is missed |
| PathContainment.RequiredPathsAreAbsolute | crates/dbgflow-mcp/src/runtime.rs:901-927 | A required path is refused as empty, as relative, or as escaping its root in exactly these cases; otherwise its normal form is absolute, without dots, on the same drive or share |
| PathContainment.DedicatedNameIgnoresCase | crates/dbgflow-mcp/src/runtime.rs:938-946 | The name test accepts exactly the names that read DBGFLOW in upper case |

## Left out

- ETW session control, property decoding and string heuristics: the model starts from decoded records.
- Warning and sample texts of the trace processor, and its JSON files; event kinds are an enumeration.
- Text of stack frames: a frame is a module name with an offset, or an address. Only the hexadecimal name of an unnamed module is text.
- The three optional completion fields of a file row are one optional completion, since they are set together.
- Overflow of 64-bit counters, sequence numbers and request ids; addresses and module ends are bounded and saturate as in the program.
- The order in which dropped stacks are counted: the model fixes which stacks are parked and attached, and the dropped ones are the others.
- EtwProcessing.EtwProcessor.DropOldestParked: says which timestamp leaves, and of the dropped stacks only that they are accounted for.
- Session validation, listing, artifacts, transcripts and log lines of the debug session manager; of the command log only the order and the status of records.
- Lock poisoning, serialization failures, and failures to write artifacts, except the one that ends an IDA close early.
- Liveness: nothing is proved about a thread ever taking its next step, because the program gives no fairness guarantee.
- The worker registry's drop, and the text of kill reasons.
- The answer of a probe of the supervisor: the model has what a probe does to the handles.
- Calls to the supervisor without a timeout: every request of the program has one.
- Undecodable lines on the worker's own output in runs; the reading loop itself handles them.
- A failing write to the worker's output, which ends the worker loop early.
- Processes, tokens, handles, consoles, service control, HTTP, MCP envelopes and tool schemas.
- Unpaired UTF-16 surrogates: environment entries and command lines are sequences of characters.
- Case folding beyond single characters (a final sigma folds by its position), and the comparison of drive letters in any case that path components make before text is compared.
- Verbatim and device path prefixes: a prefix is a drive or a network share.
- PathContainment.ValidateInstallRootRemoval: the comparisons with the profile and system directories are one predicate that is a parameter.
- Existence of files, canonical paths and the environment lookups around them.
- TTD argument building, collector bracketing and the single active job, which would only add easy members.
