# A model of the Moonlight Web state machines

This project models the parts of the repository whose behaviour spans several calls, threads or
failures, and proves what they promise.

* **Foundation supervisor and restart budget** (`RestartBudget.dfy`, `Supervisor.dfy`,
  `SupervisorRuns.dfy`, `RestartRuns.dfy`, `SupervisorReports.dfy`). The budget and the supervisor are classes; the supervisor has
  one method per lock section. Runs interleave the sections of any number of calls, with spawns and
  events in flight.
* **Input broker** (`BrokerRouter.dfy`, `BrokerPipe.dfy`, `BrokerChords.dfy`, `BrokerWorker.dfy`,
  `BrokerOwnership.dfy`).
  The router against the set of keys the host believes down, the framing of the byte stream, the
  worker from `ARM` to its end, and the hand-over of the keyboard between threads.
* **Identity migration** (`IdentityTree.dfy`, `IdentityMigration.dfy`, `IdentityStore.dfy`,
  `IdentityRecovery.dfy`). A disk on which copies and removals can stop anywhere, renames are atomic,
  and every operation can fail or be the last of the process, recoveries included.
* **Decoder recovery** (`FrameQueue.dfy`, `DecodePump.dfy`, `DecodePumpRuns.dfy`). The event queue, the
  latch, the backlog drain, and whole runs of the pump against a receive thread that pushes at any
  moment.
* **Human JSON** (`HumanJson.dfy`, `HumanJsonPieces.dfy`, `JsonPreprocessor.dfy`). A character-wise
  specification, the pieces a reader sees in any text, and the streaming machine that meets both.
* **Lossless tiles** (`Folds.dfy`, `Crc32.dfy`, `QuComposition.dfy`). CRC-32 in the reflected form of
  section 8 of RFC 1952, what it detects and what it does not, and the byte-bounded cache.
* **Outputs, audio and pacing** (`OutputId.dfy`, `OutputRegistry.dfy`, `Audio.dfy`, `FramePacer.dfy`).

Classes stand for the source's mutable objects. Each method is tied to a function of its inputs and
the old state, and the theorems are about those functions, over every input, history or interleaving.

Where the code does not keep what its documentation says, the model follows the code, gives the run
that shows it and proves the exact condition:

* `stop` is documented to leave nothing behind. It does so exactly when no `start` or `poll` is
  part-way through (`StopIsFinalExactly`); the host role arranges that by joining its monitor.
* The migration is documented never to lose an install. An error while the snapshot is being taken
  makes `migrate` install a backup that is old, incomplete or missing (`EarlyErrorsUndoneExactly`);
  and an identity that is a file, or a config that is a directory, is not saved
  (`SnapshotRoundTrip`).
* The journal is documented to protect the next start if the rollback itself fails
  (`app-native/src/identity.rs:261-263`). When it is the first journal that could not be written there
  is none, and the install is gone for every later start (`UnwrittenJournalLosesInstall`). So the
  promise holds against all errors and deaths exactly on the disks that have nothing to lose
  (`SoundExactly`, `SnapshottedSoundExactly`).
* The worker takes every `Interrupted` for the user's local chord, also one that a read of the pipe
  reports while it waits for `DISARM` to be acknowledged. So its safety is a condition on what the
  reads of the transport may report: that kind of error not among them (`SafeExactlyWithoutInterrupted`).
* An uninstall that overlaps an install on another thread can lose the driver
  (`OneProducerExactlyWhenSerial`).
* The state of a tracked child is `Healthy` or `Degraded`, but for a `poll` whose second section comes after
  a new `start`: it reports the live child as `Restarting` until the next `poll` (`ScheduleOverwrites`).
* The rolling window is as long as the clock readings are ordered: with readings that go back by
  `skew` it is `window - skew` (`SafeLengthIsExact`).
* The restart budget bounds the grants and not the spawns, and a window can hold one spawn more
  (`SpawnsPerWindowExactly`). The spawns keep to it over a length exactly if that is no longer than
  `window - skew - late - 6300 ms`, where no due restart is polled more than `late` after its deadline
  (`SpawnsKeepBudgetExactly`). For 3 in 60 s (`app-native/src/supervisor.rs:217`) and polls at most
  800 ms late (`app-native/src/host.rs:500-518`) that is 52.9 s.
* Distinct monitors are documented to get distinct ids (`app-native/src/output_registry.rs:17-19`). Of
  EDIDs of equal length that differ only within `n` consecutive bytes that holds exactly for `n` up to
  six; with seven, 32 11 cc 00 01 b2 b3 and 25 00 f9 2e a0 0e 09 share their id (`TellsApartExactly`).
* The preprocessor is idempotent except after a doubled trailing comma (`IdempotentExactly`).

## Model

| member | source | states |
|---|---|---|
| `RestartBudgets.RestartBudget.Prune` | app-native/src/supervisor.rs:93-101 | the deque loses exactly the attempts that have left the window, oldest first |
| `RestartBudgets.RestartBudget.CountInWindow` | app-native/src/supervisor.rs:103-106 | the count is the number of attempts the prune leaves |
| `RestartBudgets.RestartBudget.RecordAndCheck` | app-native/src/supervisor.rs:111-122 | a grant records the attempt and returns its rung of the ladder; a refusal records nothing |
| `RestartBudgets.RestartBudget.NoteStable` | app-native/src/supervisor.rs:126-128 | a stable run starts the ladder again and forgets no attempt |
| `RestartBudgets.WindowHoldsAtMostMax` | app-native/src/supervisor.rs:93-122 | for every call history whose clock readings go back by at most `skew`, no interval of length `window - skew` holds more than `max_restarts` grants |
| `RestartBudgets.SafeLengthIsExact` | app-native/src/supervisor.rs:93-122 | that length is the best: the promise holds over all such histories for a length if and only if it is at most `window - skew` |
| `RestartBudgets.GrantedExactlyUnderBudget` | app-native/src/supervisor.rs:111-122 | on a monotonic clock the deque is the in-window suffix of the whole history, and a restart is granted if and only if fewer than `max_restarts` grants lie in the window |
| `RestartBudgets.LadderDoublesToCap` | app-native/src/supervisor.rs:111-128 | the delays granted since the last stable run are 100, 200, 400, 800, 1600, 3200 and then always 6400 ms, in every history |
| `RestartBudgets.LadderIsMonotoneAndBounded` | app-native/src/supervisor.rs:111-128 | granted delays stay within 100 to 6400 ms and never decrease between stable runs |
| `Supervisor.FoundationSupervisor.StartSection` | app-native/src/supervisor.rs:269-285 | the first section of `start`: a spawn is due only when no child is tracked and none is being spawned |
| `Supervisor.FoundationSupervisor.CommitSection` | app-native/src/supervisor.rs:287-336 | the section that commits a spawn result: install the child, or schedule the next attempt, or fail |
| `Supervisor.FoundationSupervisor.NoteEmbeddedServerAlive` | app-native/src/supervisor.rs:340-351 | `Healthy` and `Degraded` follow the server flag only while a child is tracked |
| `Supervisor.FoundationSupervisor.PollSection` | app-native/src/supervisor.rs:369-419 | the first section of `poll_at`: a dead child is cleared and reported, a live one may turn stable, and a due restart goes to spawn |
| `Supervisor.FoundationSupervisor.Schedule` | app-native/src/supervisor.rs:391-405 | the second section of `poll_at`: ask the budget, then `Restarting` with a deadline or `Failed` |
| `Supervisor.FoundationSupervisor.StopSection` | app-native/src/supervisor.rs:433-453 | the first section of `stop` takes the child out of the slot |
| `Supervisor.FoundationSupervisor.MarkStopped` | app-native/src/supervisor.rs:455-459 | the last section of `stop` |
| `Supervisor.FoundationSupervisor.Snapshot` | app-native/src/supervisor.rs:461-470 | a snapshot reports the fields and prunes the budget, and changes nothing else |
| `SupervisorRuns.AtMostOneFoundation` | app-native/src/supervisor.rs:269-336 | over every interleaving of lock sections at most one Foundation is tracked or being created, `spawning` holds exactly while a spawn is in flight, and a commit finds the slot empty |
| `SupervisorRuns.EachChildHasOneLife` | app-native/src/supervisor.rs:294-306 | counting events about to be emitted, every installed child has one `Spawned` and at most one `Terminal`, their difference is the occupancy of the slot, and every refusal has one exhausted event |
| `SupervisorRuns.HealthyIsTruthful` | app-native/src/supervisor.rs:384-406 | with a child tracked, `Healthy` and `Degraded` say exactly whether the server is live; without one neither is claimed, except while some `poll` or `stop` stands between its two sections |
| `SupervisorRuns.RespawnWaitsForDeadline` | app-native/src/supervisor.rs:408-419 | a `poll` that goes to spawn does so from `Restarting`, at or after the deadline of the last grant |
| `SupervisorReports.SpawnIsReported` | app-native/src/supervisor.rs:287-306 | a spawn that succeeds leaves its child tracked and the state `Healthy` if the server is live, `Degraded` otherwise, with no error and no stable mark |
| `SupervisorReports.FailedSpawnIsReported` | app-native/src/supervisor.rs:307-336 | one that fails leaves its text as the last error, and `Failed` unless a restart was under way, which asks the budget again |
| `SupervisorReports.PollIsReported` | app-native/src/supervisor.rs:369-419 | a `poll` that finds its child running reports it up as the server is; a dead child is cleared with its exit as the last error; a due deadline, and only that, goes to spawn |
| `SupervisorReports.TrackedMeansUp` | app-native/src/supervisor.rs:294-406 | over every run: from a successful spawn, or a `poll` that finds its child running, on, a tracked child has the state `Healthy` or `Degraded` as the server is, until a section writes the state without a look at the slot |
| `SupervisorReports.ScheduleOverwrites` | app-native/src/supervisor.rs:391-419 | the run that shows such a write: a `start` between the two sections of a `poll` has its live child reported as `Restarting` |
| `SupervisorReports.LastErrorIsLatest` | app-native/src/supervisor.rs:287-405 | over every run the last error is that of the last failed spawn or dead child since a spawn succeeded |
| `SupervisorReports.StableExactly` | app-native/src/supervisor.rs:374-383 | the ladder starts again exactly at the first `poll` that finds a child running 30 s or more after its spawn |
| `RestartRuns.RestartsAreBudgeted` | app-native/src/supervisor.rs:393-419 | over every interleaving the spawns made by `poll` never outnumber the grants; with clock readings that go back by at most `skew` any `window - skew` holds at most `max_restarts` grants, and any `window - 2 skew` at most one spawn more |
| `RestartRuns.SpawnsPerWindowExactly` | app-native/src/supervisor.rs:393-419 | on a clock that does not go back no window holds more than `n` spawns, in any run, if and only if `n` is at least `max_restarts + 1`, for every budget whose ladder fits into the window |
| `RestartRuns.PromptSpawnsKeepBudget` | app-native/src/supervisor.rs:393-419 | if every spawn comes at most `lag` after the grant it uses, no interval of length `window - skew - lag + 100 ms` holds more than `max_restarts` spawns |
| `RestartRuns.SpawnsKeepBudgetExactly` | app-native/src/supervisor.rs:393-419 | if every due restart is polled at most `late` after its deadline, the intervals of a length hold at most `max_restarts` spawns in all such runs if and only if the length is at most `window - skew - late - 6300 ms`, for a window with room for the slow end of the ladder and a stable run |
| `SupervisorRuns.StopIsFinalExactly` | app-native/src/supervisor.rs:429-458 | nothing but a new `start` can bring the supervisor back if and only if it is stopped with an empty slot and no `start` or `poll` is part-way through |
| `SupervisorRuns.StopRacingStart` | app-native/src/supervisor.rs:429-458 | the run that shows the condition is needed: a `stop` returning during a spawn leaves a child behind |
| `SupervisorRuns.StopAfterJoinIsFinal` | app-native/src/host.rs:540-547 | with no call in flight, as after joining the monitor, `stop` is final and no process is left |
| `BrokerRouting.BrokerRouter.RouteKey` | app-native/src/input.rs:836-885 | one key edge: the packets emitted, the chord decisions and the whole new router state |
| `BrokerRouting.BrokerRouter.FlushPending` | app-native/src/input.rs:836-871 | the pending modifiers go out in press order and become remembered keys |
| `BrokerRouting.BrokerRouter.ReleaseSent` | app-native/src/input.rs:887-897 | every remembered key is lifted, last pressed first |
| `BrokerRouting.RouteKeepsInStep` | app-native/src/input.rs:836-885 | after any edge the remembered keys are distinct, disjoint from the pending ones and exactly the keys the host believes down; no key that is up is lifted |
| `BrokerRouting.ReleaseEmptiesHost` | app-native/src/input.rs:887-897 | after `release_sent` the host holds no key and nothing is pending |
| `BrokerRouting.HistoryStaysInStep` | app-native/src/input.rs:748-897 | the same over every sequence of `route` and `release_sent` calls, by folding all packets emitted |
| `BrokerRouting.ModifiersWait` | app-native/src/input.rs:836-850 | pressing distinct modifiers emits nothing and queues them in press order |
| `BrokerRouting.ChordIsSentWhole` | app-native/src/input.rs:836-871 | the key that completes a chord emits the modifiers in press order and then itself, all of them down |
| `BrokerRouting.LocalChordIsSilent` | app-native/src/input.rs:828-853 | a local chord emits nothing, not even when its keys are lifted in any order |
| `BrokerChords.ChordsDecideExactly` | app-native/src/input.rs:828-853 | over every history of edges and releases: an edge answers "exit" if and only if it presses Q (0x51), and "disconnect" if and only if it presses the backtick key (0xC0), with a Ctrl and an Alt held; held is told from the last edges of the keys |
| `BrokerChords.PressPassesExactly` | app-native/src/input.rs:836-871 | over every history a press of an ordinary key is sent unless it completes a local chord: Ctrl+Alt with Delete, Q or backtick, or Alt+F4 |
| `BrokerChords.EdgeComesLast` | app-native/src/input.rs:836-885 | whatever an edge sends ends with that edge, under exactly the modifiers held after it |
| `BrokerChords.LiftReachesHost` | app-native/src/input.rs:873-885 | after a key is lifted the host does not hold it and holds everything else it did |
| `BrokerChords.TapIsSent` | app-native/src/input.rs:836-885 | a modifier tapped alone reaches the host as its press and its lift |
| `BrokerChords.ChordCarriesItsModifiers` | app-native/src/input.rs:836-871 | each press of a chord carries the modifiers pressed up to it |
| `BrokerChords.ReleaseLiftsInTurn` | app-native/src/input.rs:887-897 | after any history `release_sent` lifts exactly the keys that the host holds, the last pressed first, each under the modifiers held once it is lifted |
| `BrokerPipe.ParseInvertsEncode` | app-native/src/input.rs:966-972 | a framed message followed by anything parses to that message and the rest |
| `BrokerPipe.EncodeInvertsParse` | app-native/src/input.rs:1101-1122 | a parsed message framed again, with the rest, is the buffer |
| `BrokerPipe.RefusedExactly` | app-native/src/input.rs:1101-1122 | a buffer is refused if and only if no message of at most 64 KiB begins with its first twelve bytes, and more is waited for if and only if it may still become one |
| `BrokerPipe.DrainFrames` | app-native/src/input.rs:1101-1147 | the inner loop over the buffer handles what one parse of it handles |
| `BrokerPipe.PullFrames` | app-native/src/input.rs:1078-1150 | the reading loop around it |
| `BrokerPipe.PullIsOneParse` | app-native/src/input.rs:1078-1150 | reading in pieces is parsing in one go: same messages, same first error, same leftover |
| `BrokerPipe.ChunkingIsInvisible` | app-native/src/input.rs:1078-1150 | any two splits of the same bytes give the same result, and the leftover is shorter than one header and the largest payload |
| `BrokerPipe.PullConserves` | app-native/src/input.rs:1078-1197 | handled messages, buffer and unread bytes make up exactly what was sent |
| `BrokerPipe.HandOverLosesNothing` | app-native/src/input.rs:1146-1224 | the hand-over of the buffer from the pump to the disarm loop loses no byte |
| `BrokerWorker.ForwardEvent` | app-native/src/input.rs:1295-1332 | one event of a batch: mapping, routing, sending |
| `BrokerWorker.ForwardBrokerEvents` | app-native/src/input.rs:1256-1334 | a whole message of events: its header is checked and its events go out in order until a batch is refused |
| `BrokerWorker.WorkerEndsSafely` | app-native/src/input.rs:1003-1012 | for every event stream, split into reads and pattern of refused batches, unless a read reports `Interrupted` during the disarm handshake: `Ok` or `Interrupted` leaves the host with no key the broker pressed, and every other end after `ARM` asks for a disconnect |
| `BrokerWorker.SafeExactlyWithoutInterrupted` | app-native/src/input.rs:1003-1241 | that holds if and only if the reads of the disarm handshake cannot report `Interrupted`, which the worker takes for the local chord |
| `BrokerWorker.PumpTakes` | app-native/src/input.rs:1122-1145 | the pump takes the statuses 0 and 1 and batches of events; anything else is invalid |
| `BrokerWorker.DisarmTakes` | app-native/src/input.rs:1182-1196 | only the status 0 acknowledges `DISARM`; events and the status 1 are passed over, anything else is invalid |
| `BrokerWorker.FirstErrorIsReported` | app-native/src/input.rs:1226-1241 | the worker reports the error of the handshake first, then that of refused lifts, then what stopped the pump |
| `BrokerWorker.SilenceTimesOut` | app-native/src/input.rs:1199-1204 | a driver that never answers makes the handshake time out, and the session is told to disconnect |
| `BrokerChords.EventDecides` | app-native/src/input.rs:1295-1332 | after any history an event, read from its bytes, ends the worker with `Interrupted` exactly for Ctrl+Alt+Q and with `ConnectionAborted` exactly for Ctrl+Alt+backtick |
| `BrokerChords.ChordEndsWorker` | app-native/src/input.rs:1003-1334 | the worker from `ARM` on: a batch of left Ctrl, left Alt and Q, with `DISARM` acknowledged and the keys lifted, ends `Interrupted` and asks to leave the capture; with the backtick it ends `ConnectionAborted` and asks for a disconnect |
| `BrokerOwnership.SerialMeansOneProducer` | app-native/src/input.rs:907-913 | in a serial state an inactive broker means no worker can send and no `ARM` is left unanswered |
| `BrokerOwnership.RunKeepsSerial` | app-native/src/input.rs:974-1050 | install, worker and uninstall keep that over every run with one call at a time |
| `BrokerOwnership.OverlapLosesTheDriver` | app-native/src/input.rs:1344-1364 | an uninstall overlapping an install on another thread can end inactive with `ARM` unanswered |
| `BrokerOwnership.OneProducerExactlyWhenSerial` | app-native/src/input.rs:899-1050 | over every run there is never a second keyboard producer if and only if installs and uninstalls are made one at a time |
| `BrokerOwnership.InstallArms` | app-native/src/input.rs:974-1031 | from any serial state with the broker inactive, an install whose worker gets through its handshake leaves the broker active with that worker as the owner |
| `BrokerOwnership.InstallGivesUp` | app-native/src/input.rs:1032-1038 | an install whose worker never reaches the driver leaves it inactive |
| `BrokerOwnership.UninstallReturns` | app-native/src/input.rs:1344-1364 | an uninstall leaves the broker inactive if `DISARM` is acknowledged, and stopping if it is not |
| `BrokerOwnership.InstallWhileLatched` | app-native/src/input.rs:974-980 | once a worker has ended without an acknowledged `DISARM`, an install changes nothing |
| `BrokerOwnership.UninstallWhileLatched` | app-native/src/input.rs:1344-1364 | nor does an uninstall: the broker stays stopping |
| `IdentityTree.CopyDirRecursive` | app-native/src/identity.rs:128-141 | the copy fails if and only if a file stands in the place of a directory or the reverse; otherwise the target becomes the source laid over it |
| `IdentityTree.VerifyDirMatches` | app-native/src/identity.rs:177-200 | succeeds if and only if every source file has a counterpart with an equal hash that parses if it must; the result is the number of source files |
| `IdentityTree.MatchIsVerbatim` | app-native/src/identity.rs:156-200 | for a hash that tells different files apart, the trees match if and only if every source file is staged byte for byte and every one named `.json` parses |
| `IdentityRecovery.VerifiedIsVerbatim` | app-native/src/identity.rs:308-317 | the verification of a migration passes if and only if what the sources offer is staged byte for byte and parses where it must, the config included |
| `IdentityStores.IdentityStore.Rollback` | app-native/src/identity.rs:207-229 | the statements of `rollback` in order, giving up at the first error, do what the plan of restoring operations says under every fault |
| `IdentityStores.IdentityStore.RecoverOnStart` | app-native/src/identity.rs:237-244 | a rollback if and only if the journal exists |
| `IdentityStores.IdentityStore.RunMigration` | app-native/src/identity.rs:272-343 | snapshot, journal, stage, verify, switch and clean-up in order under every fault, with the count of verified files |
| `IdentityMigration.PlansAre` | app-native/src/identity.rs:207-343 | the order of the operations, as carried out by `run_migration` and `rollback`: backup, journal, stage, verify, switch, clean-up; and clean, put back, end |
| `IdentityStores.IdentityStore.Migrate` | app-native/src/identity.rs:251-270 | recovery first, nothing to do without sources, and a rollback after an error |
| `IdentityRecovery.RollbackRestores` | app-native/src/identity.rs:207-229 | a rollback that completes restores the backup exactly and removes the journal; until then backup and journal stay |
| `IdentityRecovery.ReplaceIsGuarded` | app-native/src/identity.rs:291-333 | from line 291 on, whatever fails or dies: the journal stands over an intact backup, or the destination is untouched, or the sources are installed whole |
| `IdentityRecovery.MigrationIsSafe` | app-native/src/identity.rs:251-343 | after a death anywhere before a rollback without a journal, and after any error but one of the snapshot or of the first journal whose rollback does not complete, the prior state is in place or recoverable; a completed rollback has restored it; success has installed the sources and keeps the prior state as backup |
| `IdentityRecovery.CrashesNeverMix` | app-native/src/identity.rs:231-244 | after such a migration and any number of starts that fail or die, the first completed recovery finds exactly the prior state, or exactly the sources if the migration had come to its end, which is the removal of the journal |
| `IdentityRecovery.LateErrorsAreUndone` | app-native/src/identity.rs:258-268 | an error from line 291 on whose rollback completes leaves the prior state, also when the call began with a leftover journal |
| `IdentityRecovery.EarlyErrorsUndoneExactly` | app-native/src/identity.rs:274-290 | every error of the snapshot whose rollback completes is undone if and only if there is nothing installed and no old backup |
| `IdentityRecovery.UnwrittenJournalLosesInstall` | app-native/src/identity.rs:258-268 | whatever is installed, a failing first journal and a death in the rollback leave nothing installed, nothing a later start would recover, and a backup that the next migration deletes |
| `IdentityRecovery.SoundExactly` | app-native/src/identity.rs:251-343 | every error and every death keep the prior state in place or recoverable if and only if there is nothing installed and no old backup |
| `IdentityRecovery.SnapshottedSoundExactly` | app-native/src/identity.rs:291-343 | once the snapshot is done, every error and every death keep it if and only if nothing was installed |
| `IdentityRecovery.SnapshotRoundTrip` | app-native/src/identity.rs:280-290 | snapshot then restore is the identity if and only if the identity is a directory or absent and the config a file or absent |
| `IdentityRecovery.CleanMigration` | app-native/src/identity.rs:251-343 | without faults: whatever the sources offer, an identity, a config or both, is installed whole, its files are counted and the prior state is the backup, if all that must parse does; otherwise the prior state is in place and an error is reported; if they offer nothing, nothing changes |
| `FrameQueues.FrameQueue.PushFrame` | client-transport/src/frame_queue.rs:157-190 | an overflow clears the backlog and puts a reset with a new generation, its recovery already open, before the frame |
| `FrameQueues.FrameQueue.PushDiscontinuity` | client-transport/src/frame_queue.rs:205-223 | the reset and its recovery appear together; at capacity the backlog goes first |
| `FrameQueues.FrameQueue.TryEvent` | client-transport/src/frame_queue.rs:253-255 | the oldest queued event, removed, or nothing |
| `FrameQueues.FrameQueue.AcknowledgeRecovery` | client-transport/src/frame_queue.rs:304-312 | closes the recovery if and only if it is open for exactly this generation and epoch |
| `DecodePumpRuns.QueueIsBounded` | client-transport/src/frame_queue.rs:157-223 | in every run, whatever is pushed and however slowly it is popped, no more events are queued than the capacity; at capacity one a reset and a frame |
| `DecodePump.DecodeState.OnDiscontinuity` | app-native/src/main.rs:346-353 | flush, arm for the epoch and track the generation |
| `DecodePump.DecodeState.AdmitEpoch` | app-native/src/main.rs:362-373 | the first unit sets the epoch and re-keys an armed latch; later ones must match it |
| `DecodePump.DecodeState.OnUnit` | app-native/src/main.rs:448-546 | which units reach the decoder, and how an error re-arms the latch |
| `DecodePump.DecodeState.OnMeta` | app-native/src/main.rs:396-411 | the latch and the tracked recovery are released together, and only by a matching decoded key |
| `DecodePump.DecodeState.OnDecodeStall` | app-native/src/main.rs:603-609 | flush and re-arm for the current epoch |
| `DecodePump.DrainNewest` | app-native/src/main.rs:648-681 | each frame is reported exactly once and in order: dropped if a frame follows it, poisoned if a reset does, returned if it is last; nothing is decoded after a reset that it precedes |
| `DecodePumpRuns.RecoveryClosedByFreshKey` | app-native/src/main.rs:396-412 | in every run against a concurrent receive thread, a recovery (g, e) is closed only by a decoded key of epoch e: its unit and its picture follow reset g in the queue and went to the decoder after the flush of g and before that of any later reset |
| `DecodePumpRuns.OpenRecoveryIsTracked` | app-native/src/main.rs:346-412 | an open recovery is never forgotten: its reset is still queued, or the latch is armed for exactly it |
| `DecodePumpRuns.DecoderInputIsUnbroken` | app-native/src/main.rs:448-470 | units reach the decoder in order, only keys under the latch, none from before a popped reset; without the latch no reset, loss or unit of the epoch lies between a unit and the one before it |
| `DecodePumpRuns.JoinStartsAtKey` | app-native/src/main.rs:325-337 | in every run the first unit submitted to the decoder is a key |
| `DecodePumpRuns.BrokenStreamWaitsForKey` | app-native/src/main.rs:538-609 | in every run, whatever comes in between, the first unit submitted after a decode error, a stall or a lost device is a key |
| `DecodePumpRuns.FlushForgets` | app-native/src/main.rs:346-609 | in every run, after a reset, a stall or a lost device the decoder holds nothing that was submitted before it |
| `DecodePumpRuns.FlushArms` | app-native/src/main.rs:346-609 | each of these leaves the latch armed for the current epoch; only a reset changes the epoch and the tracked generation, and only a lost device the decoder |
| `DecodePumpRuns.SubmittedExactly` | app-native/src/main.rs:448-470 | a unit reaches the decoder if and only if there is one, the unit is of the current epoch or the first of all, and is a key where one is waited for |
| `DecodePumpRuns.KeyOpensLatchExactly` | app-native/src/main.rs:396-412 | a decoded key of the epoch waited for opens the latch and closes the recovery tracked for it if it is still open; no other picture changes anything |
| `DecodePumpRuns.ResetsCountUp` | client-transport/src/frame_queue.rs:157-223 | in every run the n-th reset pushed carries generation n |
| `DecodePumpRuns.PumpDrains` | app-native/src/main.rs:817-836 | the drain that the pump goes through event by event, decoding in between, with any pushes meanwhile, reports the steps of `drain_newest` on the events it has popped and returns its frame |
| `JsonPreprocessors.JsonPreprocessor.ValidateEmpty` | src/human_json.rs:113-179 | comments are blanked and spaces copied up to the next solid character |
| `JsonPreprocessors.JsonPreprocessor.ValidateNext` | src/human_json.rs:53-111 | one string, comma or other character is output as the character-wise specification says; progress is made or the text is used up |
| `JsonPreprocessors.JsonPreprocessor.Preprocess` | src/human_json.rs:46-50 | for every text the output is the character-wise specification of it; no underflow, no error, termination |
| `JsonPreprocessors.JsonPreprocessor.Peek` | src/human_json.rs:181-196 | the next characters without consuming them, if there are so many |
| `JsonPreprocessors.JsonPreprocessor.Next` | src/human_json.rs:197-218 | consumes them and outputs them or the replacement; the length never underflows |
| `HumanJson.LayoutIsKept` | src/human_json.rs:53-179 | same length, only spaces are put in, line ends stay, strings and all code but commas are verbatim |
| `HumanJson.UnchangedExactly` | src/human_json.rs:85-103 | a text is left as it is if and only if it has no comment and no trailing comma |
| `HumanJson.OutputHasNoComments` | src/human_json.rs:113-179 | the output has no comment left, and strings exactly where the text has them |
| `HumanJson.IdempotentExactly` | src/human_json.rs:85-103 | a second pass changes nothing if and only if no kept comma is followed by a blanked one and its bracket |
| `HumanJson.NotIdempotent` | src/human_json.rs:85-103 | the shortest such text, `,,}` |
| `HumanJsonPieces.PiecesAreCleaned` | src/human_json.rs:46-179 | for a text written in pieces - quoted strings with escapes, notes after `#` or `//`, remarks between `/*` and `*/`, other characters - notes and remarks are erased but for line ends, a comma is erased where only blanks and comments stand before its bracket or the end, and everything else is kept |
| `HumanJsonPieces.EveryTextIsCleaned` | src/human_json.rs:46-179 | every text is written in pieces, those that its end cuts off included, so that holds of every text |
| `Crc32.Crc` | app-native/src/qu_composition.rs:22-32 | the nested loops compute the checksum defined by folding the bytes |
| `Crc32.CheckValue` | app-native/src/qu_composition.rs:19-21 | the standard check value: the digits 1 to 9 give 0xCBF43926 |
| `Crc32.BytesAreBits` | app-native/src/qu_composition.rs:22-32 | the byte-wise register is the division of the bits, lowest first |
| `Crc32.BurstsAreDetected` | app-native/src/qu_composition.rs:22-32 | texts of equal length that differ only within 32 consecutive bits have different checksums |
| `Crc32.FourBytesAreDetected` | app-native/src/qu_composition.rs:22-32 | the same for differences within four consecutive bytes |
| `Crc32.PolynomialEscapes` | app-native/src/qu_composition.rs:22-32 | one bit more is too many: the 33-bit pattern of the polynomial, added from any byte on in any text, leaves the checksum |
| `QuCompositions.QuComposition.ApplyTile` | app-native/src/qu_composition.rs:117-148 | the checks in order; an accepted tile replaces the one at its place, and the count stays the sum of the stored sizes within the budget |
| `QuCompositions.QuComposition.ApplyInvalidate` | app-native/src/qu_composition.rs:152-162 | exactly the named tiles go, and only for the current epoch |
| `QuCompositions.QuComposition.SetEpoch` | app-native/src/qu_composition.rs:165-169 | a new epoch starts empty |
| `QuCompositions.VerdictTells` | app-native/src/qu_composition.rs:117-148 | each answer to a tile, exactly: stale, outside the grid, corrupt, over the budget with what it replaces given back, or applied, each only once the checks before it have passed |
| `QuCompositions.TotalCounts` | app-native/src/qu_composition.rs:134-139 | the sum of sizes does not depend on the order of the map |
| `QuCompositions.CorruptedTileIsRefused` | app-native/src/qu_composition.rs:131-133 | a tile corrupted within 32 consecutive bits is refused in every state of the cache |
| `OutputIds.EdidOutputId` | app-native/src/output_registry.rs:20-27 | the loop computes the 64-bit FNV-1a hash |
| `OutputIds.SixBytesTellApart` | app-native/src/output_registry.rs:20-27 | EDIDs of equal length that differ only within six consecutive bytes have different ids |
| `OutputIds.SevenBytesCollide` | app-native/src/output_registry.rs:20-27 | two EDIDs of seven bytes that share their id |
| `OutputIds.TellsApartExactly` | app-native/src/output_registry.rs:17-27 | all EDIDs of equal length that differ only within `n` consecutive bytes get different ids if and only if `n` is at most six |
| `OutputRegistries.OutputRegistry.Enumerate` | app-native/src/output_registry.rs:68-93 | for every id, what is known afterwards is the last sample of it merged into what was known before; ids keep their places and are never removed; streaming implies connected |
| `OutputRegistries.OutputRegistry.TryStream` | app-native/src/output_registry.rs:112-124 | starts if and only if the output is connected, not streaming and the cap is not reached; nothing else changes |
| `OutputRegistries.OutputRegistry.StopStream` | app-native/src/output_registry.rs:127-135 | stops if and only if it was streaming; nothing else changes |
| `OutputRegistries.UnlistedIsLost` | app-native/src/output_registry.rs:68-93 | a known output that an enumeration does not list is disconnected and stops streaming; its place, index and DPI are remembered |
| `OutputRegistries.ListedIsRefreshed` | app-native/src/output_registry.rs:68-93 | one that is listed is connected with the index and DPI of the last sample of it, and streams if it did before |
| `OutputRegistries.NewIsIdle` | app-native/src/output_registry.rs:68-93 | what an enumeration adds are the listed outputs not known before, connected and not streaming |
| `OutputRegistries.OrderDoesNotMatter` | app-native/src/output_registry.rs:64-93 | listing distinct monitors in another order makes no difference to any of them |
| `OutputRegistries.ReplugRestores` | app-native/src/output_registry.rs:64-93 | over any history of enumerations: an output left out of one or more of them and then listed again has its id and its place, what the last list says of it, and no stream |
| `OutputRegistries.PointReturns` | app-native/src/output_registry.rs:137-147 | a coordinate mapped to an equal or higher DPI and back returns exactly if it scales without remainder, and otherwise one step nearer to the origin |
| `OutputRegistries.TransformReturns` | app-native/src/output_registry.rs:137-147 | a point comes back within one step on each axis |
| `OutputRegistries.PointScales` | app-native/src/output_registry.rs:137-147 | each coordinate goes to itself times the DPI of the target over that of the source, rounded toward the origin, modulo 2^32 |
| `Audio.DeviceFifo.ConvertInto` | app-native/src/audio.rs:551-590 | appends exactly the converted frames: as many as there are source frames, or the floor of their number times the rate ratio; every interpolation reads inside the source |
| `Audio.DeviceFifo.MapChannels` | app-native/src/audio.rs:601-644 | appends exactly one device frame |
| `Audio.DeviceFifo.Trim` | app-native/src/audio.rs:823-836 | the FIFO keeps exactly its newest frames up to the cap, never part of one |
| `Audio.DeviceFifo.FillShared` | app-native/src/audio.rs:334-350 | the oldest whole frames move to the buffer, as many as fit |
| `Audio.DeviceFifo.FillExclusive` | app-native/src/audio.rs:513-528 | the oldest frames and then whole frames of silence |
| `Audio.DeviceFifo.Decoded` | app-native/src/audio.rs:823-836 | one packet: convert, then keep the newest frames; so the FIFO is whole frames after any sequence of packets and fills, and channels never swap |
| `Audio.SidesKeptExactly` | app-native/src/audio.rs:551-644 | through resampling and the channel map, left and right of every packet are left and right of what enters the FIFO if and only if the map tears no pair of channels apart, as it does from three or more channels to mono, and between five and six or more |
| `Audio.InterpolationIsFaithful` | app-native/src/audio.rs:578-588 | an output position on a source frame is that frame, and a steady signal stays as it is |
| `Audio.PositionInside` | app-native/src/audio.rs:574-584 | the interpolation index is below the number of source frames |
| `Audio.ConversionIsLinear` | app-native/src/audio.rs:551-590 | there are `n` frames with `n * src <= frames * dst < (n + 1) * src`, and sample `c` of frame `i` lies at `i * src / dst` on the line through the source samples around that position, or is the last one after the end |
| `Audio.RampStaysRamp` | app-native/src/audio.rs:551-590 | a ramp `a + b * k` converts to `a + b * (i * src / dst)`, and to its last value after the end |
| `Audio.MapComesLast` | app-native/src/audio.rs:551-644 | with other channel counts the map is applied to each interpolated frame |
| `Audio.DownmixIs` | app-native/src/audio.rs:628-633 | 5.1 to stereo: each side plus 0.707 of the centre and of its surround, limited to [-1, 1] |
| `Audio.PacketStaysInRange` | app-native/src/audio.rs:551-644 | if the samples of a packet are within [-1, 1], so is everything it puts into the FIFO, through resampling and every channel map |
| `FramePacers.FramePacer.Push` | app-native/src/frame_pacer.rs:74-80 | the frame joins the end; at the bound the oldest is dropped |
| `FramePacers.FramePacer.PickPresent` | app-native/src/frame_pacer.rs:85-99 | presents the first frame no older than the bound, drops and counts those before it, and nothing else; with sorted arrivals no frame left is too old |
| `FramePacers.FramesAreConserved` | app-native/src/frame_pacer.rs:74-99 | over every history, pushed is presented plus dropped plus queued |

## Left out

- Supervisor.FoundationSupervisor.StopSection: the graceful stop, its deadline and the kill are one step that ends the process, because job objects and processes are the system's.
- OutputIds.TellsApartExactly: says nothing of EDIDs of different lengths, or of differences scattered over more than a row of `n` bytes.
- IdentityTree.VerifyDirMatches: the content hash is an arbitrary function, so equal bytes follow where it tells the files apart (`IdentityTree.MatchIsVerbatim`).
- IdentityRecovery.MigrationIsSafe: an error of the snapshot, or of the first journal, whose rollback does not complete is not in it, because the code does not keep the promise there; `IdentityRecovery.EarlyErrorsUndoneExactly`, `IdentityRecovery.UnwrittenJournalLosesInstall` and `IdentityRecovery.SoundExactly` say what becomes of those. Links, permissions and time stamps of files are not in the model.
- QuCompositions.QuComposition.ApplyTile: sizes are unbounded, so a sum that overflows `usize` is not modelled; the tile width and height, which no operation reads, are dropped.
- FrameQueues.FrameQueue.PushDiscontinuity: the generation is unbounded, so its wrap after 2^64 resets is not modelled; the reason of a discontinuity is dropped.
- DecodePump.DecodeState.OnUnit: the decoder is an input that answers with nothing, an error, or a picture of any unit fed to it since its last flush; presenting the picture, the NV12 choice and the counters are left out.
- DecodePumpRuns.RecoveryClosedByFreshKey: the runs begin after the negotiation of a session, so the clearing of recovery by a new negotiation is not one of their steps.
- BrokerWorker.ForwardEvent: scan codes reach virtual keys by an arbitrary partial function in the place of the system call; thread messages and the read timer become the reads that bring nothing.
- JsonPreprocessors.JsonPreprocessor.Preprocess: positions count characters and not UTF-8 bytes; the replacement at a byte index is then the replacement of one character.
- Audio.DeviceFifo.ConvertInto: samples and rate ratios are exact, so the rounding of 32- and 64-bit floating point is not modelled.
- FramePacers.FramePacer.PickPresent: time stamps are unbounded but for the saturation of the age bound.
- The low-level keyboard hook, the Ctrl+Tab remap and `translate`: they rest on the order of autorepeat or are tables.
- The receiver core, its forward error correction and its watchdog, beyond the event queue.
- The egui shell, settings, the Cloudflare worker, the web client and process plumbing: input, output and tables.
