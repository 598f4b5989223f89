# torrnado: a verified model

A model, in Dafny, of the parts of the torrent daemon and its clients that
have to hold up under concurrency, restarts and hand-written parsing, with
proofs about them. `dafny verify dfyconfig.toml` checks everything.

- **One torrent's threads** (`tracked`, `engine_steps`, `engine_safety`,
  `engine_theorems`, `engine_hold`, `engine_release`, `engine_removal`,
  `removal_entries`, `engine_restarts`). Moves, purges, removals, rechecks, the
  verifications they leave running and pauses, as steps under the engine's
  locks; a step is one lock-protected block, one library call or one wait. A
  library instance is its byte counters and whether it has been dropped. Then
  when a hold on the data is lost and when it ends, what can still happen to a
  torrent that was removed, or removed and added again, and its totals across
  saves, crashes and restarts.
- **Locks** (`lock_order`). The paths of the engine's operations as lists of
  what they do to locks and wait groups; no interleaving is a deadlock.
- **The session file and file levels** (`session_file`, `session_daemons`,
  `save_restore`, `restore_runs`, `restart`, `file_choices`, `move_levels`).
  Savers, removals, crashes and restores over one file and a directory of
  metainfo, and several daemons over that file; what one torrent's record keeps
  across a restart, with the restore and the goroutine of its add side by side;
  and what the goroutines that mark files wanted, and a move, do to the levels
  chosen meanwhile.
- **Transfers** (`flow`, `flow_threads`). dataFlow, the guards, the seed limits
  and a whole tick; and decisions that travel between threads, one switch at a
  time.
- **Events** (`broadcast`). One-slot channels, senders under a lock, readers not.
- **IPC** (`rpc_client`, `rpc`, `rpc_answers`, `server_close`, `daemon_lock`).
  The pending map, out-of-order replies and that they come; closing a server
  with clients attached; who owns the socket.
- **The palette** (`palette`, `completion`, `utf8`). The tokenizer, the scanner
  that must agree with it, putting a completion back, and the bytes that
  completing cuts.
- **The interface** (`pieces`, `labels`, `tui_model`, `tui_theorems`,
  `tui_keys`, `tui_moves`, `tui_mouse`, `tui_sidebar`, `geometry`). Downsampling,
  the list's state machine, what keys ask for and where they lead, what a click
  picks, the sidebar's cycle, and geometry with the click map.
- **Search results** (`search_cache`, `search_merge`).

`runs` and `sums` are shared: runs of a state machine, and sums over threads.
Concurrency is interleaving: a protocol is a partial step function on a value,
an event is one atomic step, and a theorem speaks of every run. Code that
updates an object in place is a class whose methods are tied to functions of
the old state; the theorems are about those functions.

Where a stronger claim is false of the code, a lemma gives the run or the input
that shows it, and another the exact condition under which it holds. Where the
repository's comments and its code disagree the model follows the code:

- A successful move does not persist, although the session's comments say
  every change is saved (internal/engine/session.go:119-122).
- The disk guard keeps its last verdict when free space cannot be read; the
  comment says it fails open (internal/engine/engine.go:370-387).
- An add's goroutine is documented as sparing the priorities a restore sets;
  it spares those recorded when it copies the chosen set
  (internal/engine/ops.go:136-140, 161).
- ParsePriority is documented as case-insensitive and is not
  (internal/engine/types.go:41-57).
- Torrents just added that a snapshot does not carry are documented as left
  pending; they are forgotten as soon as one of them comes
  (internal/tui/label.go:147-181).
- A move holds transfers "for the whole of a move", but the instance it swaps
  in starts with both switches on (internal/engine/ops.go:1027-1033).

## Model

| member | source | states |
|---|---|---|
| `TrackedRecord.Tracked.CancelCheck` | internal/engine/ops.go:708-712 | the whole new record: the check in cancelCheck, if any, is cancelled, nothing else changes |
| `TrackedRecord.Tracked.RegisterCheck` | internal/engine/ops.go:664-679 | the record as beginCheck leaves it: the older check cancelled, the newer in its place, checking set |
| `TrackedRecord.Tracked.ClearCheck` | internal/engine/ops.go:680-687 | the record as a check's end leaves it: its own context cancelled, cancelCheck and checking cleared whosever they are |
| `TrackedRecord.Tracked.SetPaused` | internal/engine/ops.go:361-373 | the record after a pause, which cancels a check, and after a resume, which does not |
| `TrackedRecord.Tracked.HoldData` | internal/engine/ops.go:819-829 | the record after a move's or a purge's hold; only a purge pauses |
| `TrackedRecord.Tracked.FoldCounters` | internal/engine/ops.go:1071-1080 | the lifetime totals grow by what the instance counted, nothing else changes |
| `EngineSafety.StepKeeps` | internal/engine/ops.go:634-1062 | every step of every thread of one torrent, in any state, keeps the invariant |
| `EngineSafety.Always` | internal/engine/ops.go:634-1062 | the invariant holds after every interleaving of operations, verifications, pauses and transfers |
| `EngineTheorems.ChecksAreCounted` | internal/engine/ops.go:664-690 | in every run checkWG is the number of live verifications, and checking implies there is one |
| `EngineTheorems.NoDropUnderACheck` | internal/engine/ops.go:692-704 | when an instance is about to be dropped, the verifications that are live are exactly the rechecks added since the operation waited for them that have not ended |
| `EngineTheorems.RecheckReachesDrop` | internal/engine/ops.go:722-735 | a run in which a recheck begun after the wait hashes an instance that is about to be dropped |
| `EngineTheorems.CancelMissesOrphans` | internal/engine/ops.go:699-712 | when an operation cancels, the verifications that go on uncancelled are exactly the ones an older check's end took out of cancelCheck |
| `EngineTheorems.CancelMissesUnregistered` | internal/engine/ops.go:664-676 | a check counted but not yet registered is not cancelled by an operation, which nonetheless waits for it |
| `EngineTheorems.OrphanStep` | internal/engine/ops.go:680-688 | no later step reaches a verification taken out of cancelCheck: it runs to its own end |
| `EngineTheorems.OverlapOrphans` | internal/engine/ops.go:664-688 | a run of two overlapping rechecks after which a purge waits for one that nothing can cancel |
| `EngineTheorems.HashesEveryPiece` | internal/engine/ops.go:634-656 | a verification nobody cancels hashes as many pieces as there are, one after another, and changes nothing else meanwhile |
| `EngineTheorems.CancelledStops` | internal/engine/ops.go:634-656 | a cancelled one hashes no further piece than the one it is at |
| `EngineTheorems.TotalsAlways` | internal/engine/snapshot.go:134-136 | at every step of every run, base plus instance counters is everything any instance ever moved, less what nobody counted, plus what a fold counts twice until its swap and a failed re-add for good |
| `EngineTheorems.TotalsConserved` | internal/engine/ops.go:1071-1080 | with no operation inside opMu the totals are right if and only if as much was lost between Stats and Drop as failed re-adds count twice |
| `EngineTheorems.TotalsDuringOperation` | internal/engine/snapshot.go:134-136 | inside an operation the totals are what was moved, less what was lost and plus what failed re-adds count twice, up to its fold and from its swap on |
| `EngineTheorems.FoldedTwice` | internal/engine/ops.go:992-1032 | at the drop, the re-add and the swap of a move or purge the old instance is reported exactly twice, and at the swap the new one not at all |
| `EngineTheorems.FailedReAddCountsTwice` | internal/engine/ops.go:828-857 | a run in which a failed re-add leaves the totals doubled with nothing in progress |
| `EngineTheorems.OneInstanceRuns` | internal/engine/ops.go:790-1032 | however operations queue, at most one instance of a torrent is not dropped |
| `EngineRemoval.RemovedComesBackExactly` | internal/engine/ops.go:233-261 | from a removal's drop of the instance on, some run has an instance of the torrent running again if and only if a move or a purge that had looked it up is waiting for opMu |
| `EngineRemoval.RemovedStaysRemoved` | internal/engine/ops.go:233-261 | a torrent out of the list with only removals inside or behind opMu never has a running instance again |
| `EngineRemoval.Drains` | internal/engine/ops.go:692-704 | from every reachable state the verifications an operation waits for can be run to their end |
| `EngineRemoval.RemovedComesBack` | internal/engine/ops.go:790-866 | a run from the start in which a purge queued behind a remove puts the removed torrent's instance back |
| `RemovalEntries.StrandedExactly` | internal/engine/ops.go:233-261 | with removals that wait while the torrent is removed and added again, a record's instance is left running unlisted if and only if its entry was deleted and no removal that had looked that record up has deleted any |
| `RemovalEntries.NothingStranded` | internal/engine/ops.go:250-257 | none is while every removal deletes the entry of the record it looked up |
| `RemovalEntries.SecondRemovalStrands` | internal/engine/ops.go:244-257 | a run in which a second removal deletes the entry of the torrent added again and drops the old instance |
| `RemovalEntries.OneAtATime` | internal/engine/ops.go:244-250 | two removals are never inside the opMu of one record |
| `RemovalEntries.RemovesAlone` | internal/engine/ops.go:250-261 | a removal that goes in deletes the entry there is and drops the instance of the record it looked up; one that finds no entry ends and changes nothing |
| `EngineTheorems.HoldLasts` | internal/engine/ops.go:928-939 | during a move or purge the hold is on exactly when no earlier move's goroutine has released it since, and always when all such goroutines were over |
| `EngineHold.HoldCanBeLostExactly` | internal/engine/ops.go:1043-1056 | at every point of a move or purge that holds the data, some run of it loses the hold if and only if an earlier move's goroutine was unfinished when the hold was taken |
| `EngineHold.HoldTakenTooEarly` | internal/engine/ops.go:928-939 | so, looked at before the hold is taken, it can be lost if and only if some move's goroutine is not over |
| `EngineTheorems.EarlierMoveReleasesHold` | internal/engine/ops.go:1043-1056 | a run in which an earlier move's goroutine releases a later move's hold |
| `EngineRelease.HoldIsOwed` | internal/engine/ops.go:828-857 | in every run the hold is on only while a move or a purge is at the work it took it for, or some move's goroutine has not ended |
| `EngineRelease.HoldIsReleased` | internal/engine/ops.go:1043-1056 | so with nobody inside opMu and every move's goroutine over it is off, however the operations ended |
| `EngineRelease.PausedExactly` | internal/engine/ops.go:819-829 | in every run a torrent is paused if and only if a user or a purge paused it and nobody has resumed it since; no move, removal or verification touches the flag |
| `EngineRelease.PurgeEndsPaused` | internal/engine/ops.go:819-829 | after a purge has taken its hold the torrent is paused for as long as nobody resumes it |
| `EngineRestarts.LifetimeTotals` | internal/engine/session.go:182-184 | across any sequence of moves, purges, saves, crashes and restarts the totals are everything ever moved, less what was missed and plus what was counted twice; with nothing missed they are right if and only if no failed re-add doubled anything and every save the torrent was restored from was clean |
| `EngineRestarts.RestartKeepsTotals` | internal/engine/session.go:358-364 | saved at any point and restarted from that, with nothing missed, the totals are right if and only if that save and those before it were clean: not after a failed re-add that doubled anything, nor between a fold and its swap when the old instance had moved bytes |
| `EngineRestarts.SavedInAMove` | internal/engine/ops.go:992-1062 | a run in which another thread saves between a move's fold and its swap, the move ends well and saves nothing, and the next daemon keeps doubled totals |
| `EngineRestarts.SavedAfterAFailedReAdd` | internal/engine/ops.go:1003-1013 | a run in which the save after a failed re-add makes the doubled totals last |
| `LockOrder.NoDeadlock` | internal/engine/engine.go:124-132 | after any run of threads that obey the lock order, an unfinished thread that is not waiting for metadata in an open engine means that some thread can step |
| `LockOrder.CanStepSteps` | internal/engine/engine.go:264-288 | a thread that is not blocked is never refused its step |
| `LockOrder.AdvanceShrinks` | internal/engine/engine.go:264-288 | every step leaves the system less to do, so threads that are run end |
| `LockOrder.LocksExclude` | internal/engine/engine.go:264-288 | in every run a lock is held by one thread at a time |
| `LockOrder.WaitsForEverybody` | internal/engine/engine.go:503-529 | a wait for a group goes on only when no thread owes it anything |
| `LockOrder.OperationsAreOrdered` | internal/engine/ops.go:790-1062 | the paths of operations, setters, adds and their waiters, ticks, a restore, and first and later closes obey the order closeOnce, the engine's group, opMu, checkWG, saveMu, e.mu |
| `LockOrder.MoveOrdered` | internal/engine/ops.go:899-1062 | every way a move can end obeys the order |
| `LockOrder.WaiterOrdered` | internal/engine/ops.go:128-170 | the goroutine of an add obeys the order however it ends: woken by closeCh, marking files, or leaving them |
| `LockOrder.RestoreOrdered` | internal/engine/session.go:269-309 | a restore of any records, with any limits and priorities, obeys the order |
| `LockOrder.CloseOrdered` | internal/engine/engine.go:490-529 | a first close obeys the order and waits for the engine's group only after closeCh is closed; a later one only waits for the first |
| `LockOrder.TickLoopOrdered` | internal/engine/engine.go:599-690 | a tick loop of any ticks obeys the order |
| `LockOrder.OperationsSave` | internal/engine/ops.go:790-1062 | a setter saves, and a purge or removal that had something to do; a recheck does not; a move saves if and only if the torrent could not be added again |
| `LockOrder.RestoreSavesOnce` | internal/engine/session.go:287-299 | a restore saves once, at its end, however many torrents it brings back |
| `SessionFile.FileIsOneVersion` | internal/engine/session.go:387-406 | wherever between creating, writing, closing and renaming the temporary file a process dies, with any number of savers, the file is one complete version of the torrent list |
| `SessionFile.FileNeverGoesBack` | internal/engine/session.go:123-142 | with one daemon at a time the version in the file never decreases, through crashes and restarts |
| `SessionFile.NoTempLeftBehind` | internal/engine/session.go:387-406 | until a crash, no temporary file outlives its save, failed or not |
| `SessionFile.SavedIsOnDisk` | internal/engine/session.go:98-113 | a persist that returned without error outside a restore has left a file at least as new as its caller's change |
| `SessionFile.NothingOwed` | internal/engine/session.go:98-122 | once a restore is over, with every persist returned and none failed, the file misses no change whose maker persists, the restore's own suppressed persists included |
| `SessionFile.RestoreWritesNothing` | internal/engine/session.go:98-109 | while a restore runs neither the file nor any saved metainfo changes, however far it gets |
| `SessionFile.EveryRecordRestorable` | internal/engine/session.go:207-258 | wherever a run is cut off, a record of a tracked torrent with no removal in progress and no failed write has its magnet or its saved metainfo |
| `SessionFile.NoWayBackExactly` | internal/engine/session.go:207-247 | of such records one has neither if and only if it has no magnet and either writing its metainfo failed or a failed save left it in the file after a removal, and no save has written its metainfo since |
| `SessionFile.FailedMetainfoExposes` | internal/engine/session.go:230-247 | a run in which a torrent added from a file is saved without a way back, though every save of the session file went well |
| `SessionFile.NoDamageWithoutFailure` | internal/engine/session.go:207-247 | while no write of the run has failed no torrent is excepted |
| `SessionFile.RestorableWhenWritesSucceed` | internal/engine/session.go:207-258 | so then every record of a tracked torrent with no removal in progress has its magnet or its saved metainfo |
| `SessionFile.CrashBringsItBack` | internal/engine/session.go:298-335 | the restore after a crash anywhere brings back, in whatever order, exactly the records that have their magnet or metainfo, and among them every saved torrent with no removal in progress and no failed write |
| `SessionFile.OlderRemovalExposes` | internal/engine/ops.go:233-271 | a run in which a removal deletes the metainfo of the same torrent added again, before its own save |
| `SessionFile.MoveIsNotSaved` | internal/engine/ops.go:1027-1062 | a change whose maker does not persist, as a successful move, stays out of the file with nothing pending or failed |
| `SessionDaemons.ChangeSurvivesExactly` | internal/engine/session.go:269-299 | among any number of daemons on one file, a change another daemon made is in the file after a daemon's save if and only if it was there when that daemon read the file |
| `SessionDaemons.SerialKeepsChanges` | cmd/torrnado/daemon.go:108-148 | if each daemon read the file only when no other is between its own reading and its last save, no saved change would ever leave it |
| `SessionDaemons.LockHasItsServer` | internal/ipc/lock_unix.go:30-71 | in every run exactly the daemon that serves has the lock |
| `SessionDaemons.GoesOnUnsaved` | internal/engine/session.go:90-113 | a save that fails holds no daemon up: one that has restored serves what it found, one that is leaving ends |
| `SessionDaemons.RefusedDaemonUndoes` | cmd/torrnado/daemon.go:113-147 | a run in which a second daemon, which the lock refuses, takes a saved change of the serving one out of the file |
| `SessionDaemons.LateSaveUndoes` | internal/engine/engine.go:498-501 | a run in which a stopped daemon's last save, after it gave up the lock, does that to its successor |
| `SaveRestore.PriorityRoundTrip` | internal/engine/ops.go:445-484 | a priority survives its name, and the library's scale exactly when it is not "low"; a library priority survives exactly when it is one that can be set |
| `SaveRestore.NamesAreParsed` | internal/engine/types.go:41-57 | exactly the listed names are read, each as its level |
| `SaveRestore.LevelsKeepOrder` | internal/engine/ops.go:445-484 | both ways keep the order of the levels, with "low" and "normal" alone falling together, and each step of the library's scale reads as its level |
| `SaveRestore.TrackedTorrent.Record` | internal/engine/session.go:169-202 | the record built file by file is the one defined |
| `SaveRestore.TrackedTorrent.SetFilePriority` | internal/engine/ops.go:418-440 | a file that is there gets the level and is chosen; any other index is refused and changes nothing |
| `SaveRestore.TrackedTorrent.SetRateLimit` | internal/engine/ops.go:594-606 | a negative limit leaves its direction, and limits once not negative stay so |
| `SaveRestore.TrackedTorrent.Fill` | internal/engine/session.go:337-373 | the restored torrent after its limits, priorities and fields are put back |
| `SaveRestore.TrackedTorrent.DownloadUnchosen` | internal/engine/ops.go:197-204 | exactly the files not chosen are put at normal |
| `SaveRestore.RestoreOne` | internal/engine/session.go:311-373 | from the saved metainfo if there is one, else from the magnet, else an error; the new torrent is as defined |
| `RestoreRuns.RestoreAsWritten` | internal/engine/session.go:311-373 | for every record, in every interleaving of the restore with the add's goroutine and with metadata that comes at any point, the torrent is what restoreOne alone makes of the choices tried once there were files, with every other file wanted and besides exactly the chosen files whose choice was overtaken |
| `RestoreRuns.LostExactly` | internal/engine/ops.go:128-162 | at every point of it a choice is overwritten, or going to be, if and only if it was overtaken: made after the goroutine copied the chosen set without the file and before it came to it, or not recorded yet when the set was copied |
| `Restart.RestartedFields` | internal/engine/session.go:169-373 | field by field, what a save and a restore from metainfo or magnet leave of a torrent, in every run |
| `Restart.RestartedFiles` | internal/engine/session.go:189-199 | and of its files, in every run: each reads its level again if and only if its choice was made again and not overtaken, and else off when the torrent is paused and normal when not; it counts as chosen when its choice was made again |
| `Restart.RestartIsIdentity` | internal/engine/session.go:311-373 | for every torrent, whatever metainfo is found and in every run of the restore, it comes back and nothing a client sees has changed if and only if there is a metainfo or a magnet, as many files are found as there were, limits are not negative, path and time are set, and each file reads what an untouched one does or had its choice made again and not overtaken |
| `Restart.FromMetainfoExactly` | internal/engine/session.go:318-352 | so from the metainfo a paused torrent is unchanged if and only if none of its files was at normal, and a running one if and only if no choice of it was overtaken |
| `Restart.RestoreFirst` | internal/engine/ops.go:128-162 | every restore has a run that ends with no choice overtaken |
| `Restart.GoroutineCopiesFirst` | internal/engine/ops.go:128-162 | and every running torrent's, from its metainfo, one that ends with every file at normal, whatever was saved |
| `Restart.SecondSaveIsFixpoint` | internal/engine/session.go:169-202 | in every run the second save writes what the first did, but for the magnet of a torrent restored from its metainfo, if and only if the fields are kept and, with the files known both times, so is every level; with none known now, if and only if every file was at normal |
| `Restart.RestartKeepsWanted` | internal/engine/ops.go:377-390 | in every run, resuming after a restart, once the files are known, wants what resuming before it would have if and only if each file not at normal was chosen and had its choice made again and not overtaken, or was not chosen and had not |
| `Restart.SecondRestartSwitchesOff` | internal/engine/session.go:192-199 | a file at normal of a paused torrent is wanted on resume after one restart and off after two, in all their runs |
| `Restart.MagnetRestoreExactly` | internal/engine/session.go:328-352 | a torrent restored from its magnet has the magnet and, of the saved choices, exactly the readable ones of existing files that were tried once its metadata had come; none when it has not come |
| `FileChoices.FilesAtTheEnd` | internal/engine/ops.go:128-162 | from any files and chosen set, once one walk of an add or a resume is done each file is at the level last chosen for it, or at normal when none was chosen or the choice was overwritten |
| `FileChoices.ChoiceStandsExactly` | internal/engine/ops.go:197-219 | with any number of walks, all done in the end, a choice is overwritten if and only if at the choice some walk had copied the set without the file and not come to it yet, or some walk copied the set between the choice and its recording |
| `FileChoices.EarlyChoiceExactly` | internal/engine/ops.go:161-161 | made while no walk is past its copy, it is overwritten if and only if some walk copies the set before it is recorded |
| `FileChoices.RecordedChoiceExactly` | internal/engine/ops.go:197-204 | of a file recorded as chosen before, it is overwritten if and only if some walk is still to write the file |
| `FileChoices.DoomExactly` | internal/engine/ops.go:197-219 | from any state in which a level has been chosen, over any run with no other choice of the file, what is or will be overwritten grows exactly by copies without it |
| `FileChoices.RecordedChoiceStands` | internal/engine/ops.go:207-219 | a file recorded as chosen that no walk is still to write is never overwritten again, whatever is chosen and started later |
| `FileChoices.LateChoiceStands` | internal/engine/ops.go:197-204 | nor is a choice made after every walk has passed the file, while none is started |
| `FileChoices.ChoiceOverwritten` | internal/engine/ops.go:161-161 | for any torrent and file, a run in which a choice of "none" between the copy and the file's turn ends as wanted |
| `FileChoices.UnrecordedChoiceOverwritten` | internal/engine/ops.go:430-437 | and one in which it is written before the copy and recorded after it |
| `MoveLevels.UntouchedLevelKept` | internal/engine/ops.go:943-952 | a file nobody touches during a move reads the same level after it |
| `MoveLevels.LevelKeptExactly` | internal/engine/ops.go:943-1031 | the level last set during a move is the file's after it if and only if it was set on the new instance, or before the file's level was read, or is the one that stood already |
| `MoveLevels.LevelSetMeanwhileIsLost` | internal/engine/ops.go:418-440 | a run in which a level set after the reading and before the swap is lost |
| `Flow.Engine.RefreshVPN` | internal/engine/engine.go:423-447 | the guard is the last verdict, and untouched when it is not required |
| `Flow.Engine.RefreshDisk` | internal/engine/engine.go:375-394 | the guard compares free space with the floor, and keeps the last verdict when it cannot be read |
| `Flow.Engine.SetPaused` | internal/engine/ops.go:361-383 | the flag and both switches after a pause or resume, and that it is saved |
| `Flow.Engine.Tick` | internal/engine/engine.go:614-680 | after a whole tick every torrent is as defined from its state before, the stopped ones are those at a limit, and the session is written once per stop and once if a clock started |
| `Flow.TickSettlesSwitches` | internal/engine/snapshot.go:78-89 | whatever the switches were, after a tick they are dataFlow of the torrent's final state, stopped torrents included |
| `Flow.SwitchesExactly` | internal/engine/snapshot.go:76-90 | after a tick a switch is on if and only if the torrent is not paused then, not held, neither guard holds, and that direction has no limit or moved at most its limit a second since the last tick |
| `Flow.TickSeesTheLatest` | internal/engine/snapshot.go:14-30 | in a run a tick goes by the counters, the completion and the hold as they are then |
| `Flow.ElapsedAddsUp` | internal/engine/engine.go:622-627 | what ticks in a row divide by adds up to the whole time, and is never nothing |
| `Flow.PausedStaysOff` | internal/engine/snapshot.go:76-84 | in every run in which anybody turned the switches, a torrent that was paused and not resumed has both off |
| `Flow.GuardsTouchSwitchesOnly` | internal/engine/snapshot.go:78-86 | two ticks that differ in the guards differ in the switches alone; a held torrent has both off |
| `Flow.GuardsNeverPause` | internal/engine/snapshot.go:78-86 | two runs of ticks, pauses, holds and data that differ in the guards alone end alike but for the switches, the pause flag included |
| `Flow.PausedExactly` | internal/engine/ops.go:361-383 | at every point of every run a torrent is paused if and only if a user or a seed limit has paused it and nobody has resumed it since |
| `Flow.GuardsLetGo` | internal/engine/snapshot.go:78-86 | after the guards let go a torrent is as if they had never held it |
| `Flow.StopsOnce` | internal/engine/engine.go:664-672 | a torrent stopped by a tick is stopped by no later one, and a tick at the same time stops none |
| `Flow.StoppedExactly` | internal/engine/seedlimit.go:20-59 | exactly which torrents a tick stops, in terms of their own limits and the defaults |
| `Flow.WhyExactly` | internal/engine/seedlimit.go:43-66 | and which limit it is told to be: the ratio's when it has given that back, else the time's |
| `Flow.ClockStartsOnce` | internal/engine/seedlimit.go:70-76 | a tick starts the seeding clock of a torrent it sees finished, and moves no clock that runs |
| `Flow.ClockNeverRestarts` | internal/engine/seedlimit.go:70-76 | over any run the clock has the time of the first tick that saw the torrent finished, and keeps it |
| `Flow.CapIsBursty` | internal/engine/snapshot.go:15-32 | a tick forbids downloading exactly when more than the cap arrived, and the next allows it again if nothing did |
| `FlowThreads.SwitchesComeFromHistory` | internal/engine/snapshot.go:42-65 | in any interleaving of the two unlocked calls of any threads, each switch of an instance is what the torrent wanted of it in the state that the decision which turned it last was read from, and the library's own if and only if nobody turned it |
| `FlowThreads.CurrentExactly` | internal/engine/snapshot.go:42-65 | a switch of the present instance is what the torrent wants now if and only if the decision that turned it last was read from a state that wanted the same of it; this reads the invariant, and the next rows say when that decision is the newest |
| `FlowThreads.WantedIsDataFlow` | internal/engine/snapshot.go:76-90 | what a decision wants of the switches is what dataFlow says of that torrent and those guards |
| `FlowThreads.PairOfOneDecisionExactly` | internal/engine/snapshot.go:53-65 | over any run, with no thread between its two calls, an instance's two switches were turned by one decision, and are what the torrent wanted in one state, if and only if nobody turned its download switch between the two calls of the decision that turned its upload switch last |
| `FlowThreads.MixedPair` | internal/engine/snapshot.go:53-65 | a run that ends at rest with one switch on and one off, which the torrent wanted in no state |
| `FlowThreads.NoneLateIsNewest` | internal/engine/snapshot.go:42-65 | in a run in which no call on a switch comes after a newer decision's call on it, at rest both switches of each instance were turned by the newest decision for it |
| `FlowThreads.LateIsNotNewest` | internal/engine/engine.go:657-659 | and a call that comes after a newer decision's leaves its switch to a decision that is not the newest |
| `FlowThreads.InOrderIsNewest` | internal/engine/snapshot.go:42-65 | with decisions turned one after the other in the order taken, at rest each instance's pair of switches is what the newest decision for it wanted |
| `FlowThreads.TickRepairs` | internal/engine/engine.go:657-659 | a decision whose two calls follow at once makes both switches current, whatever was stale |
| `FlowThreads.StaleDecisionWins` | internal/engine/engine.go:636-659 | a run that ends with a paused torrent, its switches on and nothing pending |
| `FlowThreads.MovedInstanceStartsAllowed` | internal/engine/ops.go:1027-1033 | a run in which the instance a move swapped in may transfer although the torrent is held |
| `Broadcast.PanicsExactly` | internal/engine/engine.go:533-587 | no run sends on a closed channel or closes one twice; the one panic is a Subscribe after Close |
| `Broadcast.Unsubscribes` | internal/engine/engine.go:554-565 | the first call takes the subscriber out, closes its channel if the engine has not, and touches no other |
| `Broadcast.UnsubscribesOnce` | internal/engine/engine.go:554-565 | any later call, whatever has happened and whoever has the lock, does nothing and does not wait |
| `Broadcast.NeverBlocks` | internal/engine/engine.go:563-587 | whoever holds the lock can always step and has less to do after it, whatever readers do |
| `Broadcast.BroadcastReachesEverybody` | internal/engine/engine.go:570-587 | when a broadcast ends every subscriber has its event in the slot or has received it |
| `Broadcast.SubscriberIsPrimed` | internal/engine/engine.go:533-551 | a new subscriber's slot holds the state at its registration, and nothing came before |
| `Broadcast.ReceivedInOrder` | internal/engine/engine.go:563-587 | a reader receives sends in the order they were made, each at most once |
| `Broadcast.CloseClosesEverybody` | internal/engine/engine.go:515-519 | after Close every subscriber's channel is closed |
| `Broadcast.StatesInOrderExactly` | internal/engine/engine.go:563-587 | however a subscriber reads, given the same sends it sees the engine's states in order if and only if its priming and the broadcasts since were started in the order of the states they describe |
| `Broadcast.EagerReader` | internal/engine/engine.go:570-587 | for every run there is one with the same sends in which a given subscriber has received every one of them |
| `Broadcast.OrderedSendersOrderReaders` | internal/engine/engine.go:725-731 | if no sender starts a broadcast of a state older than one already sent, every subscriber of the run sees states in order |
| `Broadcast.OlderBroadcastBreaksOrder` | internal/engine/engine.go:640-678 | a broadcast keeps what a subscriber has been sent in order if and only if its state is not older than the newest of it |
| `Broadcast.OlderStateLast` | internal/engine/engine.go:640-678 | a run that leaves a subscriber with an older state after a newer one |
| `RpcClient.Client.Register` | internal/ipc/client.go:135-141 | a fresh number for the call's channel in the pending map |
| `RpcClient.Client.Take` | internal/ipc/client.go:82-90 | the channel waiting for a number, removed from the map; none for a reply nobody waits for |
| `RpcClient.Client.FailAll` | internal/ipc/client.go:118-125 | every waiting call has the loss in its channel and nothing is pending, each send having found room |
| `RpcClient.FailOne` | internal/ipc/client.go:118-125 | telling one waiting call first changes nothing in the end |
| `Rpc.AnswersReachTheirCalls` | internal/ipc/client.go:66-168 | in every interleaving a call that returns an answer returns the one computed from its own request, or the loss of the connection |
| `RpcAnswers.OnePlace` | internal/ipc/server.go:213-243 | in every run a request the server has read is in exactly one place: being answered in line or aside, on its way back, in the reader's hands, in its call's channel, or read when nobody waited; and no other call has an answer anywhere |
| `RpcAnswers.AnswerComes` | internal/ipc/server.go:237-240 | from every state of every run in which a call waits and the reader has not stopped, steps of server and reader alone bring that call the answer to its own request |
| `RpcAnswers.OutcomesAreTrue` | internal/ipc/client.go:135-180 | in every run a call says its sending failed if and only if its request was not written, and then it is not run; a call that returned is not waited for, unless its client was closed; only a closed client says so |
| `RpcAnswers.GivesUp` | internal/ipc/client.go:150-178 | a waiting call can time out at any time and return at once when the client is closed, and a failed write ends it, each with its own outcome |
| `RpcAnswers.SearchesHoldNobodyUp` | internal/ipc/server.go:224-235 | in every run only searches are answered aside, and the next request can be begun while any number of them run |
| `Rpc.NoRequestRunsTwice` | internal/ipc/server.go:216-250 | no request is dispatched twice, and they are dispatched in the order written |
| `Rpc.ReaderNeverBlocks` | internal/ipc/client.go:82-92 | the reader's send, and every send it makes on disconnect, finds the channel empty |
| `Rpc.SlotIsFinal` | internal/ipc/client.go:139-141 | a message in a call's channel is never replaced |
| `Rpc.DisconnectTellsEveryone` | internal/ipc/client.go:118-125 | a call made before the connection went can return at once after it |
| `ServerClose.ConnTable.Track` | internal/ipc/server.go:146-154 | a connection is tracked exactly when the server is not closing |
| `ServerClose.ConnTable.CloseConns` | internal/ipc/server.go:133-144 | every tracked connection is closed and later ones will be refused |
| `ServerClose.ConnTable.Untrack` | internal/ipc/server.go:156-160 | exactly that connection leaves the table |
| `ServerClose.NoConnectionLeftOpen` | internal/ipc/server.go:133-154 | once closeConns has run each accepted connection is closed or belongs to a handler that track will refuse |
| `ServerClose.Connects` | internal/ipc/server.go:146-187 | a client that connects gets a handler that is counted, tracked and serving |
| `ServerClose.ConnectsTooLate` | internal/ipc/server.go:146-186 | one that comes after closeConns has its connection closed and is not served |
| `ServerClose.ServesAlone` | internal/ipc/server.go:213-243 | a request is answered and the next waited for; a search is left to others |
| `ServerClose.Receives` | internal/ipc/server.go:213-217 | while its connection is up a handler can be sent another request, which waits its turn |
| `ServerClose.ShutsDownAlone` | internal/ipc/server.go:237-248 | a shutdown request is answered OK, passed on, and its connection untracked and closed |
| `ServerClose.ClientGoes` | internal/ipc/server.go:213-217 | a client that leaves is read from no more, answered no more, and its handler ends |
| `ServerClose.ClosesAlone` | internal/ipc/server.go:112-119 | a close closes the listener, hangs up on everybody in the table, and returns when the group is empty |
| `ServerClose.WaitGroupMeansGone` | internal/ipc/server.go:162-188 | the wait group is zero if and only if the accept loop and every handler have ended |
| `ServerClose.ShutdownAfterOk` | internal/ipc/server.go:237-248 | a handler that has signalled a shutdown has itself sent the OK to it, at every point of every run |
| `ServerClose.ServerStepsShrink` | internal/ipc/server.go:112-119 | while Close waits every step of the server brings its return nearer |
| `ServerClose.ClientStepsDoNotGrow` | internal/ipc/server.go:101-119 | and no client can undo that |
| `ServerClose.CloseIsNeverStuck` | internal/ipc/server.go:112-119 | while Close waits some server step is possible |
| `ServerClose.CloseReturns` | internal/ipc/server.go:112-119 | in any run the server takes at most Rank steps before Close returns |
| `DaemonLock.OneDaemonAtATime` | internal/ipc/lock_unix.go:30-70 | over starts, stops, crashes and probes at most one process is past acquireDaemonLock and not released |
| `DaemonLock.StartsAlone` | internal/ipc/lock_unix.go:30-71 | with the lock free a daemon that starts is serving after five steps, with lock, pid and socket its own and a stale socket gone |
| `DaemonLock.LaunchServes` | internal/ipc/server.go:63-101 | so whoever starts one gets one, and whoever asks is told that none runs |
| `DaemonLock.StopsAlone` | internal/ipc/server.go:112-119 | one that stops takes its socket with it and gives the lock back, and the pid stays in the file |
| `DaemonLock.RefusedAlone` | internal/ipc/lock_unix.go:44-60 | while another has the lock a daemon tries exactly five times and touches nothing |
| `DaemonLock.ServesUnsigned` | internal/ipc/lock_unix.go:73-86 | one that cannot write its pid serves all the same and leaves the lock file as it was |
| `DaemonLock.FailsAlone` | internal/ipc/server.go:63-101 | one that cannot bind gives the lock back; one that fails writing its pid goes on with the file empty |
| `DaemonLock.ProbesAlone` | internal/ipc/lock_unix.go:92-140 | a probe leaves lock, socket and pid as it found them, and answers by whether the lock was free, with the pid in the file |
| `DaemonLock.SocketHasItsOwner` | internal/ipc/server.go:77-85 | the socket file is absent, a dead process's, or bound by the lock's holder |
| `DaemonLock.UnlinksOnlyStaleSockets` | internal/ipc/server.go:74-77 | what a daemon unlinks is its own socket or a dead process's |
| `DaemonLock.NothingInTheWay` | internal/ipc/server.go:74-83 | at bind there is no socket file, a dead process's included, so a daemon serves if and only if the system lets it bind |
| `DaemonLock.ProbeAnswers` | internal/ipc/lock_unix.go:92-122 | an unrefused probe is right; a refused one is right exactly when the lock's holder is not another probe |
| `DaemonLock.ProbeReadsTheHolder` | internal/ipc/lock_unix.go:126-134 | a refused probe reads the holder's pid if the holder has managed to write it |
| `DaemonLock.ProbesSeeEachOther` | internal/ipc/lock_unix.go:110-121 | a run in which one of two probes reports a daemon that is not there |
| `DaemonLock.GivesUpOnlyWhenRefused` | internal/ipc/lock_unix.go:40-60 | a daemon gives up only at its last attempt, against a process that has the lock |
| `Palette.SplitArgs` | internal/tui/palette.go:186-219 | the arguments the loop finds are the ones defined over the trimmed line |
| `Palette.LastPathArg` | internal/tui/complete.go:42-81 | start, text and quote as defined over the raw line |
| `Palette.ScannersAgree` | internal/tui/complete.go:36-66 | on every line the two scanners are inside the same quotes and inside a word together, and a word begins where splitArgs is between words |
| `Palette.BareWordReads` | internal/tui/palette.go:197-215 | a bare word after a word start is read as it stands if and only if nothing in it is special and nothing of it is trimmed |
| `Palette.ClosedRunReads` | internal/tui/palette.go:197-215 | a closed quoted run is read as its text if and only if the text does not hold the quote |
| `Palette.OpenRunReads` | internal/tui/palette.go:181-219 | an unclosed run is read as its text if and only if the text holds no such quote and does not end in a space |
| `Palette.TextIsLastArg` | internal/tui/complete.go:34-81 | the text Tab completes is the last argument Enter runs if and only if the last word is bare or one quoted run and nothing of it is trimmed |
| `Palette.SpacesAre` | internal/tui/palette.go:193 | what TrimSpace trims is exactly the characters with Unicode's White_Space property |
| `Palette.CompletionReadsBack` | internal/tui/complete.go:230-246 | text put back reads as that one argument after the same arguments, if and only if it is quotable |
| `Palette.PlainCompletionReadsBack` | internal/tui/complete.go:230-246 | for text without quotes or outer spaces, the line reads as the line before it followed by the text |
| `Palette.ArgsBeforeExactly` | internal/tui/palette.go:186-219 | the line before a word, read alone, gives the arguments before it if and only if it does not end in a space that is no separator |
| `Palette.OddSpaceIsNotReadBack` | internal/tui/complete.go:239-244 | a name ending in a space that is no separator is not read back when put back bare |
| `Completion.LongestCommonPrefix` | internal/tui/complete.go:248-262 | the result begins every name and nothing longer does |
| `Completion.CommonIsTextExactly` | internal/tui/complete.go:248-262 | the bytes names have in common are whole characters if and only if each longer name goes on with the first byte of one |
| `Completion.CompletedIsTextExactly` | internal/tui/complete.go:132-136 | the line several matches make is text if and only if that is so; then it is the line with their longest common prefix in characters put in |
| `Completion.CommonHalfOfACharacter` | internal/tui/complete.go:252-256 | two names that differ in a two-byte character have half of it in common, which is no text |
| `Completion.BeginsInBytes` | internal/tui/complete.go:196-199 | of text a name begins with the prefix in bytes if and only if it does in characters |
| `Completion.MatchesIn` | internal/tui/complete.go:189-209 | the loop finds the specified matches |
| `Completion.MatchesExactly` | internal/tui/complete.go:196-208 | the matches are exactly the items offered, each once and in the directory's order |
| `Completion.OfferedExactly` | internal/tui/complete.go:196-205 | a name is offered if and only if it goes on from what was typed, and of the names hidden by a dot only those whose dot was typed |
| `Completion.JoinGoesOn` | internal/tui/complete.go:221-227 | the completed text is the typed text and the rest of the name when the typed text ends in the prefix, else the whole name is put after it |
| `Completion.JoinOfAName` | internal/tui/complete.go:221-227 | where the typed text is the prefix itself what is completed is the name |
| `Completion.LinksAreNoPaths` | internal/tui/complete.go:157-161 | an argument is no path if and only if it begins with magnet:, http:// or https:// |
| `Completion.CompletePath` | internal/tui/complete.go:107-139 | the bytes of the new line: the line itself when there is nothing to complete or nothing matches, one match put in whole, and for several the candidates, with the line grown to the longest bytes they have in common when those are more than was typed |
| `Completion.CompletionCanGoOn` | internal/tui/complete.go:42-81 | after a completion Tab finds the completed text where the typed one was |
| `Completion.OneMatchReadsBack` | internal/tui/complete.go:129-131 | a single match runs the same arguments with the completed text last, and can be completed further |
| `Pieces.Downsample` | internal/tui/pieces.go:73-95 | the walk over the runs gives each cell the worst state of the expanded pieces that fall into it |
| `Pieces.CellInRange` | internal/tui/pieces.go:84-88 | the clamp to the last cell is never taken |
| `Pieces.WorstIsMax` | internal/tui/pieces.go:89-91 | a cell is the maximum over exactly the pieces p with p*cells/numPieces equal to it |
| `Pieces.CompleteExactly` | internal/tui/pieces.go:14-24 | a cell reads complete if and only if every piece in it is |
| `Pieces.CellShowsExactly` | internal/tui/pieces.go:96-110 | and each other colour says exactly what it should of the cell's pieces: missing if and only if one is known not to be here, unknown if and only if none is and of one nothing was read back, partial, and checking likewise |
| `Pieces.CellsAreStretches` | internal/tui/pieces.go:84-86 | the cells cut the pieces into consecutive stretches that cover them |
| `Pieces.CellsAreEven` | internal/tui/pieces.go:84-86 | no cell is empty and sizes differ by at most one, when there are no more cells than pieces |
| `Pieces.EveryCellIsSomePiece` | internal/tui/pieces.go:73-95 | when the runs cover every piece each cell shows the state of a piece in it |
| `Pieces.Summary` | internal/tui/pieces.go:120-138 | the counts are those of the expanded pieces |
| `Labels.LabelsInUse` | internal/tui/label.go:28-49 | the one list of labels in use, in whatever order the counts are walked |
| `Labels.UsesIsTheList` | internal/tui/label.go:28-49 | that list is complete, has nothing else, and is by count then name |
| `Labels.OrderedSame` | internal/tui/label.go:42-47 | two lists in that order with the same rows are the same |
| `TuiModel.VisibleTorrents` | internal/tui/model.go:297-309 | the loop lets through what status, label and search do, then sorts |
| `TuiModel.SearchIsProper` | internal/tui/model.go:299-309 | the source's own search meets what is assumed of an environment's: an empty query finds every name |
| `TuiModel.CurrentSidebarIndex` | internal/tui/label.go:95-109 | the first entry that is the current filter, or zero |
| `TuiModel.WrapAsWritten` | internal/tui/update.go:218-218 | the source's (i%n + n) % n, with its signed remainder, is the modulus |
| `TuiTheorems.UpdateOk` | internal/tui/update.go:27-100 | every message keeps the invariant, and all but the daemon's keep marks listed |
| `TuiTheorems.CursorStaysOnTheList` | internal/tui/model.go:355-366 | after any messages the cursor is on a row or zero, and a label filter means All and a label some torrent carries |
| `TuiTheorems.OnlyTheDaemonHidesMarks` | internal/tui/update.go:220-237 | no key, click, scroll or command puts a marked torrent out of the list |
| `TuiTheorems.TargetsAreListed` | internal/tui/update.go:409-425 | with every mark listed an action reaches only listed torrents: exactly the marked, or the cursor's |
| `TuiKeys.ActsExactly` | internal/tui/update.go:259-330 | in every state, of every key: the daemon is asked for something if and only if the key at the list, or the line that Enter ends, is bound to it and there is something to do it to; then for that, of exactly the marked torrents, or the cursor's when none is marked |
| `TuiKeys.DataGoesWhenAsked` | internal/tui/update.go:306-313 | so data is deleted only on the key for it, pressed at the list, or on a line that says so |
| `TuiKeys.QuitsExactly` | internal/tui/update.go:104-121 | in every state, of every key: the program ends on exactly ctrl+c, the quit key where the list hears it, and a line that says so |
| `TuiKeys.ChordWaitsExactly` | internal/tui/update.go:259-274 | half a chord waits exactly after a d the list heard that was not its second half; any other key the list hears takes it away |
| `TuiTheorems.EventHidesAMark` | internal/tui/update.go:33-49 | a run of messages from the start, with the default keys, after which a snapshot leaves the list empty and a removal still reaches a torrent |
| `TuiTheorems.SelectKept` | internal/tui/update.go:212-237 | picking any sidebar row keeps the invariant and listed marks |
| `TuiTheorems.SearchKeyKept` | internal/tui/update.go:523-561 | so does every keystroke of a search |
| `TuiTheorems.BackKept` | internal/tui/update.go:336-364 | so does peeling a layer with escape |
| `TuiMoves.BackPeels` | internal/tui/update.go:336-364 | escape takes off exactly the outermost of focus, marks, search, label and status, and puts none on |
| `TuiMoves.BacksPeel` | internal/tui/update.go:336-364 | so k presses take off the k outermost and five lead back to the plain list |
| `TuiMoves.DownCounts` | internal/tui/update.go:282-298 | from the top k presses of down stand on row k, or the last, and change nothing else |
| `TuiMoves.UpCounts` | internal/tui/update.go:276-303 | from the bottom k presses of up stand k rows above the last, or on the first |
| `TuiMoves.MarkFlips` | internal/tui/update.go:379-392 | space flips the cursor's mark, no other, and goes on to the next row |
| `TuiMoves.SearchEnds` | internal/tui/update.go:523-561 | at the search prompt every key is text; enter keeps the query typed, escape takes it back, backspace its last character |
| `TuiMoves.CommandRuns` | internal/tui/update.go:565-598 | a colon, a text and enter run exactly that text as a line; with escape they do nothing |
| `TuiMoves.FocusGoesRound` | internal/tui/update.go:157-162 | tab goes round list, detail and sidebar, and shift+tab goes back |
| `TuiMoves.TabsGoRound` | internal/tui/update.go:163-166 | the brackets go round the tabs and undo each other |
| `TuiMoves.TabKeys` | internal/tui/update.go:177-182 | the digits lead to pieces, peers and files from any pane |
| `TuiMoves.MouseTogglesBack` | internal/tui/update.go:174-175 | the mouse key hands the mouse over and takes it again |
| `TuiMoves.HelpSwallowsOneKey` | internal/tui/update.go:125-128 | any key closes the help screen, which either of its keys opens, and does nothing else |
| `TuiMoves.OverlaySwallows` | internal/tui/update.go:123-141 | while a window is open no key changes the list, its cursor or its marks, or asks for anything |
| `TuiMoves.InterruptQuits` | internal/tui/update.go:118-121 | ctrl+c quits from everywhere |
| `TuiMoves.ClosesExactly` | internal/tui/update.go:123-141 | a window is closed by exactly its own keys, which change nothing else, but that one leads from results back to the prompt |
| `TuiMoves.FindGoesBack` | internal/tui/find.go:149-165 | escape at the find prompt, and from the results, goes back to the list as it was |
| `TuiMoves.PromptAndPaneGoBack` | internal/tui/update.go:340-374 | the search key opens its prompt and enter at once changes nothing; the detail key leads to that pane and escape back |
| `TuiMoves.CommandsAreKeys` | internal/tui/palette.go:108-162 | the commands that have a key do what the key does |
| `TuiMoves.ThemesGoBack` | internal/tui/themepicker.go:48-63 | the theme picker opens if and only if there are themes, and escape closes it on the list as it was |
| `TuiMoves.FindSearches` | internal/tui/palette.go:118-126 | words after find are searched for at once unless all are blank |
| `TuiMoves.SortsExactly` | internal/tui/palette.go:136-149 | sort takes exactly the eight columns, downwards only when told so, and changes neither torrents nor filters |
| `TuiMoves.SidebarEnds` | internal/tui/update.go:244-257 | in the sidebar up and down do what the filter keys do; top is the plain list and bottom the last entry |
| `TuiMoves.UnderAllAlone` | internal/tui/sidebar.go:38-56 | a torrent is under no status but All if and only if it is checked, queued or paused by the engine, not stopped, and not complete |
| `TuiMoves.StartsPlain` | internal/tui/model.go:259-272 | the interface starts on the plain list with nothing open and the mouse its own |
| `TuiTheorems.MouseKept` | internal/tui/mouse.go:92-199 | so does every mouse event |
| `TuiMouse.ClickOnTorrent` | internal/tui/mouse.go:138-153 | a click on a torrent drawn in the list puts the cursor on that torrent and focus on the list, and does nothing else |
| `TuiMouse.ClickOnEntry` | internal/tui/mouse.go:130-136 | a click on an entry drawn in the sidebar applies exactly that entry and makes it the current one |
| `TuiMouse.ClickOnDetail` | internal/tui/mouse.go:155-178 | a click on a drawn tab label opens that tab; elsewhere in the pane it only brings focus |
| `TuiMouse.ClickOnNothing` | internal/tui/mouse.go:129-178 | where none of these is drawn a click does nothing |
| `TuiMouse.WheelIsKeys` | internal/tui/mouse.go:182-199 | the wheel over the list does what up and down do there, over the sidebar what the filter keys do, and elsewhere moves neither |
| `TuiMouse.MouseIsIgnored` | internal/tui/mouse.go:92-127 | handed over, under a window, or before anything is drawn the mouse does nothing |
| `TuiTheorems.VisibleIs` | internal/tui/model.go:297-341 | the list has exactly the torrents the filters let through, however it is sorted |
| `TuiSidebar.CurrentUndoesApply` | internal/tui/label.go:81-109 | currentSidebarIndex inverts applyEntry on every entry |
| `TuiSidebar.ApplyUndoesCurrent` | internal/tui/label.go:81-109 | and applyEntry inverts it on every view a run can reach |
| `TuiSidebar.PressesGoRound` | internal/tui/update.go:212-237 | from entry i, k presses of next or previous end on entry (i + k) or (i - k) modulo n |
| `TuiSidebar.OnceRound` | internal/tui/update.go:204-211 | n presses of next lead back to the same view |
| `TuiSidebar.RevealShowsTheAdded` | internal/tui/label.go:134-202 | every torrent just added that has come is listed, and a filter is cleared exactly when it hid one |
| `TuiSidebar.SnapshotShowsTheAdded` | internal/tui/update.go:33-49 | so it is after the whole step |
| `TuiSidebar.OneArrivalEndsTheWait` | internal/tui/label.go:178-181 | once one has come none is waited for any more; with none, all are |
| `TuiSidebar.LateArrivalExactly` | internal/tui/label.go:178-181 | of torrents added together, one that only a later snapshot carries is listed if and only if the filters left by the first one let it through, though it was pending |
| `TuiSidebar.LateArrivalStaysHidden` | internal/tui/label.go:178-181 | so under a status that the first arrivals match and it does not it stays hidden |
| `TuiSidebar.VanishedLabelLeadsHome` | internal/tui/label.go:120-132 | when a snapshot carries no torrent of the label shown, the whole list is shown and the sidebar's cursor is on All |
| `TuiSidebar.RevealJustAdded` | internal/tui/label.go:151-202 | the loops over ids and map compute that step |
| `TuiSidebar.GoneMarksBlock` | internal/tui/update.go:409-420 | marks of torrents that are gone keep every action from the cursor's row |
| `TuiSidebar.NoTargetsExactly` | internal/tui/update.go:409-425 | an action has no targets if and only if there are marks and no torrent carries one, or no marks and no row under the cursor |
| `Geometry.PanesTileTheScreen` | internal/tui/layout.go:58-101 | on every terminal of at least 60x15 each cell is in exactly one of the four boxes |
| `Geometry.ScreenIsShared` | internal/tui/layout.go:58-101 | the sidebar has twenty columns, the detail pane twelve rows or on a short terminal three, and the list and the footer the rest |
| `Geometry.PanesHaveRoom` | internal/tui/layout.go:85-101 | the room each pane has, for every such terminal |
| `Geometry.RowFillsThePane` | internal/tui/list.go:221-252 | a row is exactly as wide as the pane's content, with or without bar and columns |
| `Geometry.NameComesFirst` | internal/tui/list.go:65-129 | the bar leaves the name 48 columns, the other columns leave it 20, and appear from 85 on |
| `Geometry.BarGrows` | internal/tui/list.go:71-81 | the bar appears at ten cells beside a name of forty-eight, takes half of what is over, and stops at forty-eight |
| `Geometry.WindowHasCursor` | internal/tui/list.go:324-344 | the window is as much of the list as fits, has the cursor in it, and in the middle unless an end is in the way |
| `Geometry.BuildSidebar` | internal/tui/sidebar.go:73-161 | the rows built and their map are aligned, and hidden labels are counted exactly when some are shown and some not |
| `Geometry.SidebarFits` | internal/tui/sidebar.go:115-157 | the rows never exceed the pane, and labels never take the daemon block off it |
| `Geometry.RowsAndEntries` | internal/tui/sidebar.go:105-136 | a row selects an entry if and only if it is that entry's row and the entry is listed, and each listed entry has its row |
| `Geometry.HitsExactly` | internal/tui/mouse.go:27-56 | a click is on a row of a pane if and only if that row of that pane's box is drawn there; borders and footer are nobody's |
| `Geometry.TabIsTheLabelDrawn` | internal/tui/mouse.go:58-84 | a column is on a tab if and only if that tab's label is drawn over it |
| `Geometry.DetailTabSpans` | internal/tui/mouse.go:66-75 | the running column gives each label's span |
| `Geometry.DetailTabAt` | internal/tui/mouse.go:77-84 | the loop over the spans finds the tab TabIsTheLabelDrawn speaks of |
| `Geometry.ClickSelectsWhatIsDrawn` | internal/tui/mouse.go:138-156 | a click selects a torrent if and only if that torrent is drawn there |
| `Geometry.ClickSelectsFileDrawn` | internal/tui/mouse.go:166-177 | the same for the file list |
| `SearchCache.Cache.Get` | internal/indexer/cache.go:29-38 | a hit is the last put for the key in an unbounded map, and unexpired |
| `SearchCache.Cache.Put` | internal/indexer/cache.go:47-69 | the whole new map, never over 64 entries: one entry out only when full, and one that expires no later than any other |
| `SearchCache.Cache.Soonest` | internal/indexer/cache.go:60-66 | walked in any order the pass finds a minimal expiry, if none is the zero time |
| `SearchCache.LostOnlyToFresher` | internal/indexer/cache.go:40-46 | what an eviction loses, 63 results at least as fresh outlive |
| `SearchMerge.Dedupe` | internal/indexer/multi.go:125-140 | the in-place filter leaves at the front of the array what the pure one gives |
| `SearchMerge.DistinctIs` | internal/indexer/multi.go:117-124 | no hash twice, no hash lost, every result without one kept as often as it was |
| `SearchMerge.DistinctKeepsFirsts` | internal/indexer/multi.go:117-124 | a subsequence in order, each the first with its hash |
| `SearchMerge.HashIsRead` | internal/indexer/multi.go:145-156 | the hash is what follows the marker up to the next delimiter, lowercased |
| `SearchMerge.LettersAreLowered` | internal/indexer/multi.go:145-156 | each letter is lowered to its own, and nothing else is |
| `SearchMerge.CaseDoesNotMatter` | internal/indexer/multi.go:145-156 | two spellings of a link in letter case have one hash |
| `SearchMerge.StableSortIs` | internal/indexer/multi.go:95-101 | most seeded first, ties in the order they came |
| `SearchMerge.StableSortIsUnique` | internal/indexer/multi.go:95-101 | there is only one such order, whatever sorts |
| `SearchMerge.Search` | internal/indexer/multi.go:50-102 | the merged, deduplicated, sorted results of the sources that answered; a failure only when all failed; the arrays the sources handed over are read and never written |

## Left out

- The library (anacrolix/torrent), sockets, gob encoding, flock and the file system are reduced to instances, queues, an atomic try-lock and files. The session file's temporary file is written record by record; a saved metainfo's is one step.
- Copying and deleting a torrent's data, and the directories left behind.
- Configuration, the command line, themes, styling, logging, the stream server, VPN detection and the indexer backends.
- A recheck's progress figures, a torrent's last error, event logging and the order of torrents in an event.
- Adding a torrent whose infohash is already tracked, which only pauses the one there.
- EngineRestarts: a torrent whose line is missing from the file is not restored, and what the library counts is not lost by the library itself.
- The 64-bit width of sequence numbers and byte counters.
- NoDeadlock: engine locks and wait groups only; the library's own locks are not modelled.
- EveryRecordRestorable: a torrent for which a write to disk failed is excepted; NoWayBackExactly says which of those have no way back.
- SessionFile: one daemon process at a time; of several, SessionDaemons has which changes the file holds and not the metainfo, and a restore there brings back all it reads.
- In the session file model a restore's own changes to one torrent are one step each, and a file that cannot be read or parsed counts as gone.
- An empty state directory, which turns saving off.
- The name in a session record, which no restore reads.
- Rounding: reals are used for rates and ratios; what the library counts while a tick runs is read once.
- How an event is built; it carries the version it was built from.
- In the palette model a line and the names are text, so what is typed after Tab has left half a character in the line is not covered; completing a path looks nothing up on disk, and the directory's listing is given, sorted as the system gives it.
- Downsample: run lengths are not negative.
- Of the interface, the detail pane's contents and cursor, status messages, theme and the text of the find prompt; the overlays are there as far as they take keystrokes. What Tab completes to comes with the key, and a sort is any function that keeps the rows, because the descending comparison is not a strict order.
- How a name or a number is cut or padded to its column, and overlays.
- HashIsRead: letter case beyond ASCII, where lowercasing can change a link's length.
- Search: the warnings beside the results, and that sources are asked at the same time.
