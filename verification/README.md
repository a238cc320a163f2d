# Axion: a verified model of the sync core

Axion keeps folders of several clients in step through one server. A client reports each change
with the SHA-256 of the new content; the server records it in `file_state` (one row per pair,
side and path, last write wins by server time), decides which client has to fetch, remove or
rename what, sends the commands, and keeps the contents in a blob store.

This project models that core and proves what it guarantees, and, where the code does not
guarantee what one would expect, exactly when it does. Where a class of the program updates its
fields in place, a Dafny class does the same, and each of its methods is proved equal to a step
function on a state value; the theorems about whole runs are lemmas over those step functions.
Concurrency is interleaving: the atomic sections (what happens under a mutex, one channel or
semaphore operation) are the steps, and the theorems speak of every sequence of steps.

| file | contents |
|---|---|
| Protocol.dfy | messages, pairs, optional values |
| FileStateTable.dfy, ServerRun.dfy | the guarded table; runs of the server over its clock with restarts |
| Lww.dfy, ConflictName.dfy, Decimal.dfy, Engine.dfy, Dispatch.dfy | the decision, conflict names, the handler of a reported change; which reports send anything |
| Serialization.dfy | concurrent handlers under the per-pair mutex |
| SyncSystem.dfy, Mirror.dfy, TwoWay.dfy, EditsOutliveDeletes.dfy | server, command queues and client trees together |
| ConflictRuns.dfy, TwoWayRuns.dfy | conflict names over whole runs; runs that end badly |
| ReconnectDiff.dfy, DiffEffects.dfy | the diff when a client reconnects; what it sends and does to the files |
| Scheduler.dfy, BlobStore.dfy, CollectionRun.dfy, FetchedBlobs.dfy, HttpRange.dfy | job admission, blobs and their collection, byte ranges |
| Hub.dfy, PendingRegistry.dfy | connections; requests waiting for responses |
| Watcher.dfy, WatcherCalls.dfy, Suppressor.dfy, Paths.dfy, Runner.dfy, EchoRuns.dfy | the client |

## How the system is modelled

- The whole system (`SyncSystem.Sys`) is the server, one first-in-first-out command queue per
  client and one tree per client, a map from a place (pair and path) to the SHA found there. A run
  is any sequence of steps: the server handles a report, a client executes its next command (which
  may fail), a user edits a tree, a connection drops with its queue. `View` is a client's tree with
  its queue applied. `Runner.CommandRefines` ties places to files in the client's root directory.
- A connection fails after `budget` further sends. Every branch that a send error can take is there.
- The clock's readings are parameters of the steps; `ServerRun` says how they behave.
- `Op`, `Side`, `Direction` and the command names each have a constructor for every other string,
  so that the default branches of the code are reachable.
- SHA-256 is an uninterpreted function; where a theorem needs that no other input has the same
  digest it says so.

Assumptions the theorems rest on, because the code does not ensure them:

- A client starts each command on its own (internal/client/runner/app.go:114), so commands may
  overtake one another. Queues here run in order. `SyncSystem.SameFileOrderMatters` says exactly
  which commands may change places, renames included, and `SyncSystem.NeighboursMaySwap` that they
  may do so anywhere in a queue. The rename and the fetch of a conflict may not:
  `TwoWay.SwappedParkCommandsLose`.
- The reconnect diff takes no lock between its listing (internal/server/syncengine/diff.go:56) and
  its events. Its theorems are for a diff during which no other report of the pair is handled.
- "The row is the last event" needs a clock that moves between events
  (`ServerRun.RowIsEventIff`): the guard of the table is a strict comparison.

## What turns out not to hold

- Two-way pairs need not converge, for two reasons. Acknowledgements are ignored and a dispatch
  never writes the target's row, so a later report can match a stale row and be kept back
  (`TwoWayRuns.TwoWayCanDiverge`); and commands cross, so that a report is sent across while an
  older command waits to undo it at the reporter (`TwoWayRuns.CrossingCommandsDiverge`).
  `TwoWay.AgreeAfterReport` is the exact condition for one report: a conflict always makes the
  sides agree; a report sent across does when the reporter still holds its content once its own
  queue has run; a delete that loses to a write does when the other side holds what its row says;
  and when nothing is sent the sides agree if they did before.
- A conflict parks what the loser's queue leaves at the path, which need not be the content the
  loser reported: an older fetch waiting there overwrites it before the rename
  (`TwoWayRuns.ReportedContentCanBeLost`). Under a fresh name the reported content is kept exactly
  when the loser's queue leaves it in place (`ConflictRuns.ParksReportedContentIff`).
- The repository's README (lines 109-112) says that changes made at the destination of a one-way
  pair are overwritten. In the code they stay until the source reports the same path again
  (`Mirror.DestinationEditStays`).
- A file that comes back while its client is away keeps its tombstone
  (`ReconnectDiff.TombstonesStay`).
- Commands lost with a connection are made good only as far as a later diff raises an event for
  their path. On a one-way pair a diff of the source, with any snapshot, gives the destination
  what the snapshot says of a path exactly when it raises an event for it or the destination has
  it already (`DiffEffects.SourceDiffRestoresIff`), and an unchanged source raises none
  (`ReconnectDiff.LostCommandsAreNotResent`). On a two-way pair `DiffEffects.TwoWayDiffEffect` says
  what each event does to both sides: a file that is missing comes back
  (`DiffEffects.MissingFileEffect`), while a file that is merely old, and has no row on its side,
  replaces what the other side reported later (`DiffEffects.DiffUndoesNewerReport`).
- A conflict's rename that fails, with the fetch behind it succeeding, loses the loser's file
  (`TwoWay.LoserKeepsIff`).
- The suppressor is told the path from the client's root and asked for the path below the
  subscription's root; an echo is swallowed on its account only when these are the same
  (`Runner.EchoSwallowedIff`, `Runner.RenameEchoSwallowedIff`).
- An `Add` with a SHA ends the "any content" effect of every earlier one without
  (`Suppressor.AnyContentUntil`), and a content goes on being suppressed after its own `Add` has
  expired, while others keep the entry alive or nothing has swept it: a local change back to old
  content is then taken for an echo (`Suppressor.ExpiredContentHits`; `Suppressor.ContentHits` is
  the exact rule).
- A write shortly before a removal hides the removal from the watcher
  (`Watcher.RemovalReportedIff`; `Watcher.WriteHidesRemoval` is such a run).
- An event dropped because the channel is full leaves its listener with old content until another
  event of the path is delivered, and the same content is raised again only after something else
  was seen (`WatcherCalls.ListenerKnowsIff`, `Watcher.RaisedIff`).
- Callbacks process their events at the same time when hashing a file outlasts the delay. Calls on
  one path that overlap can raise a write twice (`WatcherCalls.OverlapRaisesTwice`) or leave the
  listener with content the watcher no longer knows (`WatcherCalls.OverlapMisleads`); when they do
  not overlap neither happens (`WatcherCalls.KnownIsWhatWasRaised`), and
  `WatcherCalls.OverlappingAgreeIff` is the condition when they do.
- A range that runs past the end of a blob announces more bytes than it sends
  (`HttpRange.AnnouncedLengthIff`), and one inverted by more than one byte is answered with
  everything from its start (`HttpRange.BytesServedIff`).
- A range upload over a partial file longer than the data fails although every byte arrives
  (`BlobStore.ResumableUpload`), and a blob that was listed as old before it was uploaded again is
  removed by the collection going on, under a row recorded for it
  (`CollectionRun.LateReferenceLosesBlob`). A collection goes by rows, so a queued fetch may name
  replaced content that is gone (`FetchedBlobs.CollectionKeepsBackedIff`).
- A connection registered after `Hub.Close` took its snapshot stays open
  (`Hub.LateRegistrationStaysOpen`), and of two waiters with one correlation id one may wait in
  vain (`PendingRegistry.SharedIdLosesResponse`; `PendingRegistry.AnswerableIffDistinct`).

## Model

| member | source | states |
|---|---|---|
| FileStateTable.Upserted | internal/server/store/sqlite.go:227-234 | the guarded upsert touches one key and never lowers its server time; it either takes the new row or keeps the old one |
| FileStateTable.NewestWins | internal/server/store/sqlite.go:227-250 | after any sequence of upserts the table holds exactly the keys seen, each with the upsert of greatest server time, the earliest among equals |
| FileStateTable.OrderIrrelevant | internal/server/store/sqlite.go:227-250 | with distinct times the table is the same for every order in which the same upserts arrive |
| FileStateTable.SQLite.UpsertFileState | internal/server/store/sqlite.go:236-250 | the store's upsert is the guarded upsert |
| FileStateTable.SQLite.GetFileState | internal/server/store/sqlite.go:252-259 | the row of a key, or none |
| FileStateTable.SQLite.ListFileStates | internal/server/store/sqlite.go:261-272 | exactly the rows of one side of one pair, each path once |
| FileStateTable.SQLite.CheckMonotonic | internal/server/store/sqlite.go:43-58 | a start is allowed exactly when no stored server time is after the clock |
| ServerRun.ClockNeverOvertaken | internal/server/store/sqlite.go:43-58 | over every run with restarts, no stored server time passes the clock |
| ServerRun.EventWinsConflict | internal/server/syncengine/engine.go:189-199 | hence the event being handled wins every conflict; the branch in which the other side wins is unreachable |
| ServerRun.RowIsNewestReport | internal/server/syncengine/engine.go:94-116 | after every run from an empty table each row is the newest report of its key, the first among equally new ones |
| ServerRun.RowIsEventIff | internal/server/store/sqlite.go:230-233 | the row becomes the event just handled exactly when no row at least as new (and different) is there |
| ConflictName.ConflictFilename | internal/server/syncengine/conflict.go:17-23 | a conflict name properly extends the path it is made from |
| ConflictName.ConflictFilenameSpelled | internal/server/syncengine/conflict.go:14-23 | the name reads as the path, ".conflict-", the client's first eight characters or all it has, a dash, and digits that spell the time |
| ConflictName.ConflictNamesDistinct | internal/server/syncengine/conflict.go:14-23 | two conflict names are equal exactly when path, first eight characters of the client id and time are |
| Decimal.ParsePrinted | internal/server/http/blobs.go:249-256 | reading back a printed integer gives it exactly when it fits 64 bits |
| Decimal.ParseSigned | internal/server/http/blobs.go:249-256 | digits within 64 bits are read with or without a plus sign and negated after a minus; anything but digits after a sign is refused |
| Lww.ResolveMirrorTargets | internal/server/syncengine/mirror.go:20-35 | at most one target, never the reporting side, and with the client that hosts it |
| Engine.PlanStaysInPair | internal/server/syncengine/engine.go:68-86 | everything a report makes the engine send concerns the report's pair and path |
| Engine.Sender.Transmit | internal/server/hub/hub.go:103-111 | a send is logged exactly when the connection still works |
| Engine.Engine.HandleFileChanged | internal/server/syncengine/engine.go:42-87 | new table, sends and error of the handler, with sends failing at any point, are those of the function the theorems are about |
| Engine.Engine.UpsertFileState | internal/server/syncengine/engine.go:94-116 | the row recorded for an event, missing SHA and size included |
| Engine.Engine.DispatchSync | internal/server/syncengine/engine.go:118-149 | one fetch or removal to the target, or an error |
| Engine.Engine.HandleBidirectional | internal/server/syncengine/engine.go:151-202 | the two-way decision over the other side's row and its sends, cut off where a send fails |
| Engine.Engine.HandleEditWins | internal/server/syncengine/engine.go:204-229 | a write goes across; a delete brings the other side's content back to the deleter, or nothing if it has none |
| Engine.Engine.DispatchConflict | internal/server/syncengine/conflict.go:30-103 | rename and fetch at the loser and then fetch at the winner, cut off where a send fails |
| Dispatch.UnknownPairIgnored | internal/server/syncengine/engine.go:46-57 | a report on an unknown pair records and sends nothing, without an error |
| Dispatch.DisabledPairOnlyRecords | internal/server/syncengine/engine.go:59-66 | on a disabled pair of any direction a report is recorded and nothing is sent, without an error |
| Dispatch.UnknownDirectionOnlyRecords | internal/server/syncengine/engine.go:59-75 | on an enabled pair of any other direction a report is recorded, nothing is sent, and the error is returned |
| Dispatch.SilentPairQueuesNothing | internal/server/syncengine/engine.go:64-75 | over every run, while a pair is unknown, disabled or of another direction, no queue gains a command of it |
| Dispatch.SendsAddressed | internal/server/syncengine/engine.go:118-229 | every command a report causes names its path and the side of the client it goes to, carries a new path exactly if it is a rename, which only a conflict sends, and has the client at the other side as originator, in a conflict the receiver |
| Dispatch.ErrorIff | internal/server/syncengine/engine.go:68-86 | the handler returns an error exactly for an unknown direction, or when a failing send cuts short what a two-way pair had to send |
| Dispatch.ConflictWindow | internal/server/syncengine/lww.go:69-82 | two writes of different content conflict exactly when their server times are less than five seconds apart |
| Dispatch.RowTellsEvent | internal/server/syncengine/engine.go:94-116 | the recorded row has the event's op, kind, time and server time, and its content and size exactly when they are given |
| Serialization.HandleIsLocal | internal/server/syncengine/engine.go:151-200 | a call reads and changes only its own pair's rows and sends only within its pair |
| Serialization.RunTracks | internal/server/syncengine/engine.go:33-62 | in every reachable interleaving, letting each pair's lock holder finish gives, pair by pair, what running the calls one at a time in lock order gives |
| Serialization.RunKeepsOrder | internal/server/syncengine/engine.go:33-44 | the lock order lists every handler that took its mutex, once |
| Serialization.Serializable | internal/server/syncengine/engine.go:33-62 | every interleaving of lock, upsert, read and send steps, once no handler is under way, ends with the table and each pair's command sequence of a one-at-a-time run in lock order |
| SyncSystem.ExecuteKeepsView | internal/client/runner/app.go:240-275 | executing a queued command leaves the client's tree-with-queue as it was |
| SyncSystem.NeighboursMaySwap | internal/client/runner/app.go:114 | neighbouring commands that do not clash may change places anywhere in a queue, on every tree |
| SyncSystem.SameFileOrderMatters | internal/client/runner/app.go:240-275 | two commands of any kind commute on every tree exactly when one does nothing, they touch different files, or they do the same |
| Mirror.PassedOn | internal/server/syncengine/engine.go:68-86 | a report from a one-way pair's source, or on a path the other side of a two-way pair never recorded, becomes one command to the other side |
| Mirror.DestinationFollowsSource | internal/server/syncengine/engine.go:42-87 | in every run, with failures, drops, edits and any other traffic: every path whose last report reached the queue undisturbed holds the reported content once the queue has run |
| Mirror.MirrorRefinement | internal/server/syncengine/mirror.go:20-35 | on a one-way pair without failures and destination edits, tree-with-queue always gives the source's last report on every path reported, and the tree alone does whenever the queue is empty |
| Mirror.DestinationEditStays | internal/server/syncengine/mirror.go:22-31 | what a one-way destination holds of a path changes, over every run, only by local edits or after the source reports that path |
| TwoWay.ConflictCommands | internal/server/syncengine/conflict.go:30-103 | in a conflict the loser is told to rename and then fetch, the winner to fetch, nothing else |
| TwoWay.ConflictLosesNothing | internal/server/syncengine/conflict.go:30-103 | whatever was queued before and however the clients interleave, if every command succeeds: both sides end with the winner's content, what the loser's queue left at the path is under the conflict name, no other file changes |
| TwoWay.LoserKeepsIff | internal/client/runner/app.go:248-271 | over every run that carries a conflict out, with any failures: the content the loser's queue left is in place or parked exactly when the rename worked, the fetch failed too, or the contents are the same |
| TwoWay.SwappedParkCommandsLose | internal/client/runner/app.go:114 | a loser that runs the conflict's fetch before its rename ends, from every tree, with the winner's content under the conflict name and nothing at the path |
| TwoWay.ConflictCutShort | internal/server/syncengine/conflict.go:53-99 | when the connection fails on the way the winner's side is unchanged and the loser's file is in place or parked; only after the rename alone is the path missing |
| ConflictRuns.NamesStayPast | internal/server/syncengine/conflict.go:38-39 | over every run whose clock advances from conflict to conflict, and whose reports and edits anticipate no conflict name, every conflict name any client holds or has queued is older than the clock |
| ConflictRuns.ConflictNameFresh | internal/server/syncengine/conflict.go:38-39 | hence every conflict of such a run parks under a name that no client holds or has queued |
| ConflictRuns.ParksReportedContentIff | internal/server/syncengine/conflict.go:30-103 | in every such run, the commands after the conflict succeeding, the parked file is what the loser's queue left at the path; it is the content the loser's row reports exactly when that is |
| TwoWay.QuietCommands | internal/server/syncengine/lww.go:49-83 | outside conflicts a report makes exactly one send across, one fetch back, or none, by the other side's row |
| TwoWay.AgreeAfterReport | internal/server/syncengine/engine.go:151-229 | whatever either side holds and has queued, a report whose sends get through makes the sides agree exactly when: it is a conflict; or it goes across and the reporter's queue leaves what it reported; or it is a delete that loses and the other side holds what its row says; or nothing is sent and the sides agreed |
| TwoWayRuns.TwoWayCanDiverge | internal/server/syncengine/engine.go:89-92 | a run with a stale row after which nothing is queued and the two sides differ |
| TwoWayRuns.CrossingCommandsDiverge | internal/server/syncengine/engine.go:183-186 | a run in which a report is sent across, commands cross, and the two sides end with each other's content |
| TwoWayRuns.ReportedContentCanBeLost | internal/server/syncengine/conflict.go:30-103 | a run in which the loser's reported content is in no file of either side once the conflict has been carried out |
| EditsOutliveDeletes.RunHonest | internal/server/syncengine/engine.go:94-116 | over every run a pair's rows are exactly the recorded events' keys, and every write row's content was reported by some write |
| EditsOutliveDeletes.EditsOutliveDeletes | internal/server/syncengine/lww.go:49-83 | over every run of a two-way pair, no removal goes to a side that has recorded the path, and every fetch names content some write reported for that pair and path |
| ReconnectDiff.ApplyDiff | internal/server/syncengine/diff.go:55-121 | the diff raises exactly the write and delete events of the comparison, in order, over the rows read at its start, each with its own chance of sends failing; no other handler of the pair comes in between |
| ReconnectDiff.WriteEventsExact | internal/server/syncengine/diff.go:71-97 | the write events are exactly those of the snapshot's files that are unknown or known with other content, one key each |
| ReconnectDiff.DeleteEventsExact | internal/server/syncengine/diff.go:99-118 | the delete events are exactly those of the file rows missing from the snapshot and not yet deleted, one key each |
| ReconnectDiff.HandleAllRows | internal/server/syncengine/engine.go:94-116 | events on distinct keys at later times are all recorded, and every other row stays |
| ReconnectDiff.DiffReconciles | internal/server/syncengine/diff.go:55-121 | after a diff that no other report of the pair interrupts, every outdated file is a write row with the snapshot's content, every missing one a tombstone, and all other rows of all sides and pairs are unchanged |
| ReconnectDiff.SnapshotFileRaises | internal/server/syncengine/diff.go:71-97 | for a path in the snapshot the diff raises one write with the snapshot's content if it is a file with no row or with a row naming other content, and nothing otherwise |
| ReconnectDiff.MissingPathRaises | internal/server/syncengine/diff.go:99-118 | for a path not in the snapshot it raises one removal if the path has a row that is neither a directory nor a tombstone, and nothing otherwise |
| ReconnectDiff.RowAfterDiff | internal/server/syncengine/diff.go:55-121 | after the diff a path's row is that of the event raised for it, or untouched when none was |
| ReconnectDiff.MissingFileIsDeleted | internal/server/syncengine/diff.go:99-118 | a file recorded as written and not in the snapshot gets exactly one removal and a tombstone |
| ReconnectDiff.DiffIsIdempotent | internal/server/syncengine/diff.go:55-121 | a second such diff with the same snapshot raises no event, whatever became of the sends |
| ReconnectDiff.TombstonesStay | internal/server/syncengine/diff.go:75-79 | the row of a snapshot file tells the truth after a diff exactly when it was not a tombstone before |
| ReconnectDiff.DestinationDiffSendsNothing | internal/server/syncengine/mirror.go:22-31 | events of a one-way pair's destination are recorded and send nothing |
| ReconnectDiff.LostCommandsAreNotResent | internal/server/syncengine/diff.go:55-121 | on a one-way pair, after a diff whose commands were lost, neither a second diff of the unchanged source nor any diff of the destination sends anything |
| DiffEffects.DiffSendsExactly | internal/server/syncengine/diff.go:84-117 | for either kind of pair, a diff sends exactly what each of its events makes the engine send against the other side's rows at the start |
| DiffEffects.SentAboutPath | internal/server/syncengine/diff.go:71-118 | path by path: what is sent about a path is what the event raised for it makes the engine send, and nothing when none is raised |
| DiffEffects.DiffedIsHandleAll | internal/server/syncengine/diff.go:55-121 | the diff on the whole system has the diff's rows and queues its sends |
| DiffEffects.SourceDiffRestoresIff | internal/server/syncengine/mirror.go:20-35 | on a one-way pair, for any snapshot, the destination ends with what the snapshot says of a path exactly when the diff raises an event for it or the destination has it already |
| DiffEffects.TwoWayDiffEffect | internal/server/syncengine/engine.go:151-229 | on a two-way pair, for the path of each event, what both sides hold after the whole diff is what that one report makes of what they held |
| DiffEffects.AgreeAfterDiffIff | internal/server/syncengine/engine.go:151-229 | the two sides agree on the path of an event after the diff exactly when that report makes them agree |
| DiffEffects.DiffReplacesIff | internal/server/syncengine/diff.go:71-97 | a snapshot file replaces the other side's exactly when the diff raises it and the other side's row does not name its content, whatever the times |
| DiffEffects.MissingFileEffect | internal/server/syncengine/diff.go:99-118 | a missing file comes back with the content of the other side's write row; without a row there it goes from the other side |
| DiffEffects.MissingFileGoes | internal/server/syncengine/diff.go:99-118 | on a one-way pair whose sends get through, a file missing at the source is gone from the destination once its queue has run |
| DiffEffects.DiffUndoesNewerReport | internal/server/syncengine/diff.go:75-97 | a file without a row on its side replaces other content that the other side has reported, however recently |
| Scheduler.ReachableSafe | internal/server/syncengine/scheduler.go:60-100 | in every reachable state the permits in use are the jobs holding them, within both limits; live keys are distinct and `pending` is exactly those keys |
| Scheduler.AllReturned | internal/server/syncengine/scheduler.go:85-92 | when all jobs are over, all permits and pending entries have been returned |
| Scheduler.NeverStuck | internal/server/syncengine/scheduler.go:60-94 | with both limits at least 1, every reachable state with an unfinished job has a step that is not a cancellation |
| Scheduler.EveryScheduleEnds | internal/server/syncengine/scheduler.go:60-94 | every step uses up a bounded measure, so no schedule is longer than it |
| Scheduler.MaximalRunsFinish | internal/server/syncengine/scheduler.go:60-94 | a schedule that cannot go on without cancelling has finished every job |
| Scheduler.EveryJobRuns | internal/server/syncengine/scheduler.go:60-94 | in every run in which a job is not cancelled and is over at the end, it held both permits at some time, exactly unless it entered while another live job held its key; then it is a duplicate |
| Scheduler.PermitFreeIff | internal/server/syncengine/scheduler.go:73-82 | a waiting job can take its permit exactly when fewer jobs than the limit hold one |
| Scheduler.CancelledNeverRuns | internal/server/syncengine/scheduler.go:73-82 | a job can be cancelled at either wait and nowhere else, and over every continuation never runs and returns what it held |
| Scheduler.Scheduler.Enter | internal/server/syncengine/scheduler.go:61-72 | a key already pending is turned away; any other becomes pending |
| Scheduler.Scheduler.AcquireGlobal | internal/server/syncengine/scheduler.go:74-77 | the global permit, or the way out on cancellation |
| Scheduler.Scheduler.AcquireClient | internal/server/syncengine/scheduler.go:79-83 | the client's permit, or giving the global one back on cancellation |
| Scheduler.Scheduler.Release | internal/server/syncengine/scheduler.go:85-92 | the first release returns the client's permit, any later one changes nothing |
| Scheduler.Scheduler.RemovePending | internal/server/syncengine/scheduler.go:96-100 | the key is free again |
| BlobStore.ValidSHAIff | internal/server/blobstore/fs.go:36-46 | a name is accepted exactly when it is 64 hexadecimal digits of either case |
| BlobStore.LowerLetters | internal/server/blobstore/fs.go:132 | lower-casing maps each capital letter to its own small one and leaves every other character |
| BlobStore.WriteAt | internal/server/blobstore/fs.go:157-168 | writing at an offset: length and every byte of the result, holes reading as zero |
| BlobStore.EarlyChunksAssemble | internal/server/blobstore/fs.go:145-181 | over any stale partial file, chunks before the last, in any order, overlapping, repeated or cut off, are all answered "incomplete" or with their copy error, and the partial file holds exactly what arrived over what was there |
| BlobStore.ResumableUpload | internal/server/blobstore/fs.go:145-202 | if every byte arrived at some time, the chunk that reaches the total succeeds and Get returns exactly the data, unless a stale partial file was longer than the data: then it fails |
| BlobStore.UploadSucceedsIff | internal/server/blobstore/fs.go:178-201 | over any stale partial file the last chunk succeeds exactly when that file was not too long and every byte that never arrived happens to be right; else the partial file is dropped |
| BlobStore.BlobsStayIntact | internal/server/blobstore/fs.go:92-202 | over every sequence of uploads (failed, short, over a stale partial file), deletions and collections, each blob's digest is its lower-cased name |
| BlobStore.PutThenGet | internal/server/blobstore/fs.go:92-142 | when a whole upload is accepted, what Get returns after it, and that nothing else changes |
| BlobStore.FS.Put | internal/server/blobstore/fs.go:92-142 | disk and error of a whole upload |
| BlobStore.PutIsFresh | internal/server/blobstore/fs.go:92-142 | an accepted upload of a blob that was not there leaves its bytes with the time of the upload and no partial file |
| BlobStore.PartialAge | internal/server/blobstore/fs.go:145-181 | over any range uploads that complete nothing, the partial file is as old as the last that delivered bytes |
| BlobStore.PutRangeIsFresh | internal/server/blobstore/fs.go:145-202 | a blob completed by range uploads is as old as the last of them that delivered bytes |
| BlobStore.FS.PutRange | internal/server/blobstore/fs.go:145-202 | disk and error of a range upload |
| BlobStore.FS.Delete | internal/server/blobstore/fs.go:243-254 | disk and error of a deletion |
| BlobStore.FS.List | internal/server/blobstore/fs.go:257-288 | every completed blob, once, with its size and age |
| BlobStore.FS.GC | internal/server/blobstore/gc.go:14-39 | the collection over the listing, or a prefix of it on cancellation, and its count |
| BlobStore.CollectExact | internal/server/blobstore/gc.go:21-37 | exactly the blobs with valid names that an entry of the listing has removed go, by reference and listed age, whatever is in their place by then; all else stays |
| BlobStore.CollectedIff | internal/server/blobstore/gc.go:21-37 | of the blobs a truthful listing names, exactly those that are not referred to and no younger than the cutoff go |
| BlobStore.FreshSurvives | internal/server/blobstore/gc.go:26-31 | over a truthful listing, a blob younger than the cutoff is kept as it is, referred to or not |
| BlobStore.CollectReferencedSHAs | internal/server/blobstore/gc.go:65-85 | exactly the content that rows of the listed pairs refer to |
| BlobStore.CollectionIsSafe | internal/server/blobstore/gc.go:14-39 | a removed blob was older than the cutoff when listed and no row of the listed pairs, on side a or b, refers to it |
| CollectionRun.VisitsCollect | internal/server/blobstore/gc.go:21-37 | taking up the listed blobs one at a time is the collection |
| CollectionRun.ReferencedSurvives | internal/server/blobstore/gc.go:26-28 | whatever is uploaded and reported meanwhile, a blob referred to when the collection started is never removed |
| CollectionRun.SurvivesIff | internal/server/blobstore/gc.go:14-39 | whatever else is uploaded and reported, a blob that is there outlives the collection exactly when no entry still listed has it removed |
| CollectionRun.AcceptedUploadSurvivesIff | internal/server/blobstore/gc.go:21-37 | an upload, whole or by range, accepted during a collection outlives it exactly when its blob was not doomed before: the collection goes by the age it listed |
| CollectionRun.LateReferenceLosesBlob | internal/server/blobstore/gc.go:42-63 | for every doomed blob and every accepted upload of it, a run of upload, report and collection that ends with a row whose blob is gone |
| FetchedBlobs.FetchesAreBacked | internal/client/runner/app.go:207-228 | over every run in which clients upload what they report and collections spare what rows and queues name, every queued fetch and every row names a stored blob |
| FetchedBlobs.ReportKeepsBackedIff | internal/client/runner/app.go:207-228 | a newly recorded report keeps it so exactly when its content was uploaded first |
| FetchedBlobs.CollectionKeepsBackedIff | internal/server/blobstore/gc.go:65-85 | a collection that spares what rows name keeps it so exactly when it removes nothing a queued fetch names |
| HttpRange.RangeReadBack | internal/server/http/blobs.go:240-261 | a printed range is read back as its offset and length, up to 64-bit wrap of the length |
| HttpRange.ParsesIff | internal/server/http/blobs.go:240-261 | a range header is read exactly when it is the unit, a number, a dash and a number or nothing, as the first number and the length up to the second, or -1 without one |
| HttpRange.OpenEndedReadBack | internal/server/http/blobs.go:253-255 | "bytes=a-" is read as a and -1 |
| HttpRange.ContentParsesIff | internal/server/http/blobs.go:264-289 | a Content-Range is read exactly when it is the unit, a number, a dash, anything, a slash and a number, as the two numbers |
| HttpRange.RangeRoundTrip | internal/server/http/blobs.go:240-289 | for 0 <= a <= b < size, "bytes=a-b" reads as (a, b-a+1) and the Content-Range printed for it as (a, size) |
| HttpRange.ProperRangeServed | internal/server/http/blobs.go:136-163 | a range inside the blob is answered with exactly its bytes, its length and its Content-Range |
| HttpRange.OpenEndedServed | internal/server/http/blobs.go:136-163 | an open-ended range inside the blob is answered with everything from its start, no announced length, and the Content-Range up to the last byte |
| HttpRange.ContentRangeAnswered | internal/server/http/blobs.go:153-158 | for every "bytes=a-b" the Content-Range names a-b, past the end or not, or up to the last byte when the length is negative |
| HttpRange.AnnouncedLengthIff | internal/server/http/blobs.go:152-163 | for every header that parses: no length is announced for a negative one, and the announced length is the body's exactly when it is zero or the range ends inside the blob |
| HttpRange.PrintedLengthIff | internal/server/http/blobs.go:159-161 | for "bytes=a-b" with a <= b, the longest range of all included, exactly when b is inside the blob |
| HttpRange.BytesServedIff | internal/server/http/blobs.go:152-163 | the body is the bytes asked for exactly when the range is not inverted by more than one or starts past the end |
| HttpRange.TilesGiveBlob | internal/server/blobstore/fs.go:221-240 | the ranges between any consecutive bounds that tile a blob give, concatenated, what Get gives |
| Hub.OpenConnectionIsReached | internal/server/hub/hub.go:53-100 | over every interleaving, an unclosed connection is the one its client is reached by, and a client is online exactly while its last registered connection is not unregistered |
| Hub.StaleUnregister | internal/server/hub/hub.go:94-100 | a replaced connection's Unregister leaves the map alone |
| Hub.ClosedIff | internal/server/hub/hub.go:53-79 | over every run, a connection is closed exactly when a step closes it itself or a later connection of its client was registered: one client's Register leaves the others open |
| Hub.ConnectionCanEnd | internal/server/hub/conn.go:45-52 | from every state, a connection can end by its own steps alone: it is then closed, out of the map and out of the wait group, and nothing else has changed |
| Hub.ShutdownClosesAll | internal/server/hub/hub.go:69-90 | with no later registration, once the snapshot is closed every connection is, and the wait group is at zero exactly when all have ended |
| Hub.OnlyLateOnesStayOpen | internal/server/hub/hub.go:69-79 | in general, what is still open then was registered after the snapshot |
| Hub.LateRegistrationStaysOpen | internal/server/hub/hub.go:75-79 | from every reachable state with the snapshot taken, such a connection does stay open |
| Hub.Hub.Register | internal/server/hub/hub.go:53-66 | the old connection of the client is closed and replaced |
| Hub.Hub.Unregister | internal/server/hub/hub.go:94-100 | the map loses the connection only if it is the registered one |
| Hub.Hub.TakeSnapshot | internal/server/hub/hub.go:70-75 | the snapshot is exactly the registered connections |
| Hub.Hub.PingFails | internal/server/hub/conn.go:89-95 | a failed ping closes the connection and nothing else |
| Hub.Hub.CloseSelf | internal/server/hub/conn.go:45-52 | the connection's own Close after its read loop |
| Hub.Hub.IsOnline | internal/server/hub/hub.go:148-153 | whether a connection is registered |
| PendingRegistry.ResponsesReachTheirWaiter | internal/server/hub/pending.go:21-48 | with distinct ids, over every interleaving: one send per channel at most, never a full channel, a waiting call can still be answered, with its own id, and no entry is left once it returned |
| PendingRegistry.AnsweredIffReachable | internal/server/hub/pending.go:30-42 | with any ids, a waiting call has a continuation that answers it exactly when the entry under its id is its own or an envelope is on its way |
| PendingRegistry.AnswerableIffDistinct | internal/server/hub/pending.go:21-48 | every waiting call of every run can be answered if and only if the ids are distinct |
| PendingRegistry.NothingLeft | internal/server/hub/hub.go:115-134 | when every call has returned the registry is empty |
| PendingRegistry.AnswersCameIn | internal/server/hub/pending.go:30-42 | over every run, what a call returned is an envelope that came in, unchanged |
| PendingRegistry.ReturnsWhatItReceived | internal/server/hub/hub.go:115-134 | over every run, a returned call has a response exactly when it received one and none exactly when it gave up |
| PendingRegistry.SharedIdLosesResponse | internal/server/hub/pending.go:21-48 | for any two calls with one id among any calls: a run after which the second waits and no continuation answers it |
| PendingRegistry.Registry.Register | internal/server/hub/pending.go:21-27 | the waiter's channel is entered under its id |
| PendingRegistry.Registry.Resolve | internal/server/hub/pending.go:30-39 | the entry is taken out, and whether somebody waited |
| PendingRegistry.Registry.Deliver | internal/server/hub/pending.go:40-41 | the send fits the channel |
| PendingRegistry.Registry.Cancel | internal/server/hub/pending.go:44-48 | the entry is gone as the call returns its response or none |
| Watcher.DebounceConserves | internal/watcher/watcher.go:166-221 | over every interleaving of events, failed stops and late callbacks: a pending name has a callback outstanding, a handoff carries exactly the ops since the last one, nothing is left when no callback is |
| Watcher.TimersRunOut | internal/watcher/watcher.go:206-217 | once events stop, the callbacks in any order leave nothing pending |
| WatcherCalls.CallsRefineProcess | internal/watcher/watcher.go:206-294 | over every interleaving in which calls on a path do not overlap, whatever calls on other paths do, the path's known hash and events are those of calls made one at a time in the order of their handoffs |
| WatcherCalls.KnownIsWhatWasRaised | internal/watcher/watcher.go:242-294 | then the known hash is what the path's events tell, which is what its last telling handoff saw, and no write of it is raised twice |
| WatcherCalls.ListenerKnowsIff | internal/watcher/watcher.go:270-293 | with any pattern of dropped events, a listener knows of such a path what its last telling handoff saw exactly when the path's last event was delivered or the last delivered one tells the same |
| WatcherCalls.OverlappingAgreeIff | internal/watcher/watcher.go:258-279 | with any overlapping, a listener that hears everything agrees with the known hash exactly when the last call to change the hash and the last to send tell the same |
| WatcherCalls.OverlapRaisesTwice | internal/watcher/watcher.go:258-279 | for any path and content, a run of two overlapping calls that raises one write twice |
| WatcherCalls.OverlapMisleads | internal/watcher/watcher.go:258-279 | for any path and two contents, a run after which the watcher knows one, the listener the other, and the known one is not raised |
| Watcher.RaisedIff | internal/watcher/watcher.go:258-269 | after any calls made one at a time, a write is raised exactly when its content is not what the path was last seen to hold |
| Watcher.RemovalReportedIff | internal/watcher/watcher.go:231-239 | a file gone by the handoff is reported removed exactly when the ops hold no write or create |
| Watcher.WriteHidesRemoval | internal/watcher/watcher.go:196-240 | a run of a write, a removal and the callback after which the removal is not reported and the file stays known |
| Watcher.Debouncer.OnRaw | internal/watcher/watcher.go:196-218 | an event joins the pending ops and starts a new timer |
| Watcher.Debouncer.OnFire | internal/watcher/watcher.go:206-217 | a callback hands off what is pending, once |
| WatcherCalls.FileWatcher.BeginCall | internal/watcher/watcher.go:223-256 | a callback's call starts with what it found of the file |
| WatcherCalls.FileWatcher.AdvanceCall | internal/watcher/watcher.go:258-293 | the next section of a call: compare, store or forget, send or drop |
| WatcherCalls.FileWatcher.ProcessEvent | internal/watcher/watcher.go:223-294 | known hashes, event and channel after a call that nothing overlaps |
| Suppressor.HitIffUnexpired | internal/client/runner/suppress.go:34-73 | under any history with a clock that does not go back, whenever entries were collected, a path is suppressed exactly while some Add of it is unexpired |
| Suppressor.ContentHits | internal/client/runner/suppress.go:34-94 | under any history with a clock that does not go back, a content is suppressed exactly while some Add of the path is unexpired and, since the last Add without content to the current entry, none named content or one named this |
| Suppressor.UnexpiredContentHits | internal/client/runner/suppress.go:34-94 | on a path added only with content, every content with an unexpired Add is suppressed |
| Suppressor.ExpiredContentHits | internal/client/runner/suppress.go:47-57 | a history in which a content is suppressed after its own Add has expired |
| Suppressor.AnyContentUntil | internal/client/runner/suppress.go:51-56 | every content is suppressed exactly while some Add is unexpired and none has named content since the last one to the current entry without |
| Suppressor.Suppressor.DoAdd | internal/client/runner/suppress.go:34-58 | the later expiry and the joined contents |
| Suppressor.Suppressor.DoHit | internal/client/runner/suppress.go:61-73 | the answer, and the expired entry dropped |
| Suppressor.Suppressor.DoHitWithSHA | internal/client/runner/suppress.go:77-94 | the answer for one content, and the expired entry dropped |
| Suppressor.Suppressor.GcOnce | internal/client/runner/suppress.go:132-141 | exactly the expired entries go |
| Paths.CleanIdempotent | internal/client/runner/subscription.go:64-67 | a cleaned path is its own cleaned form |
| Paths.MatchByComponents | internal/client/runner/subscription.go:66-79 | the string comparison of Resolve strips the root off the path by whole components |
| Paths.ResolveRoundTrip | internal/client/runner/subscription.go:61-82 | a subscription matches exactly the paths at or below its root, and joining the root with the answer gives the cleaned path back |
| Paths.PlacesAreDistinct | internal/client/runner/app.go:246 | roots outside one another and paths below them give distinct places |
| Paths.Registry.Apply | internal/client/runner/subscription.go:38-51 | a subscription is entered under its pair; an empty direction removes it |
| Paths.Registry.Resolve | internal/client/runner/subscription.go:61-82 | every matching subscription answers once, and no other |
| Runner.Runner.LookupSubscription | internal/client/runner/app.go:231-238 | the pair's subscription, or none |
| Runner.Runner.HandleSyncCommand | internal/client/runner/app.go:240-275 | tree, suppressor and acknowledgement after a command, failures included |
| Runner.Runner.HandleLocalChange | internal/client/runner/app.go:190-229 | which local changes are reported |
| Runner.EchoSwallowedIff | internal/client/runner/app.go:193-258 | whatever was suppressed before, the echo of a fetch or removal is swallowed on its account exactly when the subscription's root is the client's root |
| Runner.RenameEchoSwallowedIff | internal/client/runner/app.go:263-271 | each of a rename's two echoes likewise, or when the path it names happens to be the other one's path from the client's root |
| Runner.AckTellsEffect | internal/client/runner/app.go:240-275 | a command is acknowledged as done exactly when it did its effect on the files, and otherwise changed nothing |
| EchoRuns.ChangeWithheldIff | internal/client/runner/app.go:190-205 | over any history of commands, local changes and collections: a local write is withheld exactly while a mark on its path is unexpired and, since the last mark without content, none named content or one named this; a removal exactly while a mark is unexpired; nothing else is |
| EchoRuns.FetchWithholdsItsContent | internal/client/runner/app.go:190-258 | after a fetch into an unmarked path, at the client's own root and within two seconds, a write is withheld exactly when it is the fetched content |
| Runner.CommandRefines | internal/client/runner/app.go:240-275 | with subscription roots outside one another, what a command does to the client's files is what the system model does to places |

## Left out

- FileStateTable.SQLite.ListFileStates: the rows come in any order, not by path; nothing proved here depends on the order.
- FileStateTable.SQLite.CheckMonotonic: the clock is read once here and twice in the code, the second time for the message only.
- ConflictName.ConflictFilename: the time is after 1970, so that it prints without a sign, and names are sequences of characters, not bytes.
- Lww.DecideLWW: times are unbounded integers; the 64-bit difference of two times after 1970 does not wrap.
- Engine.Engine.HandleFileChanged: SQL and JSON errors, the audit log and the sync-run records are not part of this model.
- Engine.Engine.HandleFileChanged: the table of mutexes is not a field; module Serialization holds the locks as part of its state.
- Serialization.Serializable: pairs do not change while handlers are under way.
- Mirror.MirrorRefinement: commands run in the order sent; see the assumptions above.
- Paths.ResolveRoundTrip: absolute roots and paths; subscriptions and change paths are relative to the client's root.
- WatcherCalls.FileWatcher.ProcessEvent: the ignore list, adding directories to the watch, and the size and time of an event.
- BlobStore.FS.PutRange: errors of the file system other than a failing request body or a negative offset.
- BlobStore.FS.Put: errors of the file system other than a failing request body, file modes and directories.
- BlobStore.FS.GC: one listing and its removals without a pause; module CollectionRun lets uploads and reports come in between.
- Hub.Hub.TakeSnapshot: the time limit after which Close stops waiting.
- PendingRegistry.Registry.Deliver: the send is a step of its own, so that it may come late; its blocking on a full channel is excluded by proof.
- Scheduler.Scheduler.AcquireGlobal: the order in which waiting jobs are served.
- The client's download is one verified write; its `.partial` file, retries and byte ranges are not modelled, and no synced path is another one with that ending.
- Directories, symbolic links, file modes and the checks that keep a client inside its root.
- WebSocket dialling and back-off, registration, ping timing, HTTP routing, authentication, the web pages.
- Pair edits, quota accounting, settings, migrations and the other tables of the database.
