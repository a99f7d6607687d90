# Verified model of the multi-agent orchestrator

This project models the protocol code of a local multi-agent orchestrator in Dafny and proves what
that code promises: the durable job queue with its fencing tokens, backup archives and the
transactional restore, the replay broker and the event stream that reads it, event projection,
checkpoints and concurrent appends, artifact materialisation, the Windows command-line splitter, schema relaxation, the
patch grammar and the patch engine, dependency graphs, and the settlement of a plan.

`dafny verify dfyconfig.toml` checks everything. Each module is one component:

| module | component |
|---|---|
| `IsoTime`, `Jobs`, `JobRuns`, `JobLaws` | stored timestamps, one transaction of the job queue, whole runs of it, and what a caller may count on in a run |
| `Restore` | the swap of several restore targets by rename |
| `PathNames`, `Bundle`, `BackupLaws` | member names, writing, accepting and unpacking a backup archive; damaged archives, limits and wandering names |
| `BackupCycle` | a whole restore: accept the archive, stage its files, swap them in |
| `EventBroker`, `BrokerProtocol`, `EventStream`, `StreamLaws` | the bounded buffer, publishers against closers, the streaming reader, and what its client gets of the log |
| `EventCore`, `ProjectionLaws`, `RetentionLaws`, `AppendProtocol` | the projection fold, paged rebuild, append, checkpoints and log retention; what a projection tells of its log; which events retention keeps; concurrent appends |
| `Artifacts`, `ArtifactLaws` | compare-and-swap copying against a manifest, and what a reconciliation reports |
| `CommandLine`, `CommandLaws` | the splitter and a quoter it inverts; every other way to write an argument |
| `SchemaRelaxation`, `SchemaLaws` | the schema validator and the relaxation; what written-out schemas accept |
| `Texts`, `PatchGrammar`, `PatchLaws`, `PatchEngine` | lines and search, the normaliser, which texts it accepts, the edit pattern and the replace loop |
| `Dependencies` | dependency closure and plan admission |
| `Settlement` | integration gate, terminal statuses, Manager reports, final verdict |

Code that updates state is a class or a method with loops, proved against functions on values;
transactions are atomic steps on maps, and runs are sequences of steps with arbitrary clocks. The
stream is the exception: its loops are methods proved against a pure function of one turn (`Run`),
and what it sends is proved about that function, over any number of turns.

The modules named `...Laws` state what the definitions mean for a caller. Their results speak of the
fields of the stored values, of instants in time and of the literal kinds, statuses and figures, and
not of the predicates the methods and their specifications share.

## What does not hold as one would expect

Each of these is a theorem with the exact condition or a concrete counterexample.

- Lexical order of the stored timestamps is time order if and only if the two UTC offsets agree
  (`IsoTime.SqlOrderIsTimeOrder`). So a lease can be current for its holder and expired for the SQL
  test at once, for clocks of different offsets (`JobRuns.LeaseOrExpired`). The queue's own clock is UTC.
- `close` is documented to stop intake and drain (`orchestrator/event_broker.py:163`), but a second call
  answers True without draining; when the first one timed out, events can still be added after that
  answer (`BrokerProtocol.SecondCloseProvesNothing`). In every reachable state the log is final
  exactly when intake has stopped and no admitted publish can still add something
  (`BrokerProtocol.FinalExactlyWhenQuiet`).
- The stream checks for a gap and then reads, so events trimmed in between are lost. What it sends is
  the log behind its start, none missing or repeated, if and only if no live read skipped an event
  (`EventStream.ExactlyWhen`); a read skips one when an event of the log lies between the cursor of that
  turn and the first buffered event above it. None does when check and read see one buffer;
  `EventStream.ReadSkipsAnEvent` is a run of an ordinary broker in which one does.
- The stream reads and then tests whether the broker is closed. A `done` that is stored, published and
  followed by the close in between is never sent (`EventStream.ReturnLeavesDone`). A stream that returns
  has sent all that is stored by then if and only if it ended with a `done` or no event came in between
  (`EventStream.ReturnIsComplete`).
- A restore makes a read-only target writable before the first rename. If that very rename is refused
  after the mode change, the failing swap does not put the mode back: `Restore.ReadOnlyTargetTurnsWritable`
  is such a commit, and `Restore.AsBefore` carries the exact condition. Contents are restored in every case.
- A process killed inside a copy leaves the temporary file of that copy in the destination. Finalising
  again then reports a conflict until someone removes it: `Artifacts.KilledCopyBlocks` is such a run, and
  a rerun raises no conflict if and only if no such file is left (`Artifacts.RerunNeedsCleanDestination`).
  A stop between two copies or before the manifest write is harmless.
- An archive with non-canonical member names can be accepted and still fail to unpack
  (`Bundle.OddNamesCollide`); unpacking succeeds exactly when no two member paths are nested or equal
  after normalisation, which canonical names guarantee.
- An event of another session makes `append` fail after the event is already stored
  (`EventCore.ForeignEventStays`), and so does an append after retention has deleted an event of the task
  (`EventCore.HoleStays`), because the rebuild needs the whole log from its first event. Both are for good:
  every later append of a new event raises, whatever runs beside it, unless retention takes that event
  before it is read (`AppendProtocol.SpoiledForGood`, `AppendProtocol.SpoiledRefuses`).
- The checkpoint of a longer log is never replaced. So an append that is retried after retention deleted
  the events behind its own raises (`EventCore.RetryAfterCompaction`). An append returns exactly when the
  log runs from 1 without a hole, holds one session, and is not shorter than the one of the stored
  checkpoint (`EventCore.TaskEventCore.Append`).
- Storing, rebuilding and saving are three calls. Of two concurrent appends the slower one can raise with
  its event stored (`AppendProtocol.SlowerAppendRaises`). In a run of one session without retention an
  append raises at its save if and only if another one has saved a longer log since its rebuild
  (`AppendProtocol.RaisesExactlyWhenOvertaken`); its event is then in that checkpoint, and when all
  appends have ended the checkpoint is the projection of the whole log (`AppendProtocol.AppendsSettle`).
- Events named `job.cancel_requested` and `job.cancelled` never reach the branches that would change
  the task, so no log of job events moves its status (`EventCore.JobLogsSpareTheTask`).
- A finished application reconciles exactly when the destination held no file that an earlier approval
  owned and staging has since dropped (`Artifacts.AppliedReconciles`, with such a file in
  `Artifacts.DroppedFileIsExtra`).
- `count() == 1` does not mean that a search text occurs once; it does in every file exactly when the
  text has no border (`PatchEngine.CountOneIsUnique`).
- The edit pattern reads back what the normaliser wrote exactly when no block has an empty search or
  the closing marker inside its replacement (`PatchEngine.RecoveredExactly`).
- Terminal statuses look at items alone: a stream given up because its Manager's review call failed
  ends approved when its items were, and the plan can complete (`Settlement.GivenUpStreamCompletes` runs
  the settlement of such a plan).
  An empty stream that its Manager approved ends skipped, so the plan ends partial.

## Model

| member | source | states |
|---|---|---|
| IsoTime.IsoOrder | orchestrator/jobs.py:40-57 | for stamps of one offset, the stored ISO texts (fraction omitted when zero) compare as the instants do |
| IsoTime.SqlOrderIsTimeOrder | orchestrator/jobs.py:40-57 | text order equals time order for all stamps of two offsets if and only if the offsets agree |
| IsoTime.RenderOrder | orchestrator/jobs.py:40-57 | fixed-width decimal fields render in the order of the field vectors |
| Jobs.NextKeepsInv | orchestrator/jobs.py:185-613 | every transaction keeps: attempts = token = counter <= max_attempts, running iff owner and expiry, terminal iff completed_at, cancelled iff requested and not running, unique (namespace, key) |
| Jobs.DurableJobQueue.EnqueueJob | orchestrator/jobs.py:156-231 | is one enqueue transaction, with idempotent return, conflict and every refusal |
| Jobs.DurableJobQueue.SelectClaimable | orchestrator/jobs.py:295-320 | returns a claimable row no claimable row precedes, and none only when there is none; in fields and instants: JobLaws.ClaimExactly |
| Jobs.DurableJobQueue.ClaimJob | orchestrator/jobs.py:271-349 | is one claim transaction; the guarded update always finds its row; what such a transaction does in a run: JobLaws.ClaimExactly, JobLaws.RetryWaits |
| Jobs.DurableJobQueue.RequireCurrent | orchestrator/jobs.py:352-373 | gives the row exactly when the caller holds the lease with this token now |
| Jobs.DurableJobQueue.HeartbeatJob | orchestrator/jobs.py:375-409 | is one heartbeat transaction |
| Jobs.DurableJobQueue.CompleteJob | orchestrator/jobs.py:411-444 | is one completion transaction |
| Jobs.DurableJobQueue.FailJob | orchestrator/jobs.py:446-492 | is one failure transaction, retrying while attempts remain |
| Jobs.DurableJobQueue.CancelJob | orchestrator/jobs.py:494-531 | is one cancellation transaction |
| Jobs.DurableJobQueue.AcknowledgeCancelJob | orchestrator/jobs.py:533-571 | is one cancel acknowledgement |
| Jobs.DurableJobQueue.RecoverExpiredJobs | orchestrator/jobs.py:573-613 | recovers every expired row, no other, and counts them |
| JobRuns.RowMoves | orchestrator/jobs.py:295-613 | a step keeps a row's identity, never changes a terminal row, raises the token only by a claim, and lowers the work measure unless it is a heartbeat or repeated cancel |
| JobRuns.RunInv | orchestrator/jobs.py:185-613 | the table invariant holds in every state reachable from empty tables, whatever the clocks |
| JobRuns.RowsPersist | orchestrator/jobs.py:156-613 | rows stay, tokens never fall, finished rows are final over any run |
| JobRuns.EnqueueIsIdempotent | orchestrator/jobs.py:185-231 | repeating an accepted request later returns the same job and changes nothing |
| JobRuns.TokensIncrease | orchestrator/jobs.py:322-349 | tokens issued for a job strictly increase |
| JobRuns.StaleTokenChangesNothing | orchestrator/jobs.py:352-373 | a call with a token below the newest one issued raises and changes nothing |
| JobRuns.CompletionIsUnique | orchestrator/jobs.py:411-444 | at most one completion ever succeeds, it carries the largest token of the run, and its row is final |
| JobRuns.WorkIsBounded | orchestrator/jobs.py:295-349 | claims equal attempts and are at most max_attempts; effective steps are at most 3 * max_attempts + 1 |
| JobRuns.LeaseOrExpired | orchestrator/jobs.py:361-372 | a running job is current for its holder exactly when SQL does not call it expired, for all clocks of two offsets, if and only if the offsets agree |
| JobRuns.ClaimIsDeterministic | orchestrator/jobs.py:295-320 | one state and one clock allow only one claim result |
| JobLaws.ClaimExactly | orchestrator/jobs.py:295-320 | in any run with clocks of one offset, a claim takes a row of the namespace and kinds asked for that is due now, uncancelled, has an attempt left, and waits or has an expired lease; no other such row has a higher priority, or the same and an earlier creation; it returns nothing if and only if there is no such row |
| JobLaws.FailExactly | orchestrator/jobs.py:446-492 | a failed attempt gives the lease back, makes the job available at the call's time plus the delay, and leaves it to be repeated if and only if that was asked for and an attempt is left, and failed otherwise |
| JobLaws.RetryWaits | orchestrator/jobs.py:446-492 | after a retryable failure at a time with a delay, no later claim of the job in the run succeeds before that time plus the delay |
| JobLaws.RetryReturns | orchestrator/jobs.py:295-320 | once the delay is over, a claim in its namespace that is not refused does not come back empty |
| JobLaws.OnlyTheHolder | orchestrator/jobs.py:352-373 | every call that extends, finishes or fails a job comes from the worker of its last claim, with the token of that claim, before the lease runs out |
| JobLaws.LeaseExactly | orchestrator/jobs.py:411-444 | while nothing else has touched the job since its claim, a completion succeeds if and only if it comes from that worker with that token before the claim's time plus its lease time, and else changes nothing |
| JobLaws.HeartbeatExtends | orchestrator/jobs.py:375-409 | a heartbeat grants the lease time anew from the call, and keeps owner and token |
| JobLaws.CancelStops | orchestrator/jobs.py:494-571 | after an accepted cancellation the job is never claimed, extended, completed or failed again, and can only end cancelled; a job that waited is cancelled at once, a finished one stays as it was |
| JobLaws.RecoveryExactly | orchestrator/jobs.py:573-613 | recovery changes exactly the running rows whose lease has run out: cancelled if that was requested, waiting while an attempt is left, failed otherwise |
| JobLaws.EnqueuedWaits | orchestrator/jobs.py:156-231 | the first request under a key makes one waiting job with what was asked for, to be run from the asked time on |
| JobLaws.KnownKeyExactly | orchestrator/jobs.py:185-231 | a request under a known key changes nothing, and returns that job if and only if it asks for the same work |
| Restore.Disk.Replace | orchestrator/backup.py:412-417 | one rename with its chmods, all or nothing, under any fault |
| Restore.Disk.Prepare | orchestrator/backup.py:433-479 | builds the workspace beside the target and touches nothing else; a copy that fails leaves no trace if the removal works; fails without a fault only for a target of the other kind |
| Restore.Disk.PrepareAll | orchestrator/backup.py:634-659 | prepares all swaps, or stops at the first fault or mismatch and removes every workspace again: the whole tree is as before if the calls behind the failure work |
| Restore.Disk.Install | orchestrator/backup.py:487-507 | installs, or leaves the target as before, or keeps the original in the workspace |
| Restore.Disk.Rollback | orchestrator/backup.py:510-521 | puts the original back, or keeps it in the workspace |
| Restore.Disk.Commit | orchestrator/backup.py:524-551 | a normal return installed every replacement; an error without workspaces left every target as it was (mode only up to the stated exception); otherwise nothing is lost |
| Restore.Disk.InstallAll | orchestrator/backup.py:524-533 | installs in order up to the first failure |
| Restore.Disk.UndoAll | orchestrator/backup.py:534-551 | undoes the installed swaps in reverse order |
| Restore.Disk.RestoreAll | orchestrator/backup.py:554-659 | over all targets: all replaced, all contents and modes unchanged (but for one read-only target after a late refusal), or every original still on disk; no other path changes; rejected if and only if two configured targets overlap or one stands without overwrite; without faults and with fitting kinds it ends restored, workspaces gone |
| Restore.ReadOnlyTargetTurnsWritable | orchestrator/backup.py:412-417 | a commit that aborts with every content in place and a read-only target left writable |
| PathNames.Parts | orchestrator/backup.py:185-192 | the parts of a name are non-empty, slash-free and not "." |
| PathNames.PartsOfPath | orchestrator/backup.py:152-162 | a path written from its parts reads back as those parts |
| PathNames.PathInjective | orchestrator/backup.py:152-162 | written paths are equal only for equal parts |
| Bundle.CheckMembers | orchestrator/backup.py:208-250 | accepts exactly the member lists within every count, size and ratio limit, with distinct safe regular names |
| Bundle.Declared | orchestrator/backup.py:285-318 | accepts exactly the record lists that are well formed, supported, inside the roots and distinct |
| Bundle.CheckConflicts | orchestrator/backup.py:329-336 | accepts exactly when no declared name has a declared ancestor as spelled |
| Bundle.Validate | orchestrator/backup.py:205-357 | accepts an archive if and only if it is acceptable in every respect; what acceptance implies for the bytes: Bundle.Open, BackupLaws.OpenDamaged |
| Bundle.Unpack | orchestrator/backup.py:611-619 | fills the stage exactly when no two member paths are equal or nested, with every file in its place and no other |
| Bundle.AcceptedUnpacks | orchestrator/backup.py:320-336 | canonical names in an accepted archive are prefix-free, so unpacking never collides |
| Bundle.OddNamesCollide | orchestrator/backup.py:329-336 | an accepted archive whose unpacking collides |
| Bundle.Create | orchestrator/backup.py:130-178 | writes each staged file once under its canonical name, with size and checksum, and the manifest |
| Bundle.BackupAccepted | orchestrator/backup.py:97-182 | a written archive within the limits is accepted and unpacks without a collision |
| Bundle.ContentsKeepStage | orchestrator/backup.py:620-633 | what is restored holds at each path exactly what the stage holds |
| Bundle.RoundTrip | orchestrator/backup.py:607-633 | unpacking a written archive gives back its sources: both databases, every regular file of the included roots, nothing else |
| Bundle.Open | orchestrator/backup.py:607-633 | restores exactly the acceptable, collision-free archives with a state database, yields exactly their files, and inverts Create; what it yields at the path of each record has the size and the digest of the record; under the manifest of a backup it yields that backup or nothing |
| Bundle.ManifestDetermines | orchestrator/backup.py:337-357 | two sources that match the records of one manifest in size and digest are the same sources |
| BackupLaws.OpenDamaged | orchestrator/backup.py:337-357 | an archive under the manifest of a backup in which any file has other bytes is not opened, whatever its entries say |
| BackupLaws.OneByteShows | orchestrator/backup.py:353-356 | one changed byte of the state database, at the same size, makes the archive unacceptable |
| BackupLaws.LimitsExactly | orchestrator/backup.py:208-250 | the limits on count, member size, manifest size, archive size, expanded size and compression ratio, in figures |
| BackupLaws.AcceptedStaysInside | orchestrator/backup.py:185-192 | walking the parts of an accepted record's path leads to the place its parts name, below the stage |
| BackupLaws.WanderingIsRefused | orchestrator/backup.py:185-192 | an archive with a member whose name is empty, absolute, or leads out of the stage or in and out of a directory is not acceptable |
| BackupCycle.NodeHoldsTree | orchestrator/backup.py:611-633 | the staged directory of a tree holds exactly its files, at every path |
| BackupCycle.RestoreBackup | orchestrator/backup.py:554-659 | for every archive: a restore puts all it holds in place, or every target is as before (but for one read-only one after a late refusal), or every original is at its target or in its workspace; no other path changes. For every backup: when it returns each backed-up byte is at its target and no other file in the roots; it is rejected exactly for overlapping targets or an occupied one without overwrite; without faults and with fitting kinds it returns; what it put in place at the path of each record has the size and the digest of the record, and under the manifest of a backup nothing but that backup is ever restored |
| EventBroker.AcceptedIsChained | orchestrator/event_broker.py:43-60 | accepted events increase strictly and every jump is marked on the event behind it |
| EventBroker.AcceptsExactly | orchestrator/event_broker.py:43-60 | one more event of a batch is dropped if and only if its sequence is not above the last number given; otherwise it gets that sequence, or the next number when it has none, and a gap mark exactly after a jump |
| EventBroker.GapExactly | orchestrator/event_broker.py:74-88 | a cursor has a gap if and only if later events are buffered and the next number is not among them |
| EventBroker.BufferAgreesWithHistory | orchestrator/event_broker.py:67-88 | without a gap the bounded buffer answers as the whole history would |
| EventBroker.AfterMembers | orchestrator/event_broker.py:74-80 | a read returns exactly the events above the cursor, ascending |
| EventBroker.ReplayEventBroker.constructor | orchestrator/event_broker.py:17-27 | a fresh broker is empty, open and starts at its initial sequence |
| EventBroker.ReplayEventBroker.Admit | orchestrator/event_broker.py:32-40 | admits exactly while accepting and open, and counts the publisher |
| EventBroker.ReplayEventBroker.Publish | orchestrator/event_broker.py:41-60 | extends the history by what the batch is accepted as; the buffer stays its last max_events |
| EventBroker.ReplayEventBroker.PutMany | orchestrator/event_broker.py:32-65 | refuses exactly when closed to intake, and otherwise adds the accepted events and counts them |
| EventBroker.ReplayEventBroker.EventsAfter | orchestrator/event_broker.py:67-126 | raises exactly on a required gap; without one it returns the history above the cursor |
| BrokerProtocol.NextKeepsInv | orchestrator/event_broker.py:32-65 | each publisher or closer step keeps the publisher count and the intake flags consistent |
| BrokerProtocol.RunInv | orchestrator/event_broker.py:147-172 | in every interleaving the count is that of admitted unfinished publishes, and none is admitted after intake stopped |
| BrokerProtocol.FinalExactlyWhenQuiet | orchestrator/event_broker.py:147-172 | no run from a state changes the log if and only if intake has stopped and no admitted publish can add to it |
| BrokerProtocol.DrainedCloseIsFinal | orchestrator/event_broker.py:162-172 | once a close that drained has returned True, no later step changes the history or the sequence |
| BrokerProtocol.SecondCloseProvesNothing | orchestrator/event_broker.py:162-172 | a run in which a second close answers True and the log grows afterwards |
| EventStream.StreamOutput | server.py:2622-2691 | the generator with its two loops sends the frames of the turn function, and ends when that does; what the client gets by that: StreamLaws |
| EventStream.ExactlyWhen | server.py:2622-2691 | after any number of turns the events sent are the log above the start, none missing or repeated, if and only if no live read skipped an event |
| EventStream.AlwaysIncreasing | server.py:2622-2691 | the events sent strictly increase and lie above the start, whatever the broker did |
| EventStream.SameViewLosesNothing | server.py:2660-2691 | when gap check and read see one buffer nothing is ever skipped |
| EventStream.GapIsSkip | server.py:2660-2668 | in a log without holes the gap check reports exactly the skips |
| EventStream.TurnEmits | server.py:2641-2691 | every turn with something to read above the cursor sends at least one event |
| EventStream.CompleteWithoutBroker | server.py:2641-2657 | without a broker and with an unchanging log the stream ends and has sent the whole log above its start, up to a `done` |
| EventStream.ReturnIsComplete | server.py:2660-2691 | a live stream that returns, nothing lost and the buffer reaching the end of the log, has sent all that was stored at its last read; all that is stored at the return if and only if it ended with a `done` or no event came in between read and closed test |
| EventStream.ReturnLeavesDone | server.py:2681-2684 | a faithful run that returns without the `done` stored between its last read and the closed test |
| EventStream.ReadSkipsAnEvent | server.py:2660-2681 | a faithful run in which two events come between gap check and read and the first is never sent |
| EventStream.Delivers | server.py:2622-2691 | when log and broker stand still for as many turns as the log has events and one more, everything has been sent |
| EventStream.LiveReadIsNext | server.py:2681-2691 | a live read that skips nothing continues the log |
| EventStream.ReplayIsNext | server.py:2641-2657 | a durable page continues the log, is empty only at its end, and short only when it reaches it |
| EventStream.BrokerRunIsFaithful | orchestrator/event_broker.py:43-60 | a broker of any size, opened at the end of the log and fed the durable events in order at any pace, gives every reader a run in which each buffer is a stretch of the log |
| StreamLaws.ReplayGivesAll | server.py:2622-2657 | without a broker and with a log at rest that holds nothing below the retained mark, a stream ends with exactly the events above max(0, after), up to a `done` |
| StreamLaws.LiveGivesAll | server.py:2658-2691 | with a broker, once log and broker stand still long enough, a run that skipped nothing has sent exactly the events above max(0, after), up to a `done` |
| StreamLaws.SentIsStretch | server.py:2622-2691 | after any number of turns of a run that skipped nothing, what was sent is the stretch of the log that begins with its first event above max(0, after) |
| StreamLaws.FramesExactly | server.py:2626-2657 | the first frame is a timeline gap, with the retained mark, if and only if max(0, after) is below the mark less one, and no other frame is one; the fatal frame comes if and only if the stream has ended without a broker and without a `done`, and either the task is unknown or nothing was replayed |
| EventCore.SortedLog | orchestrator/event_core.py:207-215 | any shuffle of a complete log sorts back into it |
| EventCore.ProjectionExact | orchestrator/event_core.py:207-229 | projection succeeds if and only if the events are a shuffle of one task's and session's 1..n that fits the given ids |
| EventCore.OrderIrrelevant | orchestrator/event_core.py:207-229 | every permutation of a log projects alike |
| EventCore.ProjectionFacts | orchestrator/event_core.py:83-204 | a projection counts its events, and cancelling or cancelled implies the request flag |
| EventCore.JobLogsSpareTheTask | orchestrator/event_core.py:158-196 | folding any number of job events leaves the task status and flag alone |
| EventCore.FoldAppends | orchestrator/event_core.py:83-96 | folding one more event is applying it to the folded projection |
| EventCore.RebuildIsOneStep | orchestrator/event_core.py:238-247 | the full rebuild in append equals applying the new event to the old projection |
| EventCore.PageIsNext | orchestrator/state_repository.py:3814-3828 | a replayed page is the next stretch of the log, with or without holes, and its last event is the cursor of the next one |
| EventCore.FullExactly | orchestrator/event_core.py:218-221 | sequences up to the cursor fill a log without holes exactly when there are as many as the cursor says |
| EventCore.RebuildSucceeds | orchestrator/event_core.py:249-272 | a task's retained log rebuilds for a session exactly when it runs from 1 without a hole and holds no event of another session |
| EventCore.TaskEventCore.Rebuild | orchestrator/event_core.py:249-272 | the projection of the retained log for every page size, with or without a session, and an error below one; what that projection tells: ProjectionLaws.LogTells |
| EventCore.TaskEventCore.Store | orchestrator/state_repository.py:3698-3776 | a retained id returns its event; a new event takes the sequence behind the cursor or is refused; no hole appears or closes |
| EventCore.TaskEventCore.Append | orchestrator/event_core.py:238-247 | returns exactly when the log runs from 1 without a hole, holds one session and is not shorter than the one of the stored checkpoint; for a new event exactly when nothing was compacted away and the session is the same; then the checkpoint verifies, and no checkpoint is ever replaced by an older one; what the stored checkpoint tells: ProjectionLaws.AppendTells |
| ProjectionLaws.ProjectionTells | orchestrator/event_core.py:83-229 | whatever events project, status, phase, cancellation flag and last error are what the last event of the sorted log that sets them says, by literal kind; each call and job has the record of the last event that names it, each workstream entry what the last event that sets it says, and nothing else is recorded |
| ProjectionLaws.StatusExactly | orchestrator/event_core.py:83-204 | a log projects to a status if and only if its last event that moves the status moves it there, or none does and the status is pending |
| ProjectionLaws.CompletedExactly | orchestrator/event_core.py:175-182 | a log projects to completed if and only if its last status-moving event is `hierarchy_completed` or `task.completed` |
| ProjectionLaws.LogTells | orchestrator/event_core.py:249-272 | the same for a retained log, in its own order |
| ProjectionLaws.AppendTells | orchestrator/event_core.py:238-247 | an append that returns has stored a checkpoint that tells so of the whole log |
| EventCore.TaskEventCore.SaveProjection | orchestrator/state_repository.py:1353-1392 | saves exactly when no projection of a longer log is stored |
| EventCore.RetryAfterCompaction | orchestrator/state_repository.py:1370-1375 | a retried append that raises over a log without a hole and of one session, because retention has shortened it |
| EventCore.ForeignEventStays | orchestrator/event_core.py:238-247 | the event of another session is stored and raises, and the next append of either session raises too |
| EventCore.HoleStays | orchestrator/event_core.py:218-221 | after retention has deleted the only event the next append of the same session raises with its event stored |
| AppendProtocol.RunInv | orchestrator/event_core.py:238-247 | in every interleaving of appends and retention the log stays valid and no checkpoint or pending projection is ahead of the cursor |
| AppendProtocol.CheckpointNeverFalls | orchestrator/state_repository.py:1370-1375 | whatever appends and retention do, the sequence of the stored checkpoint never falls |
| AppendProtocol.AppendsSettle | orchestrator/event_core.py:238-247 | in a run of one session without retention, when all appends have ended the checkpoint is the projection of the whole log, whichever of them raised |
| AppendProtocol.EndedIsShown | orchestrator/event_core.py:238-247 | in such a run the event of every ended append, raised ones too, is in the log and in the checkpoint |
| AppendProtocol.RaisesExactlyWhenOvertaken | orchestrator/event_core.py:238-247 | in such a run an append raises at its save if and only if another one has saved a longer log since its rebuild |
| AppendProtocol.SlowerAppendRaises | orchestrator/event_core.py:238-247 | two concurrent appends of which the slower one raises with its event stored |
| AppendProtocol.SpoiledExactly | orchestrator/event_core.py:207-229 | a log is spoiled exactly when retention has taken an event of it or it holds two sessions |
| AppendProtocol.SpoiledForGood | orchestrator/state_repository.py:4756-4821 | a spoiled log stays spoiled under every append and every further retention |
| AppendProtocol.SpoiledRefuses | orchestrator/event_core.py:238-247 | every later append of a new event to a spoiled log raises, unless retention takes that very event before the rebuild reads the log |
| EventCore.TaskEventCore.Compact | orchestrator/state_repository.py:4756-4821 | keeps terminal events and the newest others within age and number, moves the retained-from mark, leaves other tasks alone, and turns every deletion into a hole |
| RetentionLaws.SurvivesExactly | orchestrator/state_repository.py:4756-4821 | an event survives compaction if and only if its kind is one of the ten kept for ever, or it is not older than the cutoff and fewer than the maximum of such events are newer |
| EventCore.TaskEventCore.VerifyCheckpoint | orchestrator/event_core.py:274-286 | a holding checkpoint verifies, and True means the stored projection is the rebuilt one |
| Artifacts.RerunExactlyWhen | orchestrator/artifact_manager.py:469-528 | stopping between any two copies and starting over raises no conflict if and only if owned staged files present are recorded at their staged digest |
| Artifacts.RerunNeedsCleanDestination | orchestrator/artifact_manager.py:469-528 | starting over after a stop anywhere in the copy loop raises no conflict if and only if no foreign file, such as the temporary one of a killed copy, is left in the destination |
| Artifacts.KilledCopyBlocks | orchestrator/artifact_manager.py:439-459 | an application killed inside its first copy, whose rerun conflicts |
| Artifacts.RerunIsTheSame | orchestrator/artifact_manager.py:637-708 | from any point between two copies the rerun ends with the same destination and the same recorded digests |
| Artifacts.AppliedReconciles | orchestrator/artifact_manager.py:805-878 | a finished application reconciles exactly when no owned destination file was dropped from staging; its staging area always does |
| Artifacts.DroppedFileIsExtra | orchestrator/artifact_manager.py:805-878 | a finished application that reports a file an earlier approval owned as extra |
| ArtifactLaws.ReportsExactly | orchestrator/artifact_manager.py:805-878 | whatever becomes of the destination or the staging area after a finished run, its report names as missing the staged files that are gone, as tampered those with another content, as extra the files nobody staged; it is valid if and only if the staged files are there and nothing else |
| ArtifactLaws.NothingForeignIsChanged | orchestrator/artifact_manager.py:462-528 | however a run ends, no file of the destination is gone, and a changed one stood as it had been approved and now has the staged content; a new file is a staged one, or the temporary of a killed copy |
| Artifacts.Workspace.CopyFile | orchestrator/artifact_manager.py:439-459 | writes only over the expected digest |
| Artifacts.Workspace.Materialize | orchestrator/artifact_manager.py:462-528 | every write hits an absent, owned-at-its-hash or already equal file; errors come before the first copy except a vanished file; a kill between copies or inside one, with its temporary file |
| Artifacts.Workspace.Finalize | orchestrator/artifact_manager.py:622-715 | the outcome, destination and manifest of a run that may be killed before a copy, inside one, or before the manifest write; consistent records stay consistent |
| Artifacts.Workspace.CrashAndRerun | orchestrator/artifact_manager.py:637-708 | a killed run followed by a second one conflicts exactly when the kill came inside a copy, and otherwise ends as an uninterrupted run, failing exactly when an owned file had vanished |
| Artifacts.Workspace.Reconcile | orchestrator/artifact_manager.py:805-878 | the missing, tampered and extra files of the destination or of the staging area |
| Artifacts.Workspace.Approve | orchestrator/artifact_manager.py:531-619 | copies one file safely, keeps the records consistent, and can be repeated after a kill inside the copy or before the manifest write |
| CommandLine.SkipBlanksFrom | server.py:1208-1212 | moves over blanks alone, and up to the first character that is none |
| CommandLine.ReadArgument | server.py:1213-1250 | the position loop reads one argument as the recursive scan does |
| CommandLine.SplitCommandLine | server.py:1204-1253 | the two-level loop computes the recursive splitting |
| CommandLine.ScanEscaped | server.py:1217-1245 | an escaped argument in quotes reads back as itself |
| CommandLine.RoundTrip | server.py:1204-1253 | splitting what the quoter writes returns the argument list, with empty arguments and trailing backslashes |
| CommandLaws.ScanBare | server.py:1213-1250 | an argument without blanks, written without quotes, reads back, its quotes escaped and its last backslashes plain |
| CommandLaws.ScanDoubled | server.py:1228-1240 | inside quotes a quote can be written twice |
| CommandLaws.QuotesOpenInside | server.py:1213-1250 | quotes opened behind bare text continue the same argument |
| CommandLaws.AnyStyleReadsBack | server.py:1204-1253 | however each argument is written, bare, quoted, or quoted with doubled quotes, splitting the command returns the argument list |
| SchemaRelaxation.RelaxedWellFormed | orchestrator/llm_client.py:1254-1300 | relaxing keeps a schema well formed |
| SchemaRelaxation.RelaxedExactly | orchestrator/llm_client.py:1178-1300 | the original schema accepts a value if and only if the relaxed one does and every narrative string is within its original limit |
| SchemaRelaxation.RelaxIdempotent | orchestrator/llm_client.py:1254-1300 | relaxing twice is relaxing once |
| SchemaLaws.TypesExactly | orchestrator/llm_client.py:1160-1185 | which values each of the seven type words admits; a boolean is no number |
| SchemaLaws.ListExactly | orchestrator/llm_client.py:1178-1212 | a list schema accepts exactly the lists within both limits, of accepted items, with no item twice |
| SchemaLaws.ObjectExactly | orchestrator/llm_client.py:1214-1226 | a closed object schema accepts exactly the objects with the required field, declared fields only, and an accepted value in each |
| SchemaLaws.ProseMayBeLong | orchestrator/llm_client.py:1232-1300 | after the relaxation a field takes a text of any length if and only if it is one of the sixteen prose fields; every other keeps its limit |
| SchemaLaws.ProseIsUnlimited | orchestrator/llm_client.py:1254-1300 | below a prose field every length limit is gone, at any depth |
| PatchGrammar.NormalizePatch | orchestrator/llm_client.py:1333-1367 | the cursor loop computes the recursive parse and rendering, or refuses |
| PatchGrammar.ParsedIsSound | orchestrator/llm_client.py:1336-1343 | parsed blocks hold no marker line that would end their part early |
| PatchGrammar.ParseCanonical | orchestrator/llm_client.py:1353-1364 | canonical text parses back to the blocks it was rendered from |
| PatchGrammar.NormalizeIdempotent | orchestrator/llm_client.py:1333-1367 | normalising twice equals normalising once |
| PatchLaws.OpenExactly | orchestrator/llm_client.py:1336-1343 | a line opens a block if and only if it is blanks, four to seven `<`, at least one blank, SEARCH, blanks |
| PatchLaws.MiddleExactly | orchestrator/llm_client.py:1336-1343 | a line is a middle line if and only if it is four to seven `=` with blanks around |
| PatchLaws.ParsesExactly | orchestrator/llm_client.py:1333-1367 | the parser reads these blocks if and only if the lines are laid so: blank lines, an opening line, the search part up to its first middle line, the replacement up to its first closing line, and so on, with nothing but blank lines outside |
| PatchLaws.NormalizesExactly | orchestrator/llm_client.py:1333-1367 | a text is accepted if and only if its lines are laid as one to twenty blocks, and the answer is their canonical text |
| PatchEngine.AppliesExactly | orchestrator/patch_engine.py:178-200 | blocks whose search parts each stand in one place of the text before them are applied there, one after the other; when no search part has a border, no other patch is applied |
| PatchEngine.RecoveredExactly | orchestrator/patch_engine.py:168-171 | the edit pattern recovers the written pairs if and only if no search is empty and no replacement holds the closing marker |
| PatchEngine.OnceCountsOne | orchestrator/patch_engine.py:179-198 | a text that occurs once counts once |
| PatchEngine.CountOneIsUnique | orchestrator/patch_engine.py:179-198 | a count of one means one occurrence, in every file, if and only if the search text has no border |
| PatchEngine.ReplacedBack | orchestrator/patch_engine.py:199-200 | replacing back a replacement that occurs once restores the text |
| PatchEngine.PatchUndone | orchestrator/patch_engine.py:178-200 | a whole patch is undone by its blocks swapped and reversed when each replacement occurs once in the text it leaves |
| PatchEngine.TargetFile.ApplyPatch | orchestrator/patch_engine.py:168-200 | applies all blocks or changes nothing; one occurrence per block |
| Dependencies.DependsOn | orchestrator/hierarchy.py:1370-1385 | true if and only if a non-empty dependency path exists, also on cyclic graphs |
| Dependencies.DependencyClosure | orchestrator/hierarchy.py:1455-1467 | holds exactly the names some dependency path reaches |
| Dependencies.StopStreams | orchestrator/hierarchy.py:3549-3564 | in bounded mode the least set with the rejected streams that is closed under dependents |
| Dependencies.StoppedIsReachability | orchestrator/hierarchy.py:3553-3564 | a stream is stopped if and only if it is rejected or some path leads from it to a rejected one |
| Settlement.SettledExactly | orchestrator/hierarchy.py:5855-5953 | after terminalisation all statuses are terminal, and a stream is approved if and only if it has items and each was approved |
| Settlement.ReportPartitions | orchestrator/hierarchy.py:995-1018 | a report's three lists split the items with none lost or repeated, each in the list of its status |
| Settlement.ReportAgrees | orchestrator/hierarchy.py:1026-1037 | in an uncancelled run a report says completed exactly for an approved stream, and partial exactly when some items were approved |
| Settlement.BarrierExactly | orchestrator/hierarchy.py:3114-3135 | once every Manager has reported, the barrier opens if and only if no Manager was reserved twice, and then each stream has its own report |
| Settlement.SortedListsDecide | orchestrator/hierarchy.py:3114-3135 | comparing the sorted lists decides that no expected Manager is missing, none is extra and none was expected twice |
| Settlement.GateExactly | orchestrator/hierarchy.py:5607-5850 | which of its six verdicts a turn of the integration gate gives, from the fields of the turn |
| Settlement.EndsExactly | orchestrator/hierarchy.py:6060-6127 | completed exactly for an unstopped last turn with passed or unrequired tests, every item of every stream approved, covered, and the Director's approving review; cancelled exactly for a stopped turn, a cancelled stream or both later stop readings; partial exactly for covered work of which some is missing |
| Settlement.ChargedExactly | orchestrator/hierarchy.py:5708-5748 | a stream is charged with a failed run if and only if the run mentions it, or no stream of the plan |
| Settlement.SettledMeans | orchestrator/hierarchy.py:5855-5953 | approved work stays approved, attempted work is abandoned, the rest is skipped; a stream is approved exactly when it has items and all are |
| Settlement.RestingStays | orchestrator/hierarchy.py:5406-5591 | frame fact: if the workers of a batch write only their own streams' items, no number of scheduling passes, stopped, blocked or run in batches, touches a stream that is approved with approved items |
| Settlement.UnchargedWorkStays | orchestrator/hierarchy.py:5708-5843 | frame fact under the same assumption: approved work that no failed turn is charged to survives every remediation |
| Settlement.GivenUpStreamCompletes | orchestrator/hierarchy.py:5562-5591 | a run of the settlement that completes although one stream was given up without its Manager's approval |
| Settlement.ExhaustedLeavesWork | orchestrator/hierarchy.py:5749-5808 | an integration failure that is not remedied leaves at least one stream not approved |
| Settlement.BuildReport | orchestrator/hierarchy.py:983-1037 | fills the report lists and its status from the item statuses |
| Settlement.Settlement.Mark | orchestrator/hierarchy.py:5708-5843 | marks exactly the charged streams and their items |
| Settlement.Settlement.RunGate | orchestrator/hierarchy.py:5607-5850 | ends at the first turn that is not retried: every earlier turn had approved work, was not stopped, failed its required tests and was granted remediation; the gate is open if and only if the last turn had approved work and integration was not required or its tests passed; cancelled if and only if it was stopped or a stream was cancelled |
| Settlement.Settlement.Terminalise | orchestrator/hierarchy.py:5855-5953 | settles every item of the plan and derives each stream's status |
| Settlement.Settlement.SettleManager | orchestrator/hierarchy.py:3004-3086 | one report per Manager: an existing one is returned unchanged |
| Settlement.Settlement.SettleAll | orchestrator/hierarchy.py:5967-5983 | exactly the plan's Managers report |
| Settlement.Settlement.ReportBarrier | orchestrator/hierarchy.py:3114-3140 | satisfied exactly when every expected Manager reported, no other did, and none was expected twice |
| Settlement.Settlement.Conclude | orchestrator/hierarchy.py:5607-6127 | the stored status of a whole run, from the fields of its last turn: completed, partial, failed and cancelled each if and only if; completed needs tests that passed unless integration was not required; one Director review exactly when not stopped; every report splits its stream's items, also in a cancelled run, and tells how they ended |

## Left out

- HTTP endpoints, sessions, model calls, retry and account handling, prompts, transcripts, metrics: not protocol state.
- SQLite: a transaction is one atomic step; `delete`, `get`, `list` and event emission after commit are not modelled.
- Threads of the hierarchy: a batch of workers may end with any statuses of its own streams and items.
- Settlement.RestingStays: assumes that `execute_stream` (`orchestrator/hierarchy.py:4798-5400`) writes the statuses of the given stream's items only.
- Settlement.UnchargedWorkStays: rests on the same assumption about a batch of workers.
- IsoTime.SqlOrderIsTimeOrder: offsets are whole minutes below a day, and lease lengths round as exact reals, not as binary floats.
- Jobs.DurableJobQueue.EnqueueJob: payloads and results are opaque texts; that a value serialises as JSON is assumed.
- Restore.Disk.Replace: symbolic links are left out, and of the mode only the write bit may change; a process that dies during the swap is not covered.
- Restore.Disk.PrepareAll: a partly removed workspace counts as removed; the target's parent directories exist.
- Bundle.Validate: all refusals are one error; ZIP encoding, JSON and SHA-256 are an archive value, a parsed manifest and an injective digest; ratios compare exactly instead of as floats.
- Bundle.CheckMembers: the size of the archive file on disk (`orchestrator/backup.py:200-202`) is checked apart from the members and not modelled.
- Bundle.Create: members come in an arbitrary order instead of sorted, and copying the databases is not modelled; empty directories are not archived.
- BackupCycle.RestoreBackup: every restored entry gets one mode, workspace names are new, and the staging directory does not overlap the targets.
- EventBroker.ReplayEventBroker.constructor: the refusal of a buffer size below one is a precondition; event fields other than kind, durable sequence and body are not modelled.
- EventStream.StreamOutput: a finite number of turns is observed; a log may have been compacted before, not during a stream.
- EventCore.TaskEventCore.Store: validation of the payload schema and the deletion of a whole task are left out.
- AppendProtocol.RunInv: one task; the pages of a rebuild are read at one moment; a refused store is no step.
- EventCore.TaskEventCore.Compact: one task at a time, with the limits it is called with.
- Artifacts.Workspace.Materialize: no one else writes to the destination between the check and the copies; a temporary name is nobody else's; the secret scan and the ZIP are left out.
- SchemaRelaxation.RelaxedExactly: enum values are scalars, and a schema uses the keywords the validator reads.
- PatchGrammar.NormalizePatch: texts hold no carriage return.
- PatchEngine.TargetFile.ApplyPatch: the new-file pattern, path checks, decoding and line-ending restoration are left out.
- Settlement.Settlement.RunGate: which streams a failed test run mentions, and whether remediation is granted, are inputs of a turn; evidence, events and account release are left out.
- Settlement.Settlement.Conclude: completion reconciliation is an input, and the review context is not modelled.
- Settlement.BarrierExactly: covers streams that carry no Manager or the reserved one, as planning sets them.
- `wait_after` timeouts, `drain` timeouts and `deepcopy` of events: a wait ends at any moment with the predicate's value.
- `scheduler`, `retry_policy`, `plugin_registry`, `lifecycle`, `execution`: thin drivers with one-branch facts.
