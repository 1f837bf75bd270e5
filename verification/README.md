# Verified model of SnipeSpotter

SnipeSpotter is a Windows service that discovers a computer and its monitors, plans changes to a Snipe-IT
inventory, carries them out, and records every remote change in a crash-safe journal. This project models
the parts that have to be right in every interleaving and after every crash, and proves what they promise:

- **The operation journal** (`OperationLog`, `Compaction`, `JournalExecution`, `JournalBytes`, `JournalDirectory`,
  `JournalRuns`, `JournalClient`). The records and their reconstruction with a shifting index map, compaction, the
  records of executing operations, the newline-framed bytes and the verdict on them, quarantine and the sticky blocked
  marker in a directory, whole runs of recovery, append, compaction and crash, and a client that recovers before it
  writes. The record codec is a parameter with three properties (`JournalBytes.Codec.Valid`); `CodecWitness` shows that
  they can be had.
- **The command loop, the scheduler and the published status** (`CommandLoop`, `Scheduler`, `Status`), as
  interleaved steps of submitters, queue, loop, timer, publisher and readers, with the methods that take those steps.
- **Planning** (`SerialOrder`, `OrderedMap`, `Monitors`, `MonitorDiff`, `Planner`, `PlanConvergence`, `PlanRuns`,
  `PlanJournal`): the difference between a discovery and the stored monitors, the plan, convergence, whole runs of
  plans, and the plan's operations as journal records.
- **Atomic file replacement** (`TempNames`, `AtomicWriters`, `AtomicSafety`, `AtomicHolders`, `AtomicFolder`): the
  names that carry ownership, an interleaving of many writers with crashes and sweeps, one write without
  interference, and the recovery sweep.
- **SMBIOS** (`Smbios`, `SmbiosRoundTrip`, `FixtureValidator`): the parser, its round trip over tables in the format of
  DMTF DSP0134, and the second walker in Python with its agreement with the first.

`Wrappers`, `Bytes`, `Decimal` and `Whitespace` hold what these share.

A method that loops or changes fields is proved equal to a specification function; the lemmas are about those
functions. The protocols are step relations, and their theorems are about every state of every run.

## Where the code and its promises differ

- A failed atomic write removes its temporary file **by name**, also after the rename has given that name up, and a
  failed sidecar creation removes a sidecar by name that it did not create. `docs/architecture.md` says that a failed
  call removes only its own files. When writers of one process draw the same nonce, this removes another writer's file:
  `AtomicHolders.ClobberEmptiesDestination` ends with an empty destination and `AtomicHolders.ClobberSharesSidecar`
  with two holders of one sidecar. `AtomicHolders.TemporariesInPlaceIff` and `AtomicHolders.SidecarsInPlaceIff` give the
  exact condition on a run, on the guard of those two cleanups, and `AtomicHolders.DistinctNamesSuffice` a simple
  sufficient one.
- A submitter that is cancelled while it waits for queue space clears the claim, and a caller that joined its
  synchronization keeps waiting with nothing in flight (`CommandLoop.CancelledSenderStrandsWaiter`;
  `CommandLoop.WaiterServedIffNotAbandoned` says exactly when).
- A normalising replacement of the journal that cannot be flushed is reported as failed although it has happened,
  while `docs/architecture.md` says that a failed replacement keeps the original untouched.
  `JournalRuns.RecoveryKeepsJournal` gives the exact condition on the directory and its faults, and
  `JournalRuns.UnflushedNormalizationLooksFailed` such a directory; the exact original is in quarantine then.
- A verdict of an incomplete suffix does not look at the phases of the records before it
  (spotter-svc/src/operation_journal.rs:168-177), while `docs/operator-guide.md` and `docs/architecture.md` promise a
  valid prefix. `JournalBytes.IncompleteMeansSuffix` says what the verdict does mean, in both directions,
  `JournalBytes.PrefixIsValidIffInOrder` when the prefix is valid, and `JournalBytes.SuffixHidesPhases` and
  `CodecWitness.IncompleteBehindBadPhases` show journals where it is not.
- Operation identifiers do not contain the generation of the synchronization that made them, so they are distinct
  within one plan (`PlanJournal.PlanIsFresh`) and recur in later ones. `prepare` appends without looking at the journal
  (spotter-svc/src/sync_engine.rs:481-504), and a recovery with nothing pending returns before it compacts
  (spotter-svc/src/service.rs:876-879), so commits that a failed compaction left stay in the journal. An operation that
  recurs then is appended behind its own commit, and no later recovery reads that journal again:
  `JournalClient.AppendRecoverableIff` gives the exact condition for one record, `PlanJournal.PlanExecutionAcceptedIff`
  for a whole plan, `JournalClient.RuinedForever` the consequence, and `JournalClient.RecurringOperationRuins` a run
  that ends so. A successful compaction prevents it (`Compaction.CompactionForgetsCommits`).
- An unwrapped SMBIOS table whose bytes 4 to 7 hold a small number is taken for a wrapped one
  (`SmbiosRoundTrip.TableMistakenForWrapper`).

## Model

| member | source | states |
|---|---|---|
| OperationLog.AcceptedIffEachOperationInOrder | spotter-svc/src/operation_journal.rs:688-749 | a journal is accepted if and only if every operation's own records are a prefix of prepared, outcome, commit (a legacy confirmation counts as commit) |
| OperationLog.RejectionNamesFirstBadRecord | spotter-svc/src/operation_journal.rs:694-746 | a rejection is for the first record out of order and names what that operation had reached |
| OperationLog.PendingIsUncommitted | spotter-svc/src/operation_journal.rs:688-749 | the reconstructed list is every prepared and uncommitted operation, in order of preparation, with its recorded evidence |
| OperationLog.ShiftAbove | spotter-svc/src/operation_journal.rs:736-742 | the loop that moves every index above a removed position down by one, and no other |
| OperationLog.RemovalKeepsValid | spotter-svc/src/operation_journal.rs:728-744 | after a removal the index map is again a bijection onto the positions of the pending list, disjoint from the terminal identifiers |
| OperationLog.Prepare | spotter-svc/src/operation_journal.rs:694-712 | the branch for a prepared record refines one step of the fold and keeps the index map valid |
| OperationLog.RecordOutcome | spotter-svc/src/operation_journal.rs:713-727 | the branch for an observed outcome refines one step of the fold and keeps the index map valid |
| OperationLog.Commit | spotter-svc/src/operation_journal.rs:728-746 | the branch for a commit or confirmation refines one step of the fold and keeps the index map valid |
| OperationLog.PendingWithEvidence | spotter-svc/src/operation_journal.rs:688-749 | the reconstruction loop with the shifting index map computes the order-preserving fold |
| Compaction.ReplayCompacted | spotter-svc/src/operation_journal.rs:759-788 | a compacted journal reconstructs exactly the list that it was made from |
| Compaction.CompactionSimulates | spotter-svc/src/operation_journal.rs:759-788 | for every suffix: the whole journal goes on validly if and only if the compacted one does and the suffix prepares no committed operation again; then both have the same pending operations, order and evidence |
| Compaction.CompactionIsIdempotent | spotter-svc/src/operation_journal.rs:759-788 | compacting a compacted journal changes nothing |
| Compaction.CompactionForgetsCommits | spotter-svc/src/operation_journal.rs:696-702 | preparing a committed operation again is refused by every journal that holds the commit and accepted by every compacted one |
| JournalBytes.ClassifyBytes | spotter-svc/src/operation_journal.rs:135-199 | the classifier loop gives the specified verdict on arbitrary bytes and asks for a newline exactly when a clean journal lacks it |
| JournalBytes.CleanMeansDenoted | spotter-svc/src/operation_journal.rs:135-199 | clean means, in both directions, that the bytes (with the newline they may lack) hold exactly those records with their phases in order |
| JournalBytes.IncompleteMeansSuffix | spotter-svc/src/operation_journal.rs:150-177 | an incomplete suffix means, in both directions, that whole lines holding that many records are followed by the beginning of one more |
| JournalBytes.PrefixIsValidIffInOrder | spotter-svc/src/operation_journal.rs:168-177 | the prefix before an incomplete suffix is itself a clean journal if and only if every operation's records in it are in order |
| JournalBytes.SuffixHidesPhases | spotter-svc/src/operation_journal.rs:168-177 | every journal of records out of order is judged incomplete, no longer corrupt, once the beginning of any record follows it |
| JournalBytes.CutAppend | spotter-svc/src/operation_journal.rs:135-199 | an append cut at any byte leaves the old records, the old records and the new one, or an incomplete suffix with the exact count, never another verdict |
| JournalBytes.NormalizingSettles | spotter-svc/src/operation_journal.rs:309-349 | adding the missing newline keeps the verdict and asks for nothing more |
| JournalBytes.AppendDenotes | spotter-svc/src/operation_journal.rs:649-664 | a completed append adds exactly its record |
| JournalBytes.FrameDenotes | spotter-svc/src/operation_journal.rs:759-788 | bytes written record by record hold exactly those records |
| CodecWitness.CodecExists | spotter-svc/src/operation_journal.rs:100-118 | the three properties assumed of the record codec can be met by one codec for all records |
| CodecWitness.IncompleteBehindBadPhases | spotter-svc/src/operation_journal.rs:168-177 | a journal of one commit without preparation, and one byte that makes it incomplete instead of corrupt |
| JournalDirectory.Journal.WriteQuarantine | spotter-svc/src/operation_journal.rs:390-431 | up to 64 names are tried, an existing file is never overwritten, and the whole new directory is stated |
| JournalDirectory.Journal.PreserveNonClean | spotter-svc/src/operation_journal.rs:351-388 | what is written, in which order, for each verdict that is not clean, with every failure |
| JournalDirectory.Journal.Recover | spotter-svc/src/operation_journal.rs:274-349 | recovery with marker check, read, classification, quarantine and normalisation refines its specification on the directory |
| JournalDirectory.Journal.Append | spotter-svc/src/operation_journal.rs:649-664 | an append refuses behind a marker and otherwise adds one line, or a prefix of it when cut |
| JournalDirectory.Journal.CompactedBytes | spotter-svc/src/operation_journal.rs:764-786 | the loop that writes evidence records yields the framing of the compacted records |
| JournalDirectory.Journal.Compact | spotter-svc/src/operation_journal.rs:759-788 | compaction refuses behind a marker or an invalid journal and otherwise replaces the journal by the compacted records |
| JournalDirectory.Journal.GuardRemoteIdentityChange | spotter-svc/src/operation_journal.rs:603-640 | settings that identify remote operations may change exactly when they stay the same or recovery is clean and nothing is pending |
| JournalRuns.BlockedForever | spotter-svc/src/operation_journal.rs:274-288 | once the marker exists, no later step changes any file, recovers records, appends or compacts |
| JournalRuns.RecoveryKeepsJournal | spotter-svc/src/operation_journal.rs:309-388 | a recovery leaves the journal bytes alone or adds the one newline, and it adds it without returning records if and only if a clean journal that lacks it is set aside and replaced but not flushed |
| JournalRuns.UnflushedNormalizationLooksFailed | spotter-svc/src/operation_journal.rs:334-342 | a journal of one unterminated record that a failed recovery has changed |
| JournalRuns.RecoveryKeepsEvidence | spotter-svc/src/operation_journal.rs:351-431 | before the journal changes, and whenever something is wrong with it, its exact bytes are in a quarantine file |
| JournalRuns.OtherFilesFrozen | spotter-svc/src/operation_journal.rs:390-464 | no step changes or removes any file but the journal |
| JournalRuns.EvidenceSurvives | spotter-svc/src/operation_journal.rs:390-431 | bytes once kept in quarantine stay there for the rest of every run |
| JournalRuns.RecoveringAgain | spotter-svc/src/operation_journal.rs:274-349 | after a recovery that returned records, recovering again leaves every file alone and returns the same records |
| JournalClient.NothingPendingIsLost | spotter-svc/src/operation_journal.rs:274-388 | over every run of a client that recovers before it writes, with any records, faults and crashes: every clean recovery finds exactly the pending operations (with or without the one in flight), and a journal is corrupt only by its phases and only after a record out of order |
| JournalClient.EmptyDirectoryStarts | spotter-svc/src/operation_journal.rs:274-308 | a directory without journal and marker satisfies the invariant of those runs |
| JournalClient.AppendRecoverableIff | spotter-svc/src/sync_engine.rs:481-522 | an appended record can be recovered if and only if it is the next phase of its operation in the recovered journal; otherwise the journal is ruined |
| JournalClient.RuinedForever | spotter-svc/src/operation_journal.rs:289-388 | once a journal is ruined no later step of the run recovers or compacts it |
| JournalClient.RecurringOperationRuins | spotter-svc/src/service.rs:876-879 | a run from an empty directory in which an operation recurs after its compaction failed, and the next recovery finds the journal corrupt |
| CommandLoop.InvariantAlways | spotter-svc/src/fsm.rs:145-216 | in every reachable state at most one synchronization is sent, queued or executed, and the claim names a generation exactly if it has a live owner; generations are ordered and accounted for |
| CommandLoop.OwnerPersists | spotter-svc/src/fsm.rs:44-60 | a generation has an owner after a step only if it had one before or has just been claimed |
| CommandLoop.WaiterReleasedByLaterCompletion | spotter-svc/src/fsm.rs:249-263 | a joined waiter is released only by a completion published after it joined, of its generation or a later one, which was not complete when it joined |
| CommandLoop.ResponseFollowsCompletion | spotter-svc/src/fsm.rs:303-321 | the response to an accepted synchronization is sent only after its generation is published |
| CommandLoop.WaiterServedIffNotAbandoned | spotter-svc/src/fsm.rs:44-60 | an unreleased waiter still has someone working for its generation exactly if that generation's sender was not cancelled |
| CommandLoop.CancelledSenderStrandsWaiter | spotter-svc/src/fsm.rs:186-216 | a run in which a cancelled sender leaves a joined waiter with nothing in flight and only a new claim able to help |
| CommandLoop.Service.BeginSync | spotter-svc/src/fsm.rs:154-184 | claims a fresh generation or joins the claimed one, always above the last published one |
| CommandLoop.Service.TrySend | spotter-svc/src/fsm.rs:186-216 | the request enters the queue exactly when there is space, which disarms the guard |
| CommandLoop.Service.CancelSend | spotter-svc/src/fsm.rs:44-60 | dropping the sender clears the claim |
| CommandLoop.Service.ReceiveRequest | spotter-svc/src/fsm.rs:303-306 | the loop takes the oldest request and runs its handler |
| CommandLoop.Service.ClearAfterHandler | spotter-svc/src/fsm.rs:306-315 | a finished synchronization clears its claim before it publishes |
| CommandLoop.Service.PublishCompletion | spotter-svc/src/fsm.rs:316-318 | published generations strictly increase |
| CommandLoop.Service.SendResponse | spotter-svc/src/fsm.rs:319-321 | the caller is answered after publication |
| CommandLoop.Service.ServeNext | spotter-svc/src/fsm.rs:303-321 | one whole round: the oldest request is taken, a synchronization gives up its claim and publishes, the caller is answered |
| CommandLoop.Service.ServeAll | spotter-svc/src/fsm.rs:303-321 | the loop until its queue is empty: the queued generations are published in order, exactly the queued callers are answered, and every waiter can be let go unless its generation was given up or its sender still waits for space |
| Status.ProjectStatus | spotter-svc/src/status.rs:64-91 | everything published is carried over, a brief response leaves out the assets, and a deadline is shown exactly if there is one for the status's own configuration |
| Scheduler.ProjectNextSync | spotter-svc/src/scheduler.rs:52-68 | a deadline exists exactly for a configured, nonzero interval observed in force, one interval after completion |
| Scheduler.InvariantAlways | spotter-svc/src/scheduler.rs:117-242 | every input, arming, schedule and submission of every run comes from an activation, and submissions are spaced |
| Scheduler.SubmissionsAreSpaced | spotter-svc/src/scheduler.rs:117-242 | an automatic submission comes at least the armed interval after its activation and after the previous automatic target completed, with no catch-up |
| Scheduler.TornReadIsTruthful | spotter-svc/src/fsm.rs:91-131 | status and schedule read at different moments never show a next synchronization from another activation than the status carries, nor one while a submission is outstanding |
| Scheduler.Task.ActivateConfiguration | spotter-svc/src/status_publisher.rs:123-134 | advances the generation by one and replaces the scheduler input |
| Scheduler.Task.Publish | spotter-svc/src/status_publisher.rs:83-104 | publishes the status under the generation in force |
| Scheduler.Task.PublishStartupActivation | spotter-svc/src/status_publisher.rs:106-121 | first activation and first status carry the same generation |
| Scheduler.Task.ArmFromInput | spotter-svc/src/scheduler.rs:117-176 | arming and publishing the schedule from the current input |
| Scheduler.Task.Poll | spotter-svc/src/scheduler.rs:152-196 | an input change wins over an expired deadline; nothing else wakes the task |
| Scheduler.Task.Enqueued | spotter-svc/src/scheduler.rs:196-226 | an accepted or joined submission fixes the target to wait for |
| Scheduler.Task.ObserveCompletion | spotter-svc/src/scheduler.rs:226-242 | the next arming counts from the observed completion of the target |
| Scheduler.CycleCatchesNothingUp | spotter-svc/src/scheduler.rs:168-222 | over one whole automatic synchronization, however late, the submission is recorded and the next deadline counts from its end by the configuration then in force |
| Scheduler.Task.AutomaticCycle | spotter-svc/src/scheduler.rs:168-222 | the task's own methods, with the clock, the publisher and the loop in between, carry out that cycle and keep the invariant |
| OrderedMap.SameLookupsSameList | spotter-core/src/monitors.rs:119-130 | two ascending lists with the same lookups are the same list |
| OrderedMap.SortedIsMap | spotter-core/src/monitors.rs:165-165 | sorting entries with distinct serials yields the ordered map of the same entries |
| OrderedMap.SortBy | spotter-core/src/monitors.rs:100-118 | the stable insertion sort that stands for the library's sort |
| Monitors.DiffMonitors | spotter-core/src/monitors.rs:95-174 | the sort, the two collections and the two pushing loops compute the specified difference |
| Monitors.ApplyForcedCheckinSerials | spotter-core/src/monitors.rs:76-87 | exactly the named entries are checked in, in place |
| Monitors.ForcedChecksIn | spotter-core/src/monitors.rs:47-60 | forcing changes nothing but the checked-out flag of the named serials and leaves none of them eligible |
| MonitorDiff.DiffIsCorrect | spotter-core/src/monitors.rs:95-174 | the four lists are ascending by serial and agree, serial by serial, with the map-level merge; each discovered serial is represented by its smallest record |
| MonitorDiff.DiffIsDetermined | spotter-core/src/monitors.rs:95-174 | that description has only one solution |
| MonitorDiff.DiffDependsOnSet | spotter-core/src/monitors.rs:90-130 | the difference depends only on the set of discovered records, not on order or repetition |
| MonitorDiff.DiffPartitions | spotter-core/src/monitors.rs:132-164 | new, unchanged and removed serials partition the discovered and stored ones, and the next state lists exactly their union |
| MonitorDiff.SmallestIsSmallest | spotter-core/src/monitors.rs:100-124 | the representative of a serial is its smallest complete record in the order of the sort key |
| PlanConvergence.DuplicatesAreRepeated | spotter-core/src/sync.rs:203-216 | a serial suppresses changes exactly if it is discovered more than once |
| Planner.DuplicateSerialsWithWarnings | spotter-core/src/sync.rs:203-229 | the counting loops yield the duplicated serials in order and their warnings |
| Planner.WarnOfDuplicates | spotter-core/src/sync.rs:217-227 | at most sixteen serials are named, the others counted |
| Planner.DecideCheckout | spotter-core/src/sync.rs:91-128 | for each discovered monitor: skipped, warned about, stopped at, or checked out |
| Planner.PlanCheckouts | spotter-core/src/sync.rs:89-128 | the loop with its continues and its break emits the decided check-outs and warnings in order |
| Planner.PlanCheckins | spotter-core/src/sync.rs:130-152 | the loop over removed monitors emits the due check-ins, only for non-portable chassis and the automatic policy |
| Planner.ApplyPlannedMonitorState | spotter-core/src/sync.rs:172-201 | every entry takes its planned asset first and then the flags of the operations on that asset |
| Planner.PlanSystemUpdate | spotter-core/src/sync.rs:231-267 | the patch holds exactly the differing fields, and is absent when there are none, no asset or no taxonomy |
| Planner.PlanSync | spotter-core/src/sync.rs:70-170 | the whole plan equals its specification |
| PlanConvergence.NextIsPredicted | spotter-core/src/sync.rs:154-201 | the next state lists, in order of serial, the merged entry of every serial with the plan's operations applied |
| PlanConvergence.PredictionIsStable | spotter-core/src/sync.rs:154-162 | the difference between the same discovery and the predicted state changes nothing |
| PlanConvergence.EmitsIff | spotter-core/src/sync.rs:91-128 | a discovered monitor is checked out exactly if it is movable and not checked out already |
| PlanConvergence.ReturnsIff | spotter-core/src/sync.rs:130-152 | an absent monitor is checked in exactly if it is due, checked out and mapped |
| PlanConvergence.NoSecondCheckout | spotter-core/src/sync.rs:91-128 | without a conflict over an asset no discovered monitor is checked out again from the predicted state |
| PlanConvergence.NoSecondCheckin | spotter-core/src/sync.rs:130-152 | without a conflict over an asset no absent monitor is checked in again from the predicted state |
| PlanConvergence.ConvergesIff | spotter-core/src/sync.rs:70-201 | with distinct stored serials, planning again at the same instant asks for nothing and predicts the same state if and only if no absent monitor that is due shares its asset with a discovered one that the plan would move |
| PlanConvergence.Converges | spotter-core/src/sync.rs:70-201 | in particular it converges when assets do not alias between absent and discovered monitors |
| PlanConvergence.ConflictRepeats | spotter-core/src/sync.rs:172-201 | every such shared asset makes the second plan check something out or in again |
| PlanRuns.SyncStep | spotter-core/src/monitors.rs:133-165 | what one plan makes of the absence of any serial |
| PlanRuns.KnownIffEverDiscovered | spotter-core/src/monitors.rs:133-165 | over every run of plans and forced check-ins, a serial is stored exactly if some plan discovered it |
| PlanRuns.AbsenceIsTold | spotter-core/src/monitors.rs:133-165 | the absence instant is that of the first plan behind the last discovery, stays fixed, and every plan since then missed the serial |
| PlanRuns.CheckinNeedsContinuousAbsence | spotter-core/src/sync.rs:130-152 | every automatic check-in is for a checked-out serial that all plans since its absence instant missed, and at least the threshold has passed |
| PlanJournal.CheckoutIdsDiffer | spotter-core/src/sync.rs:123-127 | equal check-out identifiers have equal source, target and status |
| PlanJournal.CheckinIdsDiffer | spotter-core/src/sync.rs:144-149 | equal check-in identifiers have equal source and status |
| PlanJournal.PlanIsCollisionFree | spotter-core/src/sync.rs:91-152 | without aliasing assets one plan names no asset twice and uses no identifier twice, across check-outs and check-ins |
| PlanJournal.PatchIdsDiffer | spotter-svc/src/sync_engine.rs:214-215 | equal patch identifiers have equal asset and equal request text |
| PlanJournal.PlanIsFresh | spotter-svc/src/sync_engine.rs:303-327 | without aliasing assets the identifiers of patch, check-outs and check-ins of one plan are distinct, so the check for duplicates never refuses it |
| PlanJournal.PlanMeetsJournal | spotter-svc/src/operation_journal.rs:694-712 | the first records of one plan's operations are accepted by an empty journal, which then holds exactly them as pending, in order |
| JournalExecution.ExecutionAcceptedIff | spotter-svc/src/operation_journal.rs:688-749 | executing operations behind any accepted journal is accepted if and only if the journal names none of them, and leaves pending exactly what was pending before |
| PlanJournal.PlanExecutionAcceptedIff | spotter-svc/src/sync_engine.rs:196-300 | executing one plan behind a journal with nothing pending is accepted, after every record, if and only if none of its identifiers is among the commits in that journal; then nothing is pending |
| JournalExecution.RecurringOperationsAreRefused | spotter-svc/src/operation_journal.rs:696-702 | operations executed twice without a compaction in between are refused at the first record of the second time, and accepted behind the compacted journal |
| TempNames.TemporaryNameParses | spotter-svc/src/atomic_file.rs:450-472 | printing and parsing a temporary name are inverse for every destination name, also one that contains the mark |
| TempNames.TemporaryNameIsInjective | spotter-svc/src/atomic_file.rs:450-454 | a temporary name belongs to one destination, process and nonce |
| TempNames.SidecarOfTemporary | spotter-svc/src/atomic_file.rs:456-480 | stripping the sidecar suffix recovers the temporary name, exactly when that name is one |
| TempNames.NeverBoth | spotter-svc/src/atomic_file.rs:462-480 | no name is both a temporary file and a sidecar |
| AtomicSafety.StepKeeps | spotter-svc/src/atomic_file.rs:288-333 | every step of every writer, crash and sweep keeps the safety invariant unless it removes another writer's temporary file after a late failure |
| AtomicSafety.DestinationsAreWhole | spotter-svc/src/atomic_file.rs:288-333 | in every such interleaving an ordinary name holds its initial bytes or one writer's complete payload, and never disappears |
| AtomicSafety.OnlyOwnerFills | spotter-svc/src/atomic_file.rs:383-425 | an open handle is the writer's own file, and no other active writer owns it |
| AtomicHolders.HolderIsUnique | spotter-svc/src/atomic_file.rs:383-431 | at most one active writer holds the sidecar of a temporary name, and it is in place meanwhile |
| AtomicHolders.TemporariesInPlaceIff | spotter-svc/src/atomic_file.rs:320-323 | own temporary files stay in place in all states of a run if and only if no late cleanup removes another active writer's |
| AtomicHolders.SidecarsInPlaceIff | spotter-svc/src/atomic_file.rs:408-414 | own sidecars stay in place in all states of a run if and only if no failed creation removes another active writer's |
| AtomicHolders.DistinctNamesSuffice | spotter-svc/src/atomic_file.rs:433-439 | as long as no two active writers share destination, process and nonce, both conditions hold |
| AtomicHolders.ClobberEmptiesDestination | spotter-svc/src/atomic_file.rs:320-323 | otherwise three writers can leave any destination empty, whatever the initial bytes and the payload |
| AtomicHolders.ClobberSharesSidecar | spotter-svc/src/atomic_file.rs:408-414 | otherwise two active writers can hold sidecars of one temporary name |
| AtomicFolder.Folder.TryIdentity | spotter-svc/src/atomic_file.rs:386-423 | one attempt makes both files or leaves everything as it was, up to names that resist removal |
| AtomicFolder.Folder.CreateTemporaryIdentity | spotter-svc/src/atomic_file.rs:383-425 | up to sixteen attempts, with the identity that was free |
| AtomicFolder.Folder.FillAndReplace | spotter-svc/src/atomic_file.rs:297-333 | filling, replacing and cleaning up: the destination keeps its file or gets the whole payload |
| AtomicFolder.Folder.Write | spotter-svc/src/atomic_file.rs:288-333 | one write without interference is old-or-new, changes nothing else, and leaves nothing behind when removals succeed |
| AtomicFolder.Folder.OrphanIsStale | spotter-svc/src/atomic_file.rs:549-577 | the checks of the first pass on one entry |
| AtomicFolder.Folder.SweepSidecars | spotter-svc/src/atomic_file.rs:547-582 | the first pass removes exactly the stale orphan sidecars |
| AtomicFolder.Folder.TemporaryIsStale | spotter-svc/src/atomic_file.rs:584-612 | the checks of the second pass on one entry |
| AtomicFolder.Folder.SweepTemporaries | spotter-svc/src/atomic_file.rs:584-624 | the second pass removes exactly the stale temporary files with their sidecars |
| AtomicFolder.Folder.RecoverStaleTemporaryFiles | spotter-svc/src/atomic_file.rs:533-626 | a sweep removes exactly the stale names and counts them; if a removal fails, nothing but stale names is gone |
| AtomicFolder.StaleIsAbandoned | spotter-svc/src/atomic_file.rs:533-626 | everything that a sweep removes has a name that parses, a dead foreign owner, sufficient age and a sidecar that matches |
| AtomicFolder.SweepIsAStep | spotter-svc/src/atomic_file.rs:533-626 | every removal of a sweep is a sweep step of the interleaving model |
| AtomicFolder.SweptIsClean | spotter-svc/src/atomic_file.rs:533-626 | an immediate second sweep finds nothing |
| Smbios.FindStringsEnd | spotter-core/src/smbios.rs:138-150 | the loop finds the first two zero bytes at or after the start, in bounds |
| Smbios.StringsEnd | spotter-core/src/smbios.rs:138-150 | the end found is behind the first two zero bytes, and none is found exactly when there are none |
| Smbios.StructureAt | spotter-core/src/smbios.rs:71-91 | a structure read in place has a consistent length and ends strictly behind its start, within the table |
| Smbios.ReadStructure | spotter-core/src/smbios.rs:71-91 | one round of the loop up to the string set |
| Smbios.AbsorbStructure | spotter-core/src/smbios.rs:93-114 | the branches for types 1, 2 and 3 in place |
| Smbios.ParseSmbiosTables | spotter-core/src/smbios.rs:63-126 | the parsing loop on arbitrary bytes: in bounds, strictly increasing offset, equal to its specification |
| SmbiosRoundTrip.StructureReadBack | spotter-core/src/smbios.rs:71-91 | wherever a written structure stands, it is read back with its strings |
| SmbiosRoundTrip.IndexedStringOfSet | spotter-core/src/smbios.rs:152-161 | a string number read from a written string set gives that string |
| SmbiosRoundTrip.AbsorbDescribes | spotter-core/src/smbios.rs:93-114 | a structure read back says what it was written to say |
| SmbiosRoundTrip.RoundTrip | spotter-core/src/smbios.rs:63-126 | parsing a written table folds its structures up to the end-of-table structure, unless its first bytes look like a wrapper |
| SmbiosRoundTrip.WrappedRoundTrip | spotter-core/src/smbios.rs:128-136 | a wrapped table of major version two or later is always read through its wrapper, whatever bytes follow it |
| SmbiosRoundTrip.PayloadIffWraps | spotter-core/src/smbios.rs:128-136 | something else than the whole buffer is taken for the table exactly when the buffer is a header followed by that table, of the declared length, and any bytes |
| SmbiosRoundTrip.TableMistakenForWrapper | spotter-core/src/smbios.rs:128-136 | a family of tables that are taken for wrapped ones and rejected whatever follows |
| FixtureValidator.Bounded | scripts/hardware/validate_physical_fixture.py:46-56 | the loop with its early break keeps exactly the bounded report |
| FixtureValidator.NothingKeptIffNothingListed | scripts/hardware/validate_physical_fixture.py:46-56 | bounding yields an empty report exactly when no fixed category occurs |
| FixtureValidator.KeptIsBounded | scripts/hardware/validate_physical_fixture.py:46-56 | a report has at most sixteen entries, in alphabetical order, none more than twice |
| FixtureValidator.LookAtStructure | scripts/hardware/validate_physical_fixture.py:90-111 | one round of the walk with its findings |
| FixtureValidator.WalkStructures | scripts/hardware/validate_physical_fixture.py:86-115 | the walking loop with its guard on the number of errors |
| FixtureValidator.ValidateSmbios | scripts/hardware/validate_physical_fixture.py:76-117 | the validator equals its specification on arbitrary bytes |
| FixtureValidator.SameStructures | scripts/hardware/validate_physical_fixture.py:90-111 | both walkers accept the same structures at every offset |
| FixtureValidator.CleanReportIff | scripts/hardware/validate_physical_fixture.py:76-117 | the report is empty exactly for whole, properly wrapped and redacted tables |
| FixtureValidator.ParserUnwrapsIff | spotter-core/src/smbios.rs:128-136 | on a passing fixture the parser takes the table out of its wrapper exactly when byte 1 is at least two |
| FixtureValidator.ParserAbsorbsItsVisits | spotter-core/src/smbios.rs:67-118 | the offsets that the parser visits are these: it succeeds exactly if a structure can be read at each of them, and its result is what those say in order |
| FixtureValidator.WalkersAgree | spotter-core/src/smbios.rs:67-118 | on a passing fixture with byte 1 at least two the parser visits the same structures and can only miss the system or the chassis |

## Left out

- JSON, `sha256`, timestamps and error texts: the codec, the quarantine stamp and instants are parameters; a candidate state of JSON null reads back as absent in the original and is not distinguished here.
- `load` and the recovery notice of the journal: `load` repeats the decoding loop of the classifier without its verdicts.
- Durability after power loss: a completed write is visible, and an unflushed replacement counts as done.
- The client of `JournalClient` appends only after a recovery and compacts only what it recovered, as spotter-svc/src/service.rs:380-395 and spotter-svc/src/sync_engine.rs:552-567 do; which records it appends is not restricted.
- The atomic writer's temporary files do not appear in the journal's directory; the replacement is one step there, with its failures.
- Wrap-around of the 64-bit generation counter, lock poisoning, handler panics and runtime shutdown: the command-loop invariants are for a live loop.
- Handing a request to the queue and disarming its guard are one step, as they happen in one poll; likewise arming the scheduler and publishing its schedule.
- A synchronization reaches the loop only through the handle, so it always carries a generation.
- Warnings are values that say which message is meant, not their text; `chrono` durations that overflow are not modelled (validated settings allow at most 8760 hours).
- Asset and status numbers are natural numbers without an upper bound; nothing is computed with them but their decimal text.
- Requests that cannot be serialized: the text of a patch request in its identifier is a parameter.
- Runs of plans store every predicted state; a plan whose execution fails and is therefore not stored is not a step of `PlanRuns`.
- File names that are not valid Unicode: they parse to no identity in the original and are never swept.
- Reuse of a process number: a process that has died stays dead.
- `AtomicWriters`: renaming is one atomic step; the two Windows calls behind it and their partial failures, access-control lists and the directory flush appear only as steps that may fail.
- A sweep of `AtomicWriters` may take any temporary or sidecar name of a dead process at any time; `AtomicFolder.SweepIsAStep` shows that this includes what the sweep does.
- `AtomicFolder`: a failed enumeration of the directory and failed reads of metadata; the listing is complete, in any order.
- `Smbios`: lossy decoding and trimming of strings are a parameter that maps the empty string to itself.
- Argument handling, the JSON and WMI checks and the file reading of the fixture validator, and all Win32, WMI, HTTP, pipe and installer code.
