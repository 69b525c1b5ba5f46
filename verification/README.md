# RustKV: a verified model

This project models the logic of RustKV, an ordered key-value store whose index holds pointers into a
self-managed Value Log (VLog), and proves what the store promises. `dafny verify dfyconfig.toml`
checks all of it.

**Commit and crash recovery** are one state machine. A commit appends an envelope, syncs it if asked,
and then commits one atomic index batch; every stage may fail. The index is a list of states since
the last SyncAll commit, and a crash keeps any one of them; the VLog is a chain of envelopes of which
a synced prefix survives and anything later may be lost or damaged. Open analyses what is left,
accepts the longest prefix of unstable transactions whose envelopes can be read, undoes the rest
through the persisted `Undo -> Trim | Finalize` phases, and may be stopped between any two effects.
Every index commit, of a write, a barrier or a recovery, may end unknown: not applied, or applied and
not durable. An older index state then has a history of its own, and its envelopes may since have been
overwritten; the invariant says what all these histories share.

| files | content |
|---|---|
| `Basics`, `Index`, `Topology`, `History` | vocabulary: the index and its batches, VLog files, committed histories and what they mean |
| `CommitProtocol` | many operations with repeated keys become one batch, and its inverse |
| `Recovery`, `RecoverySoundness`, `RecoveryInvariant`, `RecoverySteps`, `RestartableRecovery` | analysis and what it rejects, persistent effects, the invariant of a stopped store, crashes |
| `DescriptorLoading`, `RecoveryExecution`, `Open` | loading descriptors, the recovery program, and Open as a whole |
| `Running`, `StoreSystem`, `StoreSteps`, `Coordinator` | the running store and the commit coordinator |
| `CrashConsistency`, `Durability`, `Guarantees` | whole runs, refinement, and what a user may rely on |
| `Exceptions`, `StuckRecovery` | the two promises that are not kept, and exactly when they are |
| `ByteCodec`, `VLogCodec`, `VLogRoundTrip`, `VLogLayout`, `VLogScanner`, `VLogEnvelope`, `VLogAgreement`, `VLogTheorems`, `VLogDecoded`, `VLogAcceptance`, `VLogPointers`, `VLogReads` | the VLog on the byte level: records, layout planner, writer, scanner, pointers and reads, and what decoder and scanner reject |
| `TxKeys`, `DescriptorCodec`, `SystemCodec` | transaction keys, descriptors, frontier, recovery state and identity as bytes |
| `WriteGate` | admission and the instance-state latch, one step per critical section |
| `Cleanup`, `Cursor`, `Destroy` | descriptor cleanup, iterators and ranges, removing a database |
| `Validation`, `Csv` | two benchmark-side algorithms |

## Promises that do not hold as documented

**A durability acknowledgement can be broken.** If the SyncAll index commit of a sync write is applied
but reported `CommitUnknown` without having been made durable, and the process (not the system) then
restarts, Open finds head and frontier equal, has nothing to repair and commits nothing. An empty sync
batch is then acknowledged on the fast path at `src/commit/coordinator.rs:267` without any I/O, and a
later system crash may still remove the transaction. `Exceptions.UnknownCommitCanBeAcknowledgedAndLost`
builds this run from any healthy state and any write, `Exceptions.AcknowledgedAndLost` from an empty
store. `Exceptions.OutcomeDecides` gives the exact condition in what the caller is told: all later
acknowledgements are kept if and only if the outcome was not `CommitUnknown`.

**Open can be refused for good.** Recovery commits are SyncAll index commits too. If the commit that
removes a recovery state without `trim_required` is applied but not durable, the next Open finds
nothing to do; one buffered write appends an envelope; and a system crash can bring the recovery state
back with those bytes after its target, which `src/recovery/mod.rs:923` and `:933` take for corruption
on every further Open. `StuckRecovery.RefusedStoreIsReachable` is such a run from an empty store.
`Exceptions.AnalysisFailsExactly` and `Open.OpenStore` give the exact condition, which is the guard of
those branches: analysis of a reachable store fails if and only if the surviving recovery state has no
`trim_required` and the files go on after its target. In what the index reports, all later Opens stay
possible if and only if that last commit was reported durable (`StuckRecovery.ClearOutcomeDecides`).

**One condition on the run excludes both**: no Open while the last sync, barrier or recovery commit is
known only as unknown, unless a completed SyncAll or a system crash came in between
(`Durability.AcknowledgedWritesAreKept`, `Durability.OpenIsNeverRefused`).

**An identity that decodes need not encode.** `DatabaseIdentity::decode` accepts every database format
version, `encode` only version 0 (`SystemCodec.IdentityReencodes`).

The first two rest on the index contract used here: a SyncAll commit that ended with an error may have
been applied without being durable (`src/index/fjall.rs:793`), and reopening the index makes nothing
durable. The store's results also assume that a transaction identity, 16 bytes from `/dev/urandom`
(`src/commit/protocol.rs:97`), does not repeat one of a history that a crash may still bring back.

## Model

| member | source | states |
|---|---|---|
| `Guarantees.OpenShowsASafePrefix` | src/recovery/mod.rs:121-232 | Over every run from an empty store: after a stop and any number of interrupted recoveries, every successful Open shows exactly the first n transactions of what was shown before the stop; n covers everything a completed SyncAll covered and, if no earlier Open was doubted, everything callers had been told is durable, and nothing beyond what the stop left; reading through the pointers gives the latest value of every key of that prefix |
| `Durability.AcknowledgedWritesAreKept` | src/commit/coordinator.rs:128-352 | In every run from an empty store in which no Open took over an index whose last sync, barrier or recovery commit was applied with an unknown outcome and not settled since by a completed SyncAll or a system crash: everything callers had been told is durable at any point is shown unchanged at every later point |
| `Durability.OpenIsNeverRefused` | src/recovery/mod.rs:850-940 | In the same runs every analysis of every state succeeds, so no Open is ever refused |
| `Durability.UndoubtedRunsAreTrusted` | src/commit/coordinator.rs:128-352 | Without doubt all index states that a crash may bring back carry the frontier that is shown; what callers were told stays covered by completed SyncAll commits, and no such state would be refused |
| `Durability.StepKeepsUniform` | src/commit/coordinator.rs:192-262 | Only a sync commit, barrier or recovery commit that is applied with an unknown outcome lets surviving index states differ in their frontier; a completed SyncAll or a system crash makes them agree again |
| `Exceptions.OutcomeDecides` | src/commit/coordinator.rs:192-270 | From any healthy store reached without doubt, and for every sync write: every later acknowledgement is kept in all continuations without further unknown outcomes if and only if the caller was not told CommitUnknown |
| `Exceptions.UnknownCommitCanBeAcknowledgedAndLost` | src/commit/coordinator.rs:265-270 | The failing family: after any sync commit whose index batch was applied but not made durable (CommitUnknown), restart, Open and an empty sync batch acknowledge it, and a crash can still remove it |
| `Exceptions.AcknowledgedAndLost` | src/commit/coordinator.rs:265-270 | One such run from an empty store, event by event: it ends with sequence 1 acknowledged and nothing shown |
| `Exceptions.AnalysisFailsExactly` | src/recovery/mod.rs:850-940 | Analysis of a reachable store fails if and only if the surviving index holds a recovery state without trim_required and the files go on after its target |
| `StuckRecovery.RefusedStoreIsReachable` | src/recovery/mod.rs:206-209 | From an empty store, event by event: the last recovery commit is applied without being durable, one write follows, a crash brings the Finalize state back, and analysis returns corruption |
| `StuckRecovery.ClearOutcomeDecides` | src/recovery/mod.rs:380-400 | From any stopped store reached without doubt whose recovery has only its Finalize state left to remove: analysis succeeds in all continuations without further unknown outcomes if and only if that commit was reported durable |
| `StuckRecovery.RecordBehindCanStick` | src/recovery/mod.rs:919-936 | The failing family: whenever a recovery state of any phase without trim_required can still come back under a store that Open accepts, any one buffered write and a crash lead to a store that is refused |
| `StuckRecovery.RefusedStaysRefused` | src/recovery/mod.rs:919-936 | Nothing but another stop can happen to a refused store, and it stays refused exactly as long as the bytes after the target stay |
| `StuckRecovery.UnsyncedClearLeavesRecord` | src/recovery/mod.rs:380-400 | A Finalize commit that is applied without being durable leaves a store that Open accepts, over a recovery state that a crash can bring back |
| `Guarantees.TrimKeepsVisibleRecords` | src/recovery/mod.rs:195-205 | Trim safety: whenever recovery trims, every pointer in the user index has its record end at or before the accepted end, inside an envelope and files that the trim keeps, and still reads the latest value |
| `Guarantees.SessionReads` | src/commit/protocol.rs:393-569 | A healthy session reads, through its pointers, exactly the latest value of every key and no other keys |
| `Guarantees.RestartLosesNothing` | src/recovery/mod.rs:803-848 | Recovery of the undamaged disk of a healthy session accepts the whole history |
| `CrashConsistency.RunsKeepInv` | src/commit/coordinator.rs:128-352 | The store invariant holds in every state of every run of commits, failures, barriers, cleanup batches, stops, recovery effects (durable, or applied with an unknown outcome) and Opens |
| `CrashConsistency.StepRefines` | src/commit/coordinator.rs:128-352 | Every step refines an abstract history of writes with a safe prefix and an acknowledged length: Committed appends exactly the write (and, if sync, makes all of it safe and acknowledged), a committed empty sync batch acknowledges the whole history and makes it safe unless the frontier was at the head, NotCommitted changes nothing, CommitUnknown either, a stop only drops writes beyond the safe prefix from the end, recovery effects and Open change nothing |
| `CrashConsistency.CommitEffect` | src/commit/coordinator.rs:128-263 | What each outcome told to the caller means for the history, its safe prefix and what is acknowledged |
| `CrashConsistency.BarrierEffect` | src/commit/coordinator.rs:265-352 | The same for an empty sync batch: Committed acknowledges the head, and makes it safe unless the frontier was there already; any other answer changes neither |
| `CrashConsistency.AcknowledgedSurvivesEveryCrash` | src/commit/coordinator.rs:128-352 | After every committed sync write, and every committed empty sync batch that had something to do, the one index state on disk is the replay of the whole history with its frontier, all its envelopes are synced, and every crash keeps all of it |
| `CrashConsistency.AnswersFit` | src/commit/coordinator.rs:128-352 | Refused exactly by a stopped instance; Committed whenever nothing fails; CommitUnknown only for an unknown index outcome |
| `CrashConsistency.CommitLatches` | src/commit/coordinator.rs:128-263 | The instance after each answer to a write: healthy with the new head and writer position after Committed; Poisoned after CommitUnknown or a failed Value Log sync, whose writer has failed; as the failure demands otherwise |
| `CrashConsistency.BarrierLatches` | src/commit/coordinator.rs:265-352 | The same for an empty sync batch |
| `CrashConsistency.WriterAfterCommit` | src/vlog/writer.rs:635-776 | A commit never leaves a log sync pending; it ends the writer exactly after a damaged append or a failure once the log sync has begun |
| `CrashConsistency.HandOffIsAccepted` | src/commit/coordinator.rs:449-479 | Recovery hand-off: what the final recovery check accepts satisfies the coordinator's initial-state check and is a healthy disk that shows the replayed user map |
| `CrashConsistency.StopKeepsInv` | src/recovery/mod.rs:572-644 | A stop at any point leaves a disk that recovery can handle |
| `StoreSteps.CommitKeepsInv` | src/commit/coordinator.rs:128-263 | Every commit, whatever fails in it and at whatever stage, keeps the invariant |
| `StoreSteps.BarrierKeepsInv` | src/commit/coordinator.rs:265-352 | Every empty sync batch keeps the invariant |
| `StoreSteps.FrontierInvariant` | src/commit/coordinator.rs:163-262 | durable_seq ≤ head_seq, durable_vlog_seq ≤ head_vlog_seq ≤ head_seq, vlog sequence 0 exactly without an end, memory equals the index until an outcome is unknown, and every byte any committed frontier covers is synced and readable |
| `StoreSteps.NoSyncNeeded` | src/commit/coordinator.rs:192-217 | A sync commit that skips the Value Log sync (index-only delete) publishes a frontier whose envelopes were all synced before |
| `StoreSteps.DamageKeepsDown` | src/vlog/writer.rs:635-677 | What a failed append leaves behind is never mistaken for a published envelope |
| `StoreSteps.SameSequenceSameEnvelopes` | src/commit/coordinator.rs:192-192 | Two frontiers with equal log sequence have no envelope between them |
| `Coordinator.PrepareCommit` | src/commit/protocol.rs:256-384 | Succeeds exactly when the sequence is not exhausted, the identity is valid and the envelope could be laid out, and then yields the descriptor, pointers and batch of exactly this write on this index |
| `Coordinator.PreparedExtendsHistory` | src/commit/protocol.rs:256-384 | What is prepared is a well-formed next transaction of the history with exactly these operations and this identity, and its descriptor names the begin, end, pointers and checksum of the envelope |
| `Coordinator.CommitCoordinator.CommitStarted` | src/commit/coordinator.rs:128-263 | The stage-by-stage commit reaches exactly the state and outcome of the commit specification, for every fault, and keeps the invariant |
| `Coordinator.CommitCoordinator.CommitEmptyBarrier` | src/commit/coordinator.rs:265-352 | Committed means that the whole history is acknowledged; if the frontier was not at the head, also that every envelope is synced and the only index state left carries the frontier at the head. For every fault the barrier reaches exactly the state and outcome of its specification and keeps the invariant |
| `Coordinator.CommitCoordinator.constructor` | src/commit/coordinator.rs:55-88 | A coordinator over a recovered disk starts healthy, with memory equal to the index |
| `Coordinator.CommitCoordinator.PublishSuccess` | src/commit/coordinator.rs:374-394 | Head always moves, log fields only with an envelope, the frontier only when one was published |
| `Coordinator.AppendIsAccepted` | src/vlog/writer.rs:635-656 | In a healthy session the writer's own guards accept the next envelope |
| `Coordinator.SyncIsAccepted` | src/vlog/writer.rs:679-776 | The writer's own guards accept every sync that a commit needs, including the sync of older puts by an index-only delete |
| `Coordinator.BarrierSyncIsAccepted` | src/vlog/writer.rs:679-776 | The same for the sync of an empty batch |
| `Running.AppendReachesAppended` | src/vlog/writer.rs:635-677 | After an append the Value Log holds exactly the envelopes of the history and the new one, in files without a gap, and no older index state mistakes it for its own |
| `Running.CommittedStateOk` | src/commit/protocol.rs:485-569 | The committed index is the replay of the longer history, with complete descriptors above its frontier |
| `Running.RecoveredFilesAreFilled` | src/recovery/mod.rs:434-483 | The files accepted by the final check are exactly a Value Log filled up to the frontier |
| `Running.CleanupKeepsUnstable` | src/recovery/mod.rs:680-757 | The unstable descriptors that recovery loads are the same before and after a cleanup batch |
| `Open.OpenStore` | src/recovery/mod.rs:121-232 | Open on any reachable disk: returns corruption if and only if the disk is stuck, and then changed nothing; otherwise fails only when the environment fails it (its last commit possibly applied), leaving a disk whose next analysis succeeds; success keeps exactly the longest surviving prefix, or the target fixed before, and returns its head and frontier |
| `Open.NeverRefused` | src/recovery/mod.rs:288-319 | After a successful analysis none of the recovery program's own checks (boundary, descriptor, after-states, trim) fails on any disk its effects reach |
| `Open.BoundaryReadsBack` | src/recovery/mod.rs:288-319 | The accepted boundary always reads back as the envelope that the plan names |
| `Open.EndedIsRecovered` | src/recovery/mod.rs:434-483 | A run of recovery effects that came to its end always passes the final check |
| `RecoveryExecution.Store.ExecuteRecovery` | src/recovery/mod.rs:121-232 | Whatever happens, the disk moves by recovery effects only, the last commit possibly applied while it fails; Ok only for a disk that passes the final check; every Err is an I/O error of the environment or a named refused check |
| `RecoveryExecution.Store.CommitRecoveryBatch` | src/recovery/mod.rs:380-400 | Ok means durable; Err means not applied, or applied and still at risk |
| `RecoveryExecution.Store.UndoTransactions` | src/recovery/undo.rs:24-45 | The undo loop steps down one transaction per atomic commit and ends at the target |
| `RecoveryExecution.ChecksExactly` | src/recovery/undo.rs:47-154 | An undo is let through if and only if the stored descriptor is the one the plan was made with and the user index shows its after-states |
| `RecoveryExecution.Store.SyncNewAccepted` | src/recovery/mod.rs:234-248 | Before a target is published its envelopes are synced, unless the frontier covers them |
| `RecoveryExecution.Store.TrimVLog` | src/recovery/mod.rs:195-205 | Trim reaches a tail equal to the accepted end or reports why not |
| `RecoveryExecution.TrimIsIdempotent` | src/vlog/writer.rs:315-393 | Repeating an interrupted or completed trim changes nothing more |
| `RestartableRecovery.RestartsReachTheSameOutcome` | src/recovery/mod.rs:850-976 | Once the accepted prefix is safe in every index state that a crash may leave, every interleaving of effects (durable or not) and crashes keeps the outcome, no analysis fails, and every accepted end has the same head, frontier and user map |
| `RestartableRecovery.DurableCommitSettles` | src/recovery/mod.rs:121-193 | One completed recovery commit is enough for that |
| `RestartableRecovery.RecoveryTerminates` | src/recovery/undo.rs:24-45 | next_undo minus target, then the phase, drops by one with every recovery commit, durable or not; a crash raises it only by bringing back an older index state |
| `RestartableRecovery.RecoveredShowsHistory` | src/recovery/mod.rs:434-483 | A disk that passes the final check has head equal to the durable sequence, no recovery state, tail equal to the frontier end, and the replayed user map |
| `RecoverySteps.AnalysisFindsTarget` | src/recovery/mod.rs:572-644 | Analysis of a reachable disk fails if and only if a persisted recovery state ruled out a trim and the files go on after its target; otherwise its plan is determined by which envelopes survived |
| `RecoverySteps.EffectKeepsOutcome` | src/recovery/mod.rs:121-232 | Every persistent effect of recovery, durable or applied with an unknown outcome, keeps the invariant and the history that recovery will end with |
| `RecoverySteps.EffectKeepsDown` | src/recovery/mod.rs:121-232 | It also keeps every older index state that a crash may bring back recoverable |
| `RecoverySteps.EffectKeepsUnstuck` | src/recovery/mod.rs:919-936 | No effect of an attempt leaves a disk that the next analysis would refuse |
| `RecoverySteps.OlderOutcome` | src/recovery/mod.rs:803-848 | What recovery of an older surviving index state keeps is a prefix of what recovery of the current one keeps |
| `RecoverySteps.UndoKeepsInv` | src/recovery/undo.rs:24-45 | One undo leaves the replay of the history without its last transaction |
| `RecoverySteps.TrimKeepsInv` | src/recovery/mod.rs:195-205 | A trim keeps every envelope and file of the target |
| `RecoverySteps.CrashKeepsInv` | src/recovery/mod.rs:850-940 | A crash between any two effects leaves a good disk again, for the history of whichever index state survived |
| `RecoverySteps.AcceptedIsSynced` | src/recovery/mod.rs:234-248 | An unchanged log sequence means that the accepted envelopes were synced before |
| `RecoverySoundness.PlanIsSound` | src/recovery/mod.rs:572-644 | For any index and any Value Log, reachable or not: a plan is made only if the frontier is valid, its files are present and full and the envelope ending there is the one it names; the descriptors are exactly the stored ones with nothing beyond the head; every transaction up to the target is carried by a readable envelope that continues the one before; a new target is the farthest possible; a persisted recovery state fits index and files |
| `RecoverySoundness.ReadableCarries` | src/recovery/mod.rs:1037-1076 | An envelope accepted for a descriptor has its identity, bounds, checksum and counts, and its operations, applied one by one to any index, leave each key of the descriptor in its after-state and no other key changed |
| `RecoverySoundness.LoadsExactly` | src/recovery/mod.rs:680-757 | A descriptor loads from the index if and only if exactly its meta entry and its mutation entries are stored for its sequence and it is valid |
| `RecoveryInvariant.AcceptsTheSurvivingPrefix` | src/recovery/mod.rs:803-848 | The walk over the unstable descriptors accepts exactly the transactions up to the first lost envelope |
| `RecoveryInvariant.AcceptsIntactPrefix` | src/recovery/mod.rs:850-940 | A fixed target is re-accepted after any crash |
| `RecoveryInvariant.ReadableExactlyWhenSurviving` | src/recovery/mod.rs:1037-1076 | Reading an envelope against its descriptor succeeds exactly when its bytes survived, even if another transaction has been written in their place |
| `RecoveryInvariant.LoadsCommittedDescriptors` | src/recovery/mod.rs:680-757 | The unstable descriptors load exactly as they were committed |
| `DescriptorLoading.LoadUnstableDescriptors` | src/recovery/mod.rs:680-757 | The grouping loop over one ordered scan loads exactly the descriptors of the specification, and fails exactly when one is not completely and only there, or an entry lies beyond the head |
| `DescriptorLoading.CollectGroups` | src/recovery/mod.rs:698-730 | Every unstable transaction gets its own entries, in scan order |
| `DescriptorLoading.GroupLoads` | src/commit/descriptor.rs:441-495 | Decoding a group is loading the descriptor from the index: gaps, extra ordinals and wrong kinds are refused |
| `Recovery.WalkDescriptors` | src/recovery/mod.rs:803-848 | The loop computes the acceptance function |
| `History.EnvelopesAreChained` | src/commit/protocol.rs:288-350 | The vlog_begin/vlog_end chain holds over every history of commits |
| `History.UserMapHoldsLogicalMap` | src/commit/protocol.rs:393-463 | Every visible pointer leads to the record of the latest Put of its key, and no key is missing |
| `History.RecordEndsBeforeFrontier` | src/commit/protocol.rs:288-350 | A visible record ends at or before the end of the history that shows it |
| `History.RecordsAreUnique` | src/vlog/format.rs:1540-1590 | No two operations of a history share a record |
| `CommitProtocol.ValidateNormalized` | src/commit/protocol.rs:182-254 | The verdict is the first failing check in order; an accepted write has its distinct keys in first-occurrence order and fitting ordinals |
| `CommitProtocol.AssignOrdinals` | src/commit/protocol.rs:217-240 | The hash-map loop yields the distinct keys and an ordinal per operation that names its key |
| `CommitProtocol.BuildKeyPlans` | src/commit/protocol.rs:393-463 | Succeeds exactly for matching counts, kind and pointers, and then gives each distinct key its state before and after all operations |
| `CommitProtocol.UpdatePlans` | src/commit/protocol.rs:420-463 | Each operation overwrites the after-state of its key |
| `CommitProtocol.BuildIndexBatch` | src/commit/protocol.rs:485-569 | The batch in its order: user pointers, meta, mutations, head |
| `CommitProtocol.BuildUndoBatch` | src/recovery/undo.rs:156-209 | The inverse batch in its order |
| `CommitProtocol.CommitBatchRefinesOperations` | src/commit/protocol.rs:393-569 | Applying the deduplicated batch equals folding the operations one by one, and adds exactly the descriptor, head and optional frontier |
| `CommitProtocol.UndoBatchRestores` | src/recovery/undo.rs:156-209 | On an index that shows the after-states, undo restores the before-states and removes exactly the descriptor |
| `CommitProtocol.UndoInvertsCommit` | src/recovery/undo.rs:156-209 | Undo after commit restores the user map, the descriptor space and the head exactly |
| `CommitProtocol.DistinctKeysAreTheKeys` | src/commit/protocol.rs:217-240 | The distinct keys are the keys of the operations, each once |
| `Topology.ValidateInventoryOrder` | src/recovery/topology.rs:186-198 | Accepts exactly strictly ordered inventories within the limits |
| `Topology.ValidateStableFiles` | src/recovery/topology.rs:200-236 | Accepts exactly inventories whose files before the stable end are present and full and whose own file reaches it |
| `Topology.TailMatchesExactly` | src/recovery/topology.rs:102-136 | On an ordered inventory, containing the end and having no suffix is the same as the physical tail being the end |
| `Topology.TrimFiles` | src/vlog/writer.rs:315-393 | Succeeds exactly when the end is in the inventory and legal, and then leaves nothing after it |
| `Topology.TrimReachesEnd` | src/vlog/writer.rs:315-393 | A trimmed inventory is ordered, stable and ends at the accepted end |
| `VLogLayout.PlannerIsTotal` | src/vlog/format.rs:1216-1329 | From every reachable position every placeable length is placed inside one page's record area and leaves a reachable position; the only refusal, exactly when, is exhausted file ids |
| `VLogLayout.PlacementTiles` | src/vlog/format.rs:1216-1329 | Preludes and record tile the space between the positions before and after, without gap or overlap, across file rollovers |
| `VLogLayout.PlacementHasShape` | src/vlog/format.rs:1226-1281 | A record continues its page exactly if it fills the rest or leaves room for a filler, and else enters the next page, after exactly one filler if anything is left of this one |
| `VLogLayout.LayoutPlanner.Plan` | src/vlog/format.rs:1216-1281 | The planner object computes the plan; a failed call leaves its position unchanged |
| `VLogLayout.LayoutPlanner.EnsureRecordArea` | src/vlog/format.rs:1283-1328 | Entering a record area writes the headers of the boundary it crosses |
| `VLogEnvelope.PrepareEnvelope` | src/vlog/format.rs:1372-1614 | The writer produces exactly the specified envelope, or the specified error with the planner unmoved |
| `VLogTheorems.PreparesExactly` | src/vlog/format.rs:1372-1614 | From every reachable position an envelope is refused exactly if the transaction is not legal, or some record finds no room before the end of the last file; with one file id left per record the latter never happens |
| `VLogEnvelope.MeasureOperations` | src/vlog/format.rs:1405-1452 | The first loop accepts exactly the legal operations and measures keys, lengths and counts |
| `VLogEnvelope.AssembleChunks` | src/vlog/format.rs:1616-1666 | Chunks are the encodings of preludes and records in writing order |
| `VLogEnvelope.KeySetIsDistinctKeys` | src/vlog/format.rs:1372-1440 | The key set of the envelope counts the same keys as the descriptor |
| `VLogEnvelope.FeedFields` | src/vlog/format.rs:985-1091 | Feeding the envelope checksum field by field is one checksum over everything fed |
| `VLogScanner.ScanPreparedEnvelope` | src/vlog/format.rs:1681-1882 | The scan loop computes the scan specification, errors included; what that accepts is stated by `VLogAcceptance.ScansExactlyEnvelopes` |
| `VLogScanner.PieceDecodes` | src/vlog/format.rs:698-739 | An encoded page header, file header or record decodes to itself where it stands |
| `VLogTheorems.ScannerAcceptsPrepared` | src/vlog/format.rs:1681-1882 | Writer/scanner agreement: every prepared envelope, from any reachable position and across any number of pages and files, is accepted with the same identity, bounds, counts and checksum |
| `VLogAcceptance.AcceptedScanIsEnvelope` | src/vlog/format.rs:1681-1882 | Whatever chunks the scanner accepts are the envelope of a valid transaction of this database between these bounds: headers, its begin record, its operation records in order, fillers and its footer, each the encoding of itself where it stands; identity, counts and checksum reported are that transaction's |
| `VLogAcceptance.ScansExactlyEnvelopes` | src/vlog/format.rs:1681-1882 | Chunks are accepted with a report if and only if they are the envelope of a valid transaction that has this report |
| `VLogRoundTrip.RecordRoundTrip` | src/vlog/format.rs:542-739 | Every valid record of the five types decodes to itself at every place it may legally stand |
| `VLogDecoded.DecodesExactlyEncodings` | src/vlog/format.rs:542-893 | Bytes decode to a record at a position if and only if they are the encoding of that valid record and it may stand there: any change to the bytes of a record that is not itself such an encoding is refused |
| `VLogDecoded.DecodedRecordIsEncoded` | src/vlog/format.rs:698-893 | Accepted record bytes are exactly the encoding of a valid record that may stand at the position |
| `VLogDecoded.DecodedPageHeaderIsEncoded` | src/vlog/format.rs:119-155 | Accepted page header bytes are exactly the encoding of a legal file and page |
| `VLogDecoded.DecodedFileHeaderIsEncoded` | src/vlog/format.rs:174-244 | Accepted file header bytes are exactly the encoding of a legal header |
| `VLogDecoded.DecodedHeaderIsEncoded` | src/vlog/format.rs:261-320 | Accepted record header bytes are exactly the encoding of legal fields |
| `VLogRoundTrip.FooterReads` | src/vlog/format.rs:639-666 | The footer reads back field by field, its checksum lying between the two parts it covers |
| `VLogCodec.PageHeaderRoundTrip` | src/vlog/format.rs:119-155 | Page headers round-trip |
| `VLogCodec.FileHeaderRoundTrip` | src/vlog/format.rs:174-244 | File headers round-trip |
| `VLogCodec.HeaderRoundTrip` | src/vlog/format.rs:261-320 | Record headers round-trip, whatever follows them |
| `VLogPointers.PointersAreSound` | src/vlog/format.rs:389-540 | The record of every Put is the chunk that the writer puts at its pointer's position; the pointer encodes and decodes, passes the bounds check for every legal file length that reaches the record, and cuts out exactly the value, preceded by exactly the key |
| `VLogPointers.RecordIsWritten` | src/vlog/format.rs:1616-1666 | Every record of a prepared envelope is one of its chunks, at its planned place; the footer is the last chunk |
| `VLogPointers.PointerRoundTrip` | src/vlog/format.rs:390-441 | Valid pointers decode to themselves |
| `VLogPointers.FooterIsLocated` | src/vlog/format.rs:1907-1968 | The last chunk of every prepared envelope is its footer, and it is found from any tail of the last file that ends with that chunk |
| `VLogReads.LocatedFooterIsThere` | src/vlog/format.rs:1907-1968 | A footer that is located is exactly the last bytes of the tail, a valid record that may stand there and names that end |
| `VLogReads.ReadsExactly` | src/vlog/reader.rs:109-183 | A read through a pointer returns a value if and only if the pointer is in bounds and the bytes it names are exactly the encoding of a put record of that key and value |
| `VLogReads.PreparedPutReads` | src/vlog/reader.rs:109-183 | Every Put of a prepared envelope is read back through its pointer from any file that holds its record there |
| `VLogPointers.PreparedLayoutFits` | src/vlog/format.rs:1372-1614 | Record pointers lie inside the envelope, in operation order and without overlap: the contract the commit relies on |
| `ByteCodec.CrcConcat` | src/vlog/format.rs:1088-1091 | Appending to a CRC32C is the CRC32C of the concatenation |
| `ByteCodec.LeRoundTrip` | src/vlog/format.rs:2074-2108 | Little-endian integers round-trip |
| `TxKeys.KeysSort` | src/commit/descriptor.rs:231-284 | Encoded transaction keys sort exactly as (sequence, meta before mutations, ordinal) |
| `TxKeys.RangeSelectsTransaction` | src/recovery/undo.rs:118-132 | A ten-byte prefix range selects exactly one transaction at every sequence including the largest; the stable range selects exactly the sequences up to its bound |
| `TxKeys.KeyRoundTrip` | src/commit/descriptor.rs:231-284 | Keys decode to themselves |
| `TxKeys.DecodedKeyIsEncoded` | src/commit/descriptor.rs:242-284 | Only encodings decode |
| `DescriptorCodec.DescriptorRoundTrip` | src/commit/descriptor.rs:394-495 | Every encodable descriptor decodes to itself, with the CRC32C of its meta entry before that field and of all mutation entries as its checksum |
| `DescriptorCodec.DecodedDescriptorIsEncoded` | src/commit/descriptor.rs:441-495 | Accepted descriptor bytes are exactly the encoding of what they decode to, which the encoder accepts |
| `DescriptorCodec.MetaRoundTrip` | src/commit/descriptor.rs:286-328 | The meta entry round-trips |
| `DescriptorCodec.DecodedMutationIsEncoded` | src/commit/descriptor.rs:355-392 | Accepted mutation bytes are exactly the encoding of the mutation |
| `DescriptorCodec.DecodedPointerIsEncoded` | src/vlog/format.rs:408-441 | Accepted pointer bytes are exactly the encoding of a valid pointer |
| `SystemCodec.FrontierRoundTrip` | src/commit/descriptor.rs:575-586 | Every valid durable frontier is encoded and decodes to itself, with and without an end |
| `SystemCodec.DecodedFrontierIsEncoded` | src/commit/descriptor.rs:588-609 | Accepted frontier bytes are exactly the encoding of what they decode to; an empty end must be all zero bytes |
| `SystemCodec.RecoveryStateRoundTrip` | src/commit/descriptor.rs:635-655 | Every valid recovery state is encoded and decodes to itself, in every phase |
| `SystemCodec.DecodedRecoveryStateIsEncoded` | src/commit/descriptor.rs:657-691 | Accepted recovery state bytes are exactly the encoding of what they decode to |
| `SystemCodec.IdentityRoundTrip` | src/commit/descriptor.rs:498-515 | Every encodable database identity decodes to itself |
| `SystemCodec.IdentityReencodes` | src/commit/descriptor.rs:498-544 | Accepted identity bytes hold exactly the decoded fields, and encoding them again gives the bytes back if and only if the database format version is 0 |
| `SystemCodec.OtherVersionsDecode` | src/commit/descriptor.rs:517-544 | For every other format version there are identity bytes that decode and cannot be encoded again |
| `WriteGate.RunsKeepInv` | src/runtime/state.rs:85-302 | Over every interleaving at lock granularity: FIFO order, slot, state word and request phases stay consistent |
| `WriteGate.StepIsSafe` | src/runtime/state.rs:85-302 | A step grants at most the next uncancelled request in enqueue order, nothing after a latch or close; the latch only goes up, by one epoch each time it does, and empties the queue; the first failure stays |
| `WriteGate.CancelledNeverRuns` | src/runtime/write_gate.rs:69-98 | A cancelled request never owned the slot and never reads as started or completed |
| `WriteGate.NoRequestIsLost` | src/runtime/write_gate.rs:100-116 | A request that still reads as queued is in the queue behind an owner while writes are admitted, or its answer is on the way |
| `WriteGate.EnqueueServes` | src/runtime/state.rs:85-118 | A healthy open gate takes every request, at once if the slot is free, otherwise behind all that wait; any other gate changes nothing |
| `WriteGate.FinishServes` | src/runtime/state.rs:276-302 | The owner is told that it is done, nobody is lost, and the slot goes to the first that waits, if any does |
| `WriteGate.CancelsOnlyTheWaiting` | src/runtime/state.rs:122-245 | A request is cancelled only while it waits, by its own call or because admission ends for all, and is told |
| `WriteGate.StateWordRoundTrip` | src/runtime/state.rs:376-395 | The packed state word decodes to its state and epoch |
| `WriteGate.RequiredState` | src/runtime/state.rs:136-163 | Poisoned for an unknown outcome, a Value Log sync failure or untrusted data; for a mere write stop the worse of the target and WriteStopped; without any of these the target itself |
| `WriteGate.RuntimeControl.EnqueueWrite` | src/runtime/state.rs:85-118 | Enqueue as one critical section and its start notice |
| `WriteGate.RuntimeControl.FinishWrite` | src/runtime/state.rs:276-302 | Finish passes the slot to the head of the queue if writes are admitted |
| `WriteGate.RuntimeControl.LatchFailure` | src/runtime/state.rs:165-209 | The state afterwards is the worse of the state before and what target and failure demand, no better and no worse; a change drains the queue, tells every drained request, and the whole call keeps the invariant |
| `WriteGate.RuntimeControl.AbandonWrite` | src/runtime/state.rs:247-274 | Dropping a queued ticket cancels it; dropping an active one poisons the instance and frees the slot without granting it |
| `WriteGate.RuntimeControl.CloseWriteAdmission` | src/runtime/state.rs:122-134 | Close drains the queue without changing the instance state |
| `WriteGate.RuntimeControl.CancelQueuedWrite` | src/runtime/state.rs:226-245 | Only a queued request is cancelled |
| `Cleanup.CleanupOnce` | src/db.rs:710-820 | A pass blocked by a recovery state does nothing; otherwise it fails exactly if the scan is out of order or passes the durable sequence; an unstopped pass deletes exactly the stable entries and reports how many of each kind in how many batches, none of more than 1024 keys; a stopped one reports exactly what it deleted |
| `Cleanup.UnbrokenExactlyWhenOrdered` | src/db.rs:743-790 | The checks made entry by entry pass if and only if the whole scan is in strict key order and at or below the durable sequence |
| `Cleanup.WholePassCountsStable` | src/db.rs:710-820 | For a scan of the stored keys the reported counts are the numbers of stable mutation and meta entries |
| `Cleanup.Cleaner.Flush` | src/db.rs:852-887 | The meta entry goes only after all mutation entries of its transaction |
| `Cleanup.MutationsKeepTheirMeta` | src/db.rs:852-887 | At every stop or crash point no mutation entry has outlived its meta entry |
| `Cleanup.RecoveryCannotNotice` | src/recovery/mod.rs:680-757 | Any number of batches leaves every unstable descriptor loading as before |
| `Cleanup.CommitsKeepCleanable` | src/db.rs:710-820 | Commits of other threads between batches do not invalidate a batch |
| `Cursor.DbIterator.SeekToFirst` | src/cursor.rs:186-256 | Agrees with index 0 of the sorted list |
| `Cursor.DbIterator.SeekToLast` | src/cursor.rs:186-256 | Agrees with the last index |
| `Cursor.DbIterator.SeekTo` | src/cursor.rs:186-256 | Agrees with the lower bound of the target; an oversized target fails for good |
| `Cursor.DbIterator.MoveNext` | src/cursor.rs:258-302 | Agrees with the next index, also after a change of direction |
| `Cursor.DbIterator.MovePrev` | src/cursor.rs:258-302 | Agrees with the previous index, also after a change of direction |
| `Cursor.ScanRange` | src/db.rs:1694-1766 | A range driven to its end yields exactly the first limit entries of the slice from the lower bound of start to the lower bound of end; refused exactly for an oversized bound |
| `Cursor.RangeIsHalfOpen` | src/index/mod.rs:555-585 | An entry lies in that slice if and only if its key is not before start and before end |
| `Cursor.SelectsSlice` | src/index/mod.rs:532-585 | A range over a sorted view selects a slice |
| `Destroy.RestartDestroy` | src/db.rs:1820-2113 | After any interrupted attempt, crash and reappearing removals, the remains are accepted and an unstopped rerun removes everything for good |
| `Destroy.CrashIsAccepted` | src/db.rs:2115-2247 | Every layout a crash can leave is accepted by the next inventory |
| `Destroy.AcceptsExactly` | src/db.rs:2115-2247 | The inventory accepts a layout if and only if a destroy, interrupted anywhere and crashed, can have left it; so FORMAT without an index next to a VLog, or an index or VLog without FORMAT, is refused |
| `Destroy.Root.DestroyDatabase` | src/db.rs:1820-2048 | Refuses exactly what the inventory does not accept, and then removes nothing; otherwise fails only if the environment fails it, keeps the removal order settled at every point, and success leaves nothing that could come back |
| `Validation.ParallelRefinesSequential` | benchmarks/src/validation.rs:133-246 | For every number of records and workers, all overlapping partition scans succeed if and only if the store holds exactly the expected records |
| `Validation.ValidateParallel` | benchmarks/src/validation.rs:133-178 | Accepts exactly when all partitions pass; otherwise reports the first failing worker |
| `Validation.ValidatePartition` | benchmarks/src/validation.rs:180-246 | The partition arithmetic selects the specified records and overlap |
| `Validation.ScanMatches` | benchmarks/native/leveldb_aggregate.c:93-177 | The full-comparison scan accepts exactly the expected entries |
| `Validation.SequentialAcceptsExactly` | benchmarks/src/validation.rs:47-89 | The sequential check accepts exactly the expected dataset |
| `Csv.CsvRoundTrip` | benchmarks/src/csv.rs:614-692 | Any non-empty rows of any fields are read back as written |
| `Csv.ParsesExactly` | benchmarks/src/csv.rs:614-692 | The parser accepts a text if and only if it is well-formed (bare or quoted fields, doubled quotes, comma between fields, LF, CR or CRLF after every row), and reads exactly the rows it writes; anything truncated or malformed is refused |
| `Csv.ParseRecords` | benchmarks/src/csv.rs:614-692 | The loop computes the parsing specification |
| `Csv.PushEscaped` | benchmarks/src/csv.rs:694-710 | Quotes and doubles exactly where needed |
| `Csv.EncodeRows` | benchmarks/src/csv.rs:577-592 | Joins with commas and ends rows with CRLF |

## Left out

- Fjall itself (`src/index/fjall.rs`) is represented by its contract: atomic batches, ordered scans, and a crash that keeps a prefix of the batches containing the last SyncAll.
- CRC collisions: the reader rejects whatever is not exactly an encoding (`VLogDecoded.DecodesExactlyEncodings`, `VLogAcceptance.ScansExactlyEnvelopes`); that damaged bytes are never by chance the encoding of another valid record is assumed where the recovery model takes a lost envelope as rejected.
- The link from bytes to the recovery model is the contract of `VLogPointers.PreparedLayoutFits` and `VLogTheorems.ScannerAcceptsPrepared`; reading whole files from disk (`src/vlog/reader.rs`) and positioned writes (`src/vlog/writer.rs`) are represented by "appended", "synced through" and "trimmed to".
- VLogLayout.PlannerIsTotal: speaks of positions the planner can reach and of lengths up to the page size minus 107, which covers every record at the production geometry; other test geometries may refuse longer records.
- VLogPointers.PointersAreSound: is stated for the production geometry, because the bounds check of a pointer always uses the production page size.
- VLogEnvelope.PrepareEnvelope: leaves out allocation failures and the conversion errors that 64-bit counts cannot cause.
- VLogScanner.ScanPreparedEnvelope: decodes a chunk once where the source decodes its header a second time.
- Coordinator.CommitCoordinator.CommitStarted: takes the identity source, the envelope layout and the fault of each stage as parameters, and the waiting for the write gate as done.
- Recovery.WalkDescriptors: the reader's errors that are not rejections (out of memory, I/O) end an attempt and are covered by stopping it.
- Durability.AcknowledgedWritesAreKept: its condition on whole runs is sufficient; the exact condition is stated for what follows one sync write (`Exceptions.OutcomeDecides`).
- Durability.OpenIsNeverRefused: the same; the exact condition is stated for one analysis (`Exceptions.AnalysisFailsExactly`) and for what follows the last recovery commit (`StuckRecovery.ClearOutcomeDecides`).
- Error kinds other than those that decide a branch, retry advice, messages, statistics and error identities.
- Identity checks of recovery (database identity, directory identity, geometry bindings) and the plan fields that only report (`published_end`, `physical_tail`).
- Cleanup.CleanupOnce: assumes that the scan is grouped by transaction and complete, which `TxKeys.KeysSort` and `TxKeys.RangeSelectsTransaction` justify; commits of other threads between batches are covered by `Cleanup.CommitsKeepCleanable`, not by the method itself.
- Cursor.DbIterator.SeekTo: read errors of the backend and of the VLog, which move a cursor to its failed state, are left out; only the oversized target fails.
- Destroy.RestartDestroy: covers databases with a published FORMAT; with only FORMAT.tmp a partly removed index is refused by the next attempt, because partial-index tolerance is passed only when FORMAT exists (`src/db.rs:2203`). The name, type, length and header checks that `inventory_vlog_for_destroy` makes of each VLog file (`src/db.rs:2366`) are assumed to pass at the start; removals do not change the files that stay.
- Destroy.CrashIsAccepted: accepts a VLog directory by what is in it; the per-file checks at `src/db.rs:2366` are assumed as above.
- WriteGate.RunsKeepInv: request ids are taken to be fresh; condition-variable timeouts and wake-ups are not modelled.
- Csv.ParseRecords: works on characters; the source's UTF-8 handling only regroups bytes into characters, since every character it branches on is ASCII.
- Validation.ParallelRefinesSequential: needs at least one record, which every benchmark configuration has; with none, no worker would run and any store would pass.
- Initialization, interrupted-initialization cleanup, locking and file handling, the public API layer, and the benchmark's measurements and reports.
