# ANAS: a verified model of its protocols

ANAS is a self-hosted deployment tool. This project models the parts of it whose
correctness is a matter of protocol rather than of one function, and proves what
they promise: the crash-safe audit journal, the action event stream, the compute
protocols (volume attachment, publication naming, publication requests, the image
archive), the diagnostic tail of a failed command and the release dependency gate.

`dafny verify dfyconfig.toml` checks everything.

## What is modelled

**Audit journal** (`AuditJournal` ... `AuditWriter`). A journal is a sequence of decoded
records plus, possibly, a torn tail. `AuditDisk` keeps what is visible and what is
durable of every file, of the directory entry and of the two-slot lock file, so that a
crash is any mixture of the two. `AuditOps` gives open, append, compact and refresh as
functions of the disk, the writer's cache and the fate of every system call;
`AuditWriter` is the same as classes and loops, each method proved equal to the
function. `AuditSafety` holds for every run from any directory, lock file corruption
included; `AuditLive` and `AuditInit` add that healthy stores stay healthy. `AuditCrash`,
`AuditReopen` and `AuditRuns` are about crashes of stores in which other processes have
died: a store is sturdy when every crash now would leave it healthy. `AuditStart` does the
same for stores that are still being initialised, and the runs of `AuditRuns` start from an
empty directory. `AuditStranding` carries the failing runs out from there. `AuditGrammar`
says which journals are accepted without reference to the recovery loop, `AuditAdmission`
which stores refresh and open, `AuditAppend` and `AuditSuccess` what an append stores and
when appends and compactions succeed.

**Action stream** (`ActionAbi` ... `ActionReader`). `ActionFrames` is framing over any
notion of valid frame; `ActionReader` instantiates it with the real validator;
`ActionWitness` holds the streams that show what is not promised.

**Volumes** (`VolumeAttach`, `VolumeDelete`, `VolumeClient`). Any number of Create calls, each at some
point between two commands; commands may land without a reply, and calls may die.

**Publication** (`IngressPolicy`; `RequestSlots`, `RequestReceipts`, `RequestTheorems`,
`RequestWriter`). Inode numbers are reused once a file is neither linked nor open; the
receipts' promise is about files, not numbers.

**Image archive** (`ArtifactDisk`, `ArtifactTheorems`, `ArtifactArchive`). Every command
is allowed only on what the running call has itself established; kills stop a run
anywhere and power losses take whatever was not synced.

**Command tail** (`Transducer`, `CommandTail`) and **release gate** (`ReleaseGraph`).

## What turned out not to hold

Each of these is false of the code as first stated; each has its exact condition.

- Opening a store can strand it. Open raises the lock file's watermarks to the journal
  it reads and syncs the lock file, but not that journal. A process killed between
  writing a record and syncing it, a successful Open by another, and a power loss leave
  a journal behind its own watermarks, which every later Open refuses
  (`UnsyncedRecordStrandsStore`). `ReopenCrashSafeIff` says exactly which stores are safe
  to open, from the disk alone.
- Two deaths can ruin the lock file. A writer that dies between writing its slot and
  syncing it leaves the latest watermarks unsynced; the next writer overwrites the
  other, synced slot; one crash can then tear both, and no process opens the store again
  (`TwoDeathsStrandStore`; `NewStoreCanBeStranded` from an empty directory).
  `CallCrashSafeIff` says exactly which appends, compactions, lists and closes survive
  every crash, in any store a crash would have left healthy, and `DeathsAndCrashes` what
  every run of such calls, deaths and crashes keeps.
- Initialisation syncs what it writes, not what it finds. A process that dies between
  writing the identity and syncing it, a successful Open by another, and a power loss leave
  a header without an identity (`UnsyncedIdentityStrandsStore`); one that dies between
  creating the journal and syncing the directory, and another that dies after fixing the
  identity, leave a lock file without a journal (`UnsyncedEntryStrandsStore`); and a lock
  file whose own entry nobody synced can be lost beside a durable header
  (`UnsyncedLockFileStrandsStore`). No process opens any of these again.
  `InitialisationCrashSafeIff` says exactly which stores in the initialisation window are
  safe to open, from the disk alone.
- A release record left by an interrupted publication is reported as recorded without
  being synced, and a power loss can then replace it (`RecordSurvivesIff`,
  `UnsyncedRecordCanChange`).
- One writer per volume needs deletes to wait: deleting an instance is harmless if and
  only if no Create call for it is in flight (`HastyDeleteHarmlessIff`). For a call about
  to check or attach, the instance created anew gets a volume it never asked for; for one
  about to confirm or withdraw, it loses a volume it was given.
- A truncation marker may declare numbers already delivered (`AcceptedReplayRepeats`). An
  accepted replay covers every number exactly once if and only if every marker in it is
  fresh (`CoveredOnceIffMarkersFresh`); without that, the exact-once accounting is by the
  event that moves the stream past a number (`ReplayAccountsForEveryNumber`).
- A torn header is accepted for repair although no header begins with it: a date or time
  field of which only the first digit is there is not checked (`HalfFieldIsUnchecked`).
  With that field completable, acceptance is exact (`TimePrefixBeginsIff`).
- A frame that decodes can still be refused, because the validator encodes its event
  again: exactly when that encoding is too long for a frame or does not decode
  (`DecodedIsAcceptedIff`, `DecodedFrameRefused`).

## Model

| member | source | states |
|---|---|---|
| `AuditJournal.ContinuesReflexive` | internal/audit/journal.go:654-684 | every contiguous state continues itself |
| `AuditJournal.ContinuesTransitive` | internal/audit/journal.go:654-684 | lineage composes: what two steps each keep, both together keep |
| `AuditReplay.AdvancePruneContinues` | internal/audit/journal.go:544-564 | moving the prune watermark inside the window keeps it contiguous and keeps every later event |
| `AuditReplay.ApplyEventContinues` | internal/audit/journal.go:501-525 | an accepted event record extends the window without losing an unpruned event |
| `AuditReplay.ApplyPruneContinues` | internal/audit/journal.go:527-542 | an accepted prune record keeps every event above its watermark |
| `AuditReplay.ReplayIsContiguous` | internal/audit/journal.go:284-418 | whatever a journal holds, if it replays it replays to events prunedThrough+1 to lastSequence, in order |
| `AuditReplay.ReplayExtends` | internal/audit/journal.go:284-418 | every journal between two accepted ones is accepted and continues the shorter, in the same generation |
| `AuditReplay.ReplayAppend` | internal/audit/journal.go:501-525 | replaying one more event record is applying it to the replay so far |
| `AuditReplay.ReplayExpecting` | internal/audit/journal.go:420-436 | expecting a store accepts exactly that store's journals and reads in them what anyone reads |
| `AuditGrammar.ReplayIffJournal` | internal/audit/journal.go:284-418 | a journal is accepted, as a state, if and only if it is a header or a sealed checkpoint followed by events and prunes, each written as the writer writes it and lawful after what came before |
| `AuditGrammar.EventIff` | internal/audit/journal.go:501-525 | one event record is accepted exactly as the next number, in time, pruning nothing that is not older |
| `AuditGrammar.PruneIff` | internal/audit/journal.go:527-542 | one prune record is accepted exactly forward and not past the last event |
| `AuditGrammar.StaysOpened` | internal/audit/journal.go:566-642 | the lines read inside a checkpoint are its opening and its events, and are what its digest covers |
| `AuditCompaction.CheckpointRecovers` | internal/audit/compaction.go:393-447 | recovering a written checkpoint gives the same store, watermarks and events, one generation later |
| `AuditCompaction.SemanticallyEqualAdvances` | internal/audit/compaction.go:449-462 | a checkpoint that passes the writer's comparison is a later generation of its source |
| `AuditCompaction.CheckpointFirst` | internal/audit/journal.go:566-642 | a journal that opens with a checkpoint replays to a compacted state |
| `AuditCompaction.CompactionPreservesMeaning` | internal/audit/compaction.go:393-462 | later records are accepted after the checkpoint exactly when they are after the uncompacted journal, with the same events and watermarks |
| `AuditCompaction.ApplyRetentionPolicy` | internal/audit/compaction.go:190-209 | the loop computes the retention function the lemmas are about |
| `AuditCompaction.RetentionIsExact` | internal/audit/compaction.go:190-209 | afterwards both bounds hold, and an event is dropped if and only if it is outside a bound |
| `AuditCompaction.RetentionContinues` | internal/audit/compaction.go:190-209 | on any contiguous window retention only moves the prune watermark forward |
| `AuditCompaction.AppliedEventIsLast` | internal/audit/journal.go:501-525 | an accepted record leaves its event last and unpruned |
| `AuditCompaction.PreviewIsReplay` | internal/audit/writer.go:463-513 | the retention preview equals replaying the encoded record, keeps the new event, and meets both bounds |
| `AuditAppend.AcknowledgedIsSubmitted` | internal/audit/writer.go:463-480 | whatever the store, an acknowledged event has the kind and payload submitted, its own time or else the later of the clock and the last commit, and the next number |
| `AuditAppend.AcknowledgedIsStored` | internal/audit/writer.go:482-598 | in every run that event, with the commit time, is then the last one of the durable journal, appended or compacted |
| `AuditSuccess.AppendSucceedsIff` | internal/audit/writer.go:407-599 | in a healthy store with nothing failing an event is acknowledged if and only if there is room for it, and one record with it ends the journal or is in the checkpoint that replaces it |
| `AuditSuccess.CompactSucceedsIff` | internal/audit/compaction.go:214-391 | with nothing failing a compaction succeeds exactly when there is nothing to do or room to do it, and leaves one checkpoint, a generation later, of exactly the events that retention keeps |
| `AuditHeader.IsPossibleUTCHeaderTimePrefix` | internal/audit/journal.go:159-218 | accepts exactly the strings whose shape and complete fields can begin a UTC timestamp |
| `AuditHeader.HeaderPrefixAcceptedIff` | internal/audit/journal.go:132-157 | a torn header of one store is repairable for a store if and only if it is a torn header of that store too, for every instant of years 0000 to 9999 |
| `AuditHeader.TornHeaderRepairable` | internal/audit/journal.go:132-240 | every nonempty prefix of the right header is accepted for repair |
| `AuditHeader.OtherStoreRejected` | internal/audit/journal.go:132-157 | a whole header is accepted for a store ID of its length only if it names that store |
| `AuditHeader.TimePrefixBeginsIff` | internal/audit/journal.go:159-218 | a text begins a timestamp if and only if it is accepted and the field it breaks off in can be completed |
| `AuditHeader.HalfFieldIsUnchecked` | internal/audit/journal.go:180-199 | "2026-2" is accepted though no timestamp begins with it; "2026-13" is refused |
| `AuditMetadata.TargetSparesLatest` | internal/audit/metadata.go:215-235 | the slot holding the latest metadata is never the one overwritten |
| `AuditMetadata.TornWriteReads` | internal/audit/metadata.go:69-149 | after any torn write a read gives the previous metadata or the new, migration from a legacy line included |
| `AuditMetadata.WriteReadsBack` | internal/audit/metadata.go:251-297 | a completed write is read back, one revision later |
| `AuditMetadata.TornInitialReplaced` | internal/audit/metadata.go:237-249 | replacing a torn first slot leaves it torn or current at revision 1 |
| `AuditMetadata.WriteKeepsSane` | internal/audit/metadata.go:215-297 | no write, however torn, makes the lock file unreadable, gives two valid slots one revision or lowers the revision |
| `AuditMetadata.HistoryStaysReadable` | internal/audit/metadata.go:215-297 | over every history of torn writes a read returns the metadata of one of the writes or the start |
| `AuditMetadata.OverwriteCrashSafeIff` | internal/audit/metadata.go:251-297 | an overwrite survives every crash if and only if the slot that stays was already synced |
| `AuditDisk.BytesStrictlyGrow` | internal/audit/journal.go:242-252 | a longer journal has more bytes, so equal sizes of nested journals mean equal journals |
| `AuditSafety.MatchIsExact` | internal/audit/writer.go:737-779 | a cache that matches the file by size and time is that file's full replay |
| `AuditSafety.RefreshSafe` | internal/audit/writer.go:697-779 | refreshing keeps every acknowledged event and a truthful cache, whatever fails |
| `AuditSafety.CompactSafe` | internal/audit/compaction.go:214-391 | compaction, wherever it stops, keeps every acknowledged event |
| `AuditSafety.AppendSafe` | internal/audit/writer.go:407-599 | an append, wherever it stops, keeps every acknowledged event and acknowledges only an unused number |
| `AuditSafety.OpenSafe` | internal/audit/writer.go:81-319 | opening keeps every acknowledged event and acknowledges nothing |
| `AuditSafety.CrashSafe` | internal/audit/writer.go:554-598 | no crash takes an acknowledged event |
| `AuditSafety.StepSafe` | internal/audit/writer.go:407-599 | every step keeps the invariant and all acknowledgements; a new one uses a new sequence number |
| `AuditSafety.RunSafe` | internal/audit/writer.go:407-599 | the invariant holds after every run |
| `AuditSafety.AcknowledgedEventsSurvive` | internal/audit/writer.go:407-599 | over every run of opens, appends, compactions, failures and crashes from any directory, each acknowledged event is unaltered at sequence - prunedThrough - 1 until pruned, in the durable and the visible journal |
| `AuditLive.RefreshSucceeds` | internal/audit/writer.go:697-779 | in a healthy store refresh fails only if truncating a torn tail fails, ends at the full replay, and skips it only when the cache is exact |
| `AuditAdmission.RefreshIff` | internal/audit/writer.go:697-779 | in every run refresh succeeds if and only if the lock file fixes this store and policy and the journal is a lawful successor that covers it, and ends at the full replay, whether or not the replay was skipped |
| `AuditLive.MetadataWriteReads` | internal/audit/metadata.go:251-297 | every crash during a watermark write from a synced lock file reads the old or the new watermarks |
| `AuditLive.AppendLands` | internal/audit/writer.go:407-599 | an append ends in the state before or the intended one, and so does any crash of a settled store |
| `AuditLive.CompactLands` | internal/audit/compaction.go:214-391 | the same for compaction |
| `AuditLive.OpenLive` | internal/audit/writer.go:81-319 | opening a healthy store never changes its state and succeeds when no system call fails |
| `AuditLive.StepLive` | internal/audit/writer.go:407-599 | a step, however it fails, leaves a healthy store and healthy caches, before or after it |
| `AuditLive.RunLive` | internal/audit/writer.go:407-779 | after any run without a machine crash the store is healthy and continues where it started |
| `AuditLive.CooperatingWritersRefresh` | internal/audit/writer.go:697-779 | after any interleaving every remaining writer refreshes to the full replay, a contiguous time-ordered window, and anyone can open the store |
| `AuditLive.CrashIsAtomic` | internal/audit/writer.go:554-598 | a machine crash at any system call of an operation on a store with nothing pending reopens in exactly the state before or after |
| `AuditLive.AcknowledgedIsDurable` | internal/audit/writer.go:554-598 | once acknowledged, no crash takes the store back |
| `AuditReopen.LongerIsHigher` | internal/audit/journal.go:501-542 | each further record raises a watermark |
| `AuditReopen.RollbackRefused` | internal/audit/metadata.go:367-379 | a journal behind its watermarks is never opened |
| `AuditCrash.SturdyCrashes` | internal/audit/journal.go:284-418 | what any crash leaves of a sturdy store is healthy, settled and between the durable and the visible state; a store that loses a header it never synced is back in the initialisation window with the same identity |
| `AuditCrash.SettledIsSturdy` | internal/audit/writer.go:554-598 | a healthy store with nothing pending is sturdy |
| `AuditCrash.CrashedWriteReads` | internal/audit/metadata.go:215-297 | beside a synced latest slot, a watermark write that is cut short anywhere, over anything earlier writers left torn, reads after a crash as what could be read before, or as the new watermarks |
| `AuditCrash.WriteKeepsLock` | internal/audit/metadata.go:215-297 | so no crash finds watermarks that the durable journal does not cover |
| `AuditCrash.UnsyncedLatestRuins` | internal/audit/metadata.go:251-297 | beside an unsynced latest slot one crash can tear both slots |
| `AuditCrash.WrittenSpan` | internal/audit/writer.go:554-574 | writing a record, stopped anywhere, lets a crash leave only states between the durable and the new one; done, only the new one |
| `AuditCrash.RenamedSpan` | internal/audit/compaction.go:334-391 | so does a rename whose directory is not synced, the old file included |
| `AuditReopen.OpenSturdy` | internal/audit/writer.go:144-319 | opening a store that is safe to open keeps it sturdy, wherever the call stops |
| `AuditReopen.ReopenCrashSafeIff` | internal/audit/writer.go:144-293 | in any sturdy store, every crash at any point of an Open leaves a healthy store if and only if Open raises no watermarks, or the records it reads, their directory entry and the slot it leaves alone are durable or about to be synced by Open itself |
| `AuditReopen.HealthyOpens` | internal/audit/writer.go:81-319 | a healthy store opens, in its own state |
| `AuditAdmission.OpensIff` | internal/audit/writer.go:81-319 | whatever is on the disk, exactly which directories open, in which state, with the watermarks up to date and no stale compaction file left |
| `AuditAdmission.OtherPolicyRefused` | internal/audit/writer.go:142-153 | an unreadable lock file, or one that fixes another policy, is refused however the call goes |
| `AuditReopen.HoldingOpens` | internal/audit/writer.go:81-319 | so does one whose header is not complete, as the empty store of its fixed identity |
| `AuditReopen.UnsyncedRecordStrandsStore` | internal/audit/writer.go:283-293 | from every healthy settled store: one record written and not synced, one successful Open, one crash, and no Open succeeds again |
| `AuditRuns.StepSturdy` | internal/audit/writer.go:407-599 | an append, compaction or list, stopped anywhere, keeps a sturdy store sturdy unless it writes watermarks beside an unsynced slot |
| `AuditRuns.CallCrashSafeIff` | internal/audit/writer.go:407-599 | in any sturdy store, every crash at any point of a call leaves a healthy store between what was durable and the call's target if and only if the call writes no watermarks or the slot it leaves alone is synced |
| `AuditRuns.UnsyncedSlotStrandsCall` | internal/audit/metadata.go:251-297 | any other call can be cut short so that a crash leaves a store no process opens |
| `AuditRuns.TwoDeathsStrandStore` | internal/audit/writer.go:574-598 | such a run of two calls from every healthy settled store |
| `AuditStranding.NewStoreCanBeStranded` | internal/audit/writer.go:574-598 | the same from nothing: an empty directory, two undisturbed opens, two appends of any events, one crash, and no process opens the store again |
| `AuditRuns.RunFounded` | internal/audit/writer.go:81-779 | every run of safe calls, process deaths and machine crashes, in any order and through initialisation, loses nothing durable: first the identity, then the journal |
| `AuditRuns.DeathsAndCrashes` | internal/audit/writer.go:81-779 | after every such run each remaining writer refreshes to the full replay, anyone can open the store, and after any crash it opens in a state that has lost nothing durable |
| `AuditRuns.NothingIsFounded` | internal/audit/writer.go:144-293 | both hold of every such run from an empty directory |
| `AuditInit.OpenWindow` | internal/audit/writer.go:144-293 | opening from within the initialisation window, stopped anywhere, stays in it or yields the empty store of the fixed identity |
| `AuditStart.IdentitySturdy` | internal/audit/writer.go:245-258 | fixing a new store's identity, over nothing, a torn slot or a durable one, stays in the window at every crash point, whatever earlier processes left pending |
| `AuditStart.HeaderSturdy` | internal/audit/writer.go:259-277 | writing the header beside a durable identity leaves the window or the empty store at every crash point |
| `AuditStart.OpenStarts` | internal/audit/writer.go:144-293 | an Open that is safe to start keeps every crash in the window or the empty store, wherever it stops, and keeps a durable identity |
| `AuditStart.InitialisationCrashSafeIff` | internal/audit/writer.go:144-293 | in any window store that a crash now would leave in the window, every crash at any point of an Open leaves the window or the empty store if and only if the journal's entry is durable or about to be synced by Open itself, and the slot that fixes the identity is durable with its file's entry, or that entry is about to be synced |
| `AuditStart.UnsyncedEntryStrands` | internal/audit/writer.go:157-184 | beside any other entry an Open can stop so that a crash leaves a lock file without a journal, which no process opens |
| `AuditStart.UnsyncedIdentityStrands` | internal/audit/writer.go:200-204 | beside any other slot a successful Open and a crash leave a header without an identity, which no process opens |
| `AuditStart.UnsyncedLockFileStrands` | internal/audit/writer.go:111-125 | beside a lock file whose entry is not durable an Open can stop so that a crash leaves a header without a lock file, which no process opens |
| `AuditStart.InitialisationIsCrashSafe` | internal/audit/writer.go:144-293 | after a crash anywhere in an initialisation that was safe to start, an undisturbed Open yields the empty store, durable, and any further attempt is safe to start |
| `AuditStranding.UnsyncedIdentityStrandsStore` | internal/audit/writer.go:245-258 | the run from an empty directory: one death, one successful Open, one crash |
| `AuditStranding.UnsyncedEntryStrandsStore` | internal/audit/writer.go:157-184 | the run from an empty directory: two deaths, one crash |
| `AuditStranding.UnsyncedLockFileStrandsStore` | internal/audit/writer.go:111-125 | the run from an empty directory, through a first crash that keeps the journal's entry and loses the lock file's |
| `AuditWriter.RecoverAuditLog` | internal/audit/journal.go:284-418 | the recovery loop is the replay function |
| `AuditWriter.StateContinues` | internal/audit/journal.go:654-684 | the loop decides lineage |
| `AuditWriter.AuditStatesSemanticallyEqual` | internal/audit/compaction.go:449-462 | the loop decides equality of store, watermarks and every event |
| `AuditWriter.WriteAuditCheckpoint` | internal/audit/compaction.go:393-447 | the loop writes exactly the sealed checkpoint |
| `AuditWriter.EncodedCheckpointSize` | internal/audit/compaction.go:145-188 | the loop computes the estimate that decides compaction, and refuses one that overflows |
| `AuditWriter.CheckpointSizeIsExact` | internal/audit/compaction.go:145-188 | the estimate is the checkpoint's size, as the digest has fixed width |
| `AuditWriter.CompactsIff` | internal/audit/compaction.go:122-143 | an append compacts if and only if the journal reaches its boundary, part of it is obsolete, and the checkpoint would save a byte and an eighth of the threshold; an error if and only if that checkpoint cannot be numbered or measured |
| `AuditWriter.BoundaryIsNextMultiple` | internal/audit/compaction.go:101-120 | the boundary is the next multiple of the threshold, or the largest size |
| `AuditWriter.BoundaryMovesOnlyWhenCrossed` | internal/audit/compaction.go:101-120 | skipping the boundary update below the boundary changes nothing |
| `AuditWriter.Store.Recover` | internal/audit/journal.go:284-418 | recovery with tail truncation, step by step, is the recovery of the model |
| `AuditWriter.Store.WriteLockMetadata` | internal/audit/metadata.go:215-297 | the slot write, sync by sync, is the metadata write of the model |
| `AuditWriter.Writer.Adopt` | internal/audit/writer.go:737-779 | the adopted cache is the replay of the file it names |
| `AuditWriter.Writer.ResetCompactionBoundary` | internal/audit/compaction.go:101-115 | the next boundary is the next multiple of the threshold, saturating |
| `AuditWriter.Writer.RefreshLocked` | internal/audit/writer.go:697-779 | does what the theorems say of refresh |
| `AuditWriter.Writer.CompactStateLocked` | internal/audit/compaction.go:290-391 | does what the theorems say of installing a checkpoint |
| `AuditWriter.Writer.Finish` | internal/audit/writer.go:687-695 | acknowledges only after the watermarks are persisted and the lock released |
| `AuditWriter.Writer.ShouldCompactBeforeAppend` | internal/audit/compaction.go:130-143 | decides compaction as the model does |
| `AuditWriter.Writer.StoreRecord` | internal/audit/writer.go:514-598 | stores a record by append or compaction as the model does |
| `AuditWriter.Writer.AppendContext` | internal/audit/writer.go:407-599 | does what the theorems say of append; what it acknowledges carries every field submitted and is the last event of the durable journal; an unavailable writer changes nothing |
| `AuditWriter.Writer.CompactNow` | internal/audit/compaction.go:214-288 | does what the theorems say of compaction |
| `AuditWriter.InitialiseStore` | internal/audit/writer.go:245-282 | identity first, header second, as the initialisation theorems assume |
| `AuditWriter.LocateJournal` | internal/audit/writer.go:159-185 | finds or creates the journal as the model does |
| `AuditWriter.AdmitJournal` | internal/audit/writer.go:283-319 | refuses rollback and persists watermarks as the model does |
| `AuditWriter.OpenJournal` | internal/audit/writer.go:186-319 | admits a journal's shape, recovers it and initialises or admits the store as the model does |
| `AuditWriter.OpenWithOptions` | internal/audit/writer.go:81-319 | does what the theorems say of opening |
| `ActionFrames.CompleteDrains` | internal/actionabi/codec.go:159-185 | a complete concatenation of valid frames is read to its end with its outcome |
| `ActionFrames.DrainedWasComplete` | internal/actionabi/codec.go:159-185 | whatever was read to its end with an outcome was such a concatenation |
| `ActionStream.FailureIsPermanent` | internal/actionabi/stream.go:82-118 | after a failure or a terminal every further event fails and changes nothing else |
| `ActionStream.AcceptedAdvances` | internal/actionabi/stream.go:93-110 | each accepted event moves the last number strictly forward, to its own |
| `ActionStream.ReplayAccountsForEveryNumber` | internal/actionabi/stream.go:82-118 | each number after fromSeq up to the last is accounted for by exactly one event, which delivers it or declares it truncated |
| `ActionStream.ReplayAcceptsIff` | internal/actionabi/stream.go:82-118 | a replay accepts exactly the events of its invocation that encode and leave no gap: they move forward and cover every number they move past |
| `ActionStream.CoveredOnceIffMarkersFresh` | internal/actionabi/stream.go:82-118 | an accepted replay delivers or declares truncated every number by exactly one event if and only if every marker starts past the last number or is the first to move the stream |
| `ActionWitness.AcceptedReplayRepeats` | internal/actionabi/stream.go:98-103 | the replay of 1, 2, 3 and a marker numbered 4 for 2 to 3 is accepted and covers 2 and 3 twice |
| `ActionWitness.DecodedIsAcceptedIff` | internal/actionabi/codec.go:86-120 | a ready validator accepts the event of a decoded frame if and only if its own encoding fits in a frame and decodes |
| `ActionWitness.DecodedFrameRefused` | internal/actionabi/codec.go:86-120 | frames that decode are refused for either reason |
| `ActionReader.Decoder.Next` | internal/actionabi/codec.go:159-185 | one read is one framing step; end of file only after the last complete frame |
| `ActionReader.StreamValidator.Accept` | internal/actionabi/stream.go:82-118 | one accepted event, or the permanent failure; the outcome recorded is the result's or the error's own |
| `ActionReader.StreamValidator.Finish` | internal/actionabi/stream.go:137-160 | an outcome once, and only if terminal, exit and end of file agree |
| `ActionReader.ExecutionReader.Next` | internal/actionabi/stream.go:26-38 | decoding and sequencing together are one framing step |
| `ActionReader.ExecutionReader.Finish` | internal/actionabi/stream.go:40-47 | the end of file comes from the decoder, never from the caller |
| `ActionReader.RunExecution` | internal/actionabi/stream.go:9-47 | an outcome is reported if and only if the whole input is a concatenation of valid frames of this invocation, of which the last and no other is a result or an error, that event itself names the outcome, and the process exit agrees |
| `VolumeAttach.ConfirmKeeps` | internal/computeclient/volumes.go:178-189 | confirming as the sole user cannot give a volume to two instances |
| `VolumeAttach.AttachKeeps` | internal/computeclient/volumes.go:175-177 | an attach, with or without a reply, keeps every confirmed mount exclusive |
| `VolumeAttach.WithdrawKeeps` | internal/computeclient/volumes.go:182-187 | a withdrawal never detaches a confirmed mount |
| `VolumeAttach.StepKeeps` | internal/computeclient/volumes.go:160-189 | every step of every client keeps the invariant |
| `VolumeAttach.OneWriterAlways` | internal/computeclient/volumes.go:156-189 | in every interleaving of any number of clients at most one instance is confirmed while attached |
| `VolumeAttach.CreatedInstancesNeverShare` | internal/computeclient/client.go:204-215 | a created instance is attached to exactly the volumes it asked for, and to none together with another created instance |
| `VolumeAttach.TakesVolume` | internal/computeclient/volumes.go:160-189 | undisturbed, a call gets a free volume |
| `VolumeAttach.HastyDeleteCanShare` | internal/computeclient/client.go:321-344 | deleting any instance whose call is about to attach a free volume allows a run that ends with two created instances on it |
| `VolumeDelete.HastyDeleteHarmlessIff` | internal/computeclient/client.go:321-344 | in any reachable state a delete is harmless to every created instance, in all later orderly runs, if and only if no Create call for the deleted instance is in flight |
| `VolumeDelete.FreeVolume` | internal/computeclient/volumes.go:160-189 | behind an orphaned call's back any volume can be made free in good order |
| `VolumeDelete.CheckHarms` | internal/computeclient/volumes.go:165-177 | an orphaned call about to check attaches its volume to the instance created anew |
| `VolumeDelete.AttachHarms` | internal/computeclient/volumes.go:175-177 | so does one about to attach |
| `VolumeDelete.ConfirmHarms` | internal/computeclient/volumes.go:178-187 | an orphaned call about to confirm takes a confirmed volume from the instance created anew |
| `VolumeDelete.WithdrawHarms` | internal/computeclient/volumes.go:182-187 | so does one about to withdraw |
| `VolumeClient.AttachVolume` | internal/computeclient/volumes.go:160-189 | between arbitrary steps of the others it is a run of the system, and succeeds only as sole user at its last look |
| `VolumeClient.Create` | internal/computeclient/client.go:166-216 | between arbitrary steps of the others it is an orderly run of the system, reports success exactly when every mount was confirmed, and keeps one writer per volume; undisturbed, it succeeds exactly when the name and every volume are free, and then has just those volumes |
| `VolumeClient.ValidateMounts` | internal/computeclient/volumes.go:127-154 | accepts exactly distinct owned volumes on distinct canonical paths outside the system directories, within the count |
| `VolumeClient.CanonicalIff` | internal/computeclient/volumes.go:143 | a path is canonical exactly if it begins with a slash and a name, not one or two dots, follows every slash |
| `VolumeClient.SegmentsAreExact` | internal/computeclient/volumes.go:143 | the parts of a path hold no slash and joined by slashes are the path |
| `IngressPolicy.FirstDotSplits` | internal/computeingress/policy.go:342-350 | a host splits into label and base domain in one way only |
| `IngressPolicy.OverlapsIffSharedHost` | internal/computeingress/policy.go:328-355 | the overlap test holds if and only if some host is claimed by both grants |
| `IngressPolicy.ValidateNamespaces` | internal/computeingress/policy.go:357-374 | passes if and only if all grants are valid, no two are of one lease or claim a common host, and none claims a reserved host |
| `IngressPolicy.DisjointGrantsDeriveDistinctHosts` | internal/computeingress/policy.go:294-374 | passing grants never derive the same host, for any labels, nor a reserved one |
| `IngressPolicy.JoinedLabel` | internal/computeingress/policy.go:244-269 | prefix, hyphen and label form a DNS label if and only if they fit in 63 characters |
| `IngressPolicy.PredictionIsMediation` | internal/computeingress/policy.go:234-326 | the consumer's prediction is the mediator's answer to the label sent: same host, same refusals |
| `IngressPolicy.DerivedIsClaimed` | internal/computeingress/policy.go:297-326 | the mediator's claim check never refuses a derived name |
| `IngressPolicy.DerivedHostFits` | internal/computeingress/policy.go:155-168 | every host is claimed by its grant, at most 253 characters, its label at most 63 |
| `IngressPolicy.RandomAlwaysFits` | internal/computeingress/policy.go:85-116 | in random mode a good key names every workload: no label is ever too long |
| `IngressPolicy.RandomLabelSpellsMac` | internal/computeingress/policy.go:276-291 | a random label exists for every workload under a good secret and for nothing else, and spells the first 16 bytes of the workload's code |
| `IngressPolicy.SameHostIffSameMac` | internal/computeingress/policy.go:234-274 | two workloads of a grant get one host if and only if their codes agree in the first 16 bytes |
| `IngressPolicy.NamedHostIs` | internal/computeingress/policy.go:234-274 | in named mode the host is prefix, hyphen, tag, dot, base, exactly for labels that fit; distinct tags give distinct hosts |
| `IngressPolicy.FixedHostIs` | internal/computeingress/policy.go:234-274 | in fixed mode there is one host and no tag is taken |
| `IngressPolicy.SplitIsExact` | internal/computeingress/policy.go:155-170 | the labels of a base domain hold no dot and joined by dots are the name |
| `RequestReceipts.HeldFileIsExact` | internal/computeingress/request_writer_linux.go:249-279 | a held descriptor and a slot agree on the inode number only if they are the same file |
| `RequestReceipts.StepKeeps` | internal/computeingress/request_writer.go:87-248 | every call of every writer keeps the invariant and replaces no live slot |
| `RequestReceipts.RunKeeps` | internal/computeingress/request_writer.go:87-248 | so does every interleaving; files, once unlinked, stay unlinked, and retired receipts retired |
| `RequestTheorems.WithdrawTakesOnlyItsFile` | internal/computeingress/request_writer.go:140-176 | withdrawing unlinks a slot exactly when the acknowledged file is still in it, and nothing else ever |
| `RequestTheorems.WithdrawAnswers` | internal/computeingress/request_writer.go:140-176 | withdrawing succeeds if and only if the receipt is this writer's, not retired, and given back or in force with its file in place or the slot empty; exactly when it answers stale |
| `RequestTheorems.StaleReceiptIsHarmless` | internal/computeingress/request_writer.go:27-37 | once its file has left the slot, no later withdrawal of the receipt removes anything, inode reuse included |
| `RequestTheorems.RetiredReceiptIsInert` | internal/computeingress/request_writer.go:130-134 | from retirement on, withdrawing the receipt changes nothing at all |
| `RequestTheorems.ResubmitReturnsSameReceipt` | internal/computeingress/request_writer.go:123-138 | an unchanged request gets the same receipt if and only if the acknowledged file is still in place, whatever happened between |
| `RequestTheorems.DifferentRequestIsRefused` | internal/computeingress/request_writer.go:87-122 | a different request for a live slot changes nothing, and is told of the conflict exactly when nothing refused it earlier |
| `RequestTheorems.LiveSlotIsNeverOverwritten` | internal/computeingress/request_writer_linux.go:175-279 | a live slot keeps its file and content until the withdrawal of a receipt for that file, or a sweep that need not keep its request |
| `RequestTheorems.SweepIsExact` | internal/computeingress/request_writer.go:178-225 | an undisturbed sweep removes exactly the listed requests that are not kept |
| `RequestTheorems.FullSweepLeavesKept` | internal/computeingress/request_writer.go:178-225 | swept over its whole listing without a fault, the directory holds exactly the kept requests |
| `RequestTheorems.SweepCounts` | internal/computeingress/request_writer.go:178-225 | the number a sweep reports is the number of requests it removed |
| `RequestTheorems.SubmitCreates` | internal/computeingress/request_writer.go:87-138 | submitting a request whose slot is free creates one file with exactly that request, leaves every other slot alone and grants a new receipt for it |
| `RequestTheorems.SubmitAnswers` | internal/computeingress/request_writer.go:87-138 | in any state, exactly when Submit creates and exactly when it grants; it never answers missing |
| `RequestTheorems.ResumeNeverCreates` | internal/computeingress/request_writer.go:78-138 | in any state Resume changes no request, and exactly when it answers missing and when it grants |
| `RequestWriter.Directory.Publish` | internal/computeingress/request_writer_linux.go:175-247 | adds one complete file under a free name, or changes nothing |
| `RequestWriter.Directory.Remove` | internal/computeingress/request_writer_linux.go:249-279 | removes as the theorems say |
| `RequestWriter.RequestWriter.Submit` | internal/computeingress/request_writer.go:70-76 | creates the request exactly when nothing refuses it and its slot is free, and grants exactly when it was created or already there |
| `RequestWriter.RequestWriter.Resume` | internal/computeingress/request_writer.go:78-85 | changes no request; answers missing exactly when nothing refuses it and its slot is free |
| `RequestWriter.RequestWriter.Withdraw` | internal/computeingress/request_writer.go:144-176 | does what the theorems say of withdrawing |
| `RequestWriter.RequestWriter.Sweep` | internal/computeingress/request_writer.go:178-225 | the loop is the sweep of the theorems; it stops at the first failed removal |
| `RequestWriter.RequestWriter.Close` | internal/computeingress/request_writer.go:227-248 | drops every held descriptor and no request |
| `ArtifactDisk.RunKept` | internal/computeimage/artifact_archive.go:207-327 | every legal run, power losses included, keeps objects genuine, records complete and launches reserved |
| `ArtifactTheorems.BuilderLaunchedAtMostOnce` | internal/computeimage/artifact_build.go:67-172 | over all calls, kills, reopens and power losses a revision and target is built at most once |
| `ArtifactTheorems.LaunchedStaysReserved` | internal/computeimage/artifact_build.go:87-93 | once launched, no later call can reserve or launch it again |
| `ArtifactTheorems.RecordedObjectsAreDurable` | internal/computeimage/artifact_archive.go:299-322 | every record in place has all its objects on durable storage with the recorded digests |
| `ArtifactTheorems.RecordNeverChanges` | internal/computeimage/artifact_archive.go:575-608 | a record never changes while the machine stays up, and a synced one never at all |
| `ArtifactTheorems.RecordSurvivesIff` | internal/computeimage/artifact_archive.go:212-228 | a readable record survives every later run if and only if its link was synced |
| `ArtifactTheorems.UnsyncedRecordCanChange` | internal/computeimage/artifact_archive.go:314-326 | any record whose link was not synced can come back with any other recipe |
| `ArtifactArchive.Archive.PublishRelease` | internal/computeimage/artifact_archive.go:578-608 | never replaces a record; on success this record is in place and synced |
| `ArtifactArchive.Archive.RecordLocked` | internal/computeimage/artifact_archive.go:207-327 | a legal run; on success the record names exactly the digests of the sources and all of them were settled first; refused as invalid exactly for bad input or a wrong number of parts; with nothing failing it succeeds exactly when there is room or the same record, and conflicts exactly with a different one; killed before its last command it leaves a readable record that is not synced, and a call that finds a record never syncs it |
| `ArtifactArchive.Archive.VerifyRelease` | internal/computeimage/artifact_archive.go:410-441 | accepts exactly when every object is in place with its digest |
| `ArtifactArchive.Archive.Reserve` | internal/computeimage/artifact_build.go:87-142 | allows a launch only behind a reservation that was new and is synced |
| `ArtifactArchive.Archive.BuildOnce` | internal/computeimage/artifact_build.go:46-172 | a legal run that launches at most once, never when a record or a reservation exists, and reuses a record only unchanged; with nothing failing it succeeds exactly on a split record of this recipe or on a key never tried whose builder leaves two parts, and answers incomplete exactly for a key already tried |
| `CommandTail.TailWriter.Write` | internal/compose/failure.go:41-90 | one write continues the stripped stream and keeps its tail |
| `CommandTail.SplitDoesNotMatter` | internal/compose/failure.go:33-90 | for every split into writes: the last 4096 bytes of the one-pass stripped whole, truncated if and only if that is longer |
| `CommandTail.StrippedIsClean` | internal/compose/failure.go:73-83 | no escape and no disallowed control byte is ever kept |
| `CommandTail.PlainTextKept` | internal/compose/failure.go:77-83 | plain text is kept byte for byte |
| `CommandTail.CsiVanishes` | internal/compose/failure.go:44-57 | a complete CSI sequence vanishes and takes nothing with it |
| `CommandTail.OscVanishes` | internal/compose/failure.go:58-72 | so does a complete OSC sequence, with either ending and any escapes inside |
| `CommandTail.EscapeVanishes` | internal/compose/failure.go:44-51 | so does ESC with any other byte after it |
| `CommandTail.TextByte` | internal/compose/failure.go:73-83 | in text CR becomes LF, an allowed byte is kept and any other control byte vanishes |
| `ReleaseGraph.ClosedHoldsReachable` | cmd/check-release-modules/main.go:171-202 | a closed set with the root holds everything reachable |
| `ReleaseGraph.SearchIsExact` | cmd/check-release-modules/main.go:171-206 | a successful search found exactly the blocking edges of the reachable modules, each once with a real path, and met nothing faulty |
| `ReleaseGraph.Review.Visit` | cmd/check-release-modules/main.go:174-202 | terminates on every graph; reports each newly seen module's blocking edges once, or a reachable fault exists |
| `ReleaseGraph.ReviewRoot` | cmd/check-release-modules/main.go:171-206 | one root: exact findings, or an error if and only if something faulty is reachable |
| `ReleaseGraph.Inspect` | cmd/check-release-modules/main.go:150-208 | the report is exact for every root in turn and lists each module as often as the input does; an error if and only if a requested module is not released or a root reaches a fault |
| `ReleaseGraph.PassesIffNothingBlocks` | cmd/check-release-modules/main.go:193-196 | the gate passes if and only if no root reaches a module with a non-release dependency |

## Left out

- Legacy audit journals: their commit times come from the file's modification time; only the legacy lock line is modelled.
- The 2 MiB record limit and encoding errors of the journal: they refuse an append before anything changes.
- JSON, SHA-256, HMAC and base64: taken as functions, with injective encoding and collision-free digests where a proof needs them.
- `time.Parse`: taken as the grammar of section 5.6 of RFC 3339 with zone Z.
- The byte layout inside a 512-byte lock slot: a torn slot is any mixture of fields without a completed digest.
- File ownership, mode, symlink and inode identity checks, and flock: the environment is assumed to honour them.
- The entry of the store's own directory in its parent: the model starts from a directory that is durable.
- Cancellation and timeouts: only as a clean abort before the commit point.
- Secret redaction of audit events and of build failures: pattern matching on text.
- `CreateVolume`, `DeleteVolume` and their quota: single checks; the model only assumes that the daemon refuses to delete a volume in use.
- `ParseSpec` and `ValidateSpec` of publications: decoding and field comparison.
- A nil grant in `ValidateNamespaces`: it is refused like an invalid one.
- Temporary request files, the 256-entry bound of the request directory and its syncs: they only add refusals, which are modelled as faults.
- Writers that ignore the directory lock: the source excludes them.
- Initialising the image archive: the model starts from an archive whose own directory entry is durable; the source does not sync the parent directory.
- The recipe, intent and input files inside a build directory: their failure is a refusal; whether the recipe stayed unchanged is a parameter.
- Image fingerprints, catalogs, bundles and pruning: comparisons over recorded releases.
- `edges` of the release gate and the sorting of its report: the graph is given with its edges in any order, and roots are reviewed in the order given.
- The conversion of the command tail to valid UTF-8 and its trimming.
- RecoverAuditLog: does not read legacy lines, as legacy journals are left out.
- OpenJournal: does not admit legacy shapes, as legacy journals are left out.
- OpenWithOptions: does not open legacy journals.
- CrashIsAtomic: starts from stores with nothing pending; CallCrashSafeIff covers every other store a crash would leave healthy.
- RunExecution: reads a given number of times instead of until end of file; the statement is for every such number.
