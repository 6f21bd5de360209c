/** The stranding runs of AuditStart and AuditRuns, carried out from an empty directory. */
module AuditStranding {
  import opened Wrappers
  import opened AuditJournal
  import opened AuditReplay
  import opened AuditCompaction
  import opened AuditMetadata
  import opened AuditDisk
  import opened AuditOps
  import opened AuditSafety
  import opened AuditLive
  import opened AuditInit
  import opened AuditCrash
  import opened AuditReopen
  import opened AuditStart
  import opened AuditRuns

  // ------------------------------------------------------- while initialising

  lemma TwoSteps(env: Env, s: Sys, first: Step, second: Step)
    requires Enabled(s, first) && Enabled(Next(env, s, first), second)
    ensures Run(env, s, [first, second])
    ensures Last(env, s, [first, second]) == Next(env, Next(env, s, first), second)
  {
    assert [first, second][1..] == [second] && [second][1..] == [];
    var mid := Next(env, s, first);
    assert Run(env, Next(env, mid, second), []);
    assert Run(env, mid, [second]);
    assert Last(env, s, [first, second]) == Last(env, mid, [second]);
    assert Last(env, Next(env, mid, second), []) == Next(env, mid, second);
  }

  /** What Opens that stop on the way leave: an empty journal, and a lock file. */
  function Half(lock: Lock, durableLock: Lock, durableEntry: Option<nat>, lockEntry: LockEntry): Disk {
    var none := Content([], Clean);
    Disk(map[0 := Inode(none, none, 0)], Some(0), durableEntry, None, lock, durableLock, lockEntry, 1)
  }

  lemma KilledBeforeSlotSync(env: Env, id: string, t: Time)
    requires ValidStoreId(id) && t != ZERO_TIME
    ensures var lock := Lock(InitialSlot(MetadataOf(Fresh(id), env.options)), Missing);
            Open(env, NOTHING, id, t, UNDISTURBED.(first := SlotNoSync), 0)
            == Outcome(Half(lock, EMPTY_LOCK, Some(0), Linked), None, None)
  {
    assert Replay([], "") == Some(Fresh(""));
    assert Fresh("").(storeId := id) == Fresh(id);
    var o := Open(env, NOTHING, id, t, UNDISTURBED.(first := SlotNoSync), 0);
    assert o.disk.files == map[0 := Inode(Content([], Clean), Content([], Clean), 0)];
  }

  lemma KilledBeforeEntrySync(env: Env, id: string, t: Time)
    ensures Open(env, NOTHING, id, t, UNDISTURBED.(created := false), 0)
            == Outcome(Half(EMPTY_LOCK, EMPTY_LOCK, None, Linked), None, None)
  {
  }

  /** A first process dies between writing the identity and syncing it; a second Open succeeds; the machine
      crashes. The header is durable and the lock file is not, and no process opens the store again. */
  lemma UnsyncedIdentityStrandsStore(env: Env, id: string, t: Time, other: string, now: Time) returns (left: Disk)
    requires ValidStoreId(id) && ValidStoreId(other) && t != ZERO_TIME && now != ZERO_TIME
    ensures var steps := [OpenStep(1, id, t, UNDISTURBED.(first := SlotNoSync), 0),
                          OpenStep(2, other, now, UNDISTURBED, 0)];
            && Run(env, NO_SYS, steps) && 2 in Last(env, NO_SYS, steps).writers
            && Crash(Last(env, NO_SYS, steps).disk, left) && Stranded(env, left)
  {
    var first := OpenStep(1, id, t, UNDISTURBED.(first := SlotNoSync), 0);
    var second := OpenStep(2, other, now, UNDISTURBED, 0);
    var d := Next(env, NO_SYS, first).disk;
    KilledBeforeSlotSync(env, id, t);
    NothingIsSturdy(env);
    OpenStarts(env, NOTHING, id, t, UNDISTURBED.(first := SlotNoSync), 0);
    left := UnsyncedIdentityStrands(env, d, other, now, 0);
    TwoSteps(env, NO_SYS, first, second);
  }

  /** A first process dies between creating the journal and syncing the directory; a second one fixes the
      identity, durably, and dies before it syncs the directory; the machine crashes. The lock file names a
      store that has no journal, and no process opens it again. */
  lemma UnsyncedEntryStrandsStore(env: Env, id: string, t: Time, other: string, now: Time) returns (left: Disk)
    requires ValidStoreId(id) && ValidStoreId(other) && t != ZERO_TIME && now != ZERO_TIME
    ensures var steps := [OpenStep(1, id, t, UNDISTURBED.(created := false), 0),
                          OpenStep(2, other, now, UNDISTURBED.(first := SlotNoDirSync), 0)];
            && Run(env, NO_SYS, steps)
            && Crash(Last(env, NO_SYS, steps).disk, left) && Stranded(env, left)
  {
    var first := OpenStep(1, id, t, UNDISTURBED.(created := false), 0);
    var second := OpenStep(2, other, now, UNDISTURBED.(first := SlotNoDirSync), 0);
    var d := Next(env, NO_SYS, first).disk;
    KilledBeforeEntrySync(env, id, t);
    NothingIsSturdy(env);
    OpenStarts(env, NOTHING, id, t, UNDISTURBED.(created := false), 0);
    left := UnsyncedEntryStrands(env, d, other, now, 0);
    TwoSteps(env, NO_SYS, first, second);
  }

  /** One step more at the front of a run. */
  lemma FirstStep(env: Env, s: Sys, step: Step, rest: seq<Step>)
    requires Enabled(s, step) && Run(env, Next(env, s, step), rest)
    ensures Run(env, s, [step] + rest) && Last(env, s, [step] + rest) == Last(env, Next(env, s, step), rest)
  {
    assert ([step] + rest)[0] == step && ([step] + rest)[1..] == rest;
  }

  function Killed(id: string, t: Time, io: OpenIO): Step {
    OpenStep(1, id, t, io, 0)
  }

  /** The lock file created and not synced, then the journal; a crash that keeps only the journal's entry; the
      lock file created anew and not synced; the identity fixed in it. Nothing of this is unsafe so far. */
  function LockFileSteps(id: string, t: Time): seq<Step> {
    [Killed(id, t, UNDISTURBED.(linked := false)), Killed(id, t, UNDISTURBED.(created := false)),
     CrashStep(Half(EMPTY_LOCK, EMPTY_LOCK, Some(0), NoLockFile)),
     Killed(id, t, UNDISTURBED.(linked := false)), Killed(id, t, UNDISTURBED.(first := SlotNoDirSync))]
  }

  function Named(env: Env, id: string): Disk {
    var lock := Lock(InitialSlot(MetadataOf(Fresh(id), env.options)), Missing);
    Half(lock, lock, Some(0), Unsynced)
  }

  lemma LockFileOpens(env: Env, id: string, t: Time)
    requires ValidStoreId(id) && t != ZERO_TIME
    ensures var bare := NOTHING.(lockEntry := Unsynced);
            && Open(env, NOTHING, id, t, UNDISTURBED.(linked := false), 0) == Outcome(bare, None, None)
            && Open(env, bare, id, t, UNDISTURBED.(created := false), 0)
               == Outcome(Half(EMPTY_LOCK, EMPTY_LOCK, None, Unsynced), None, None)
            && Open(env, Half(EMPTY_LOCK, EMPTY_LOCK, Some(0), NoLockFile), id, t, UNDISTURBED.(linked := false), 0)
               == Outcome(Half(EMPTY_LOCK, EMPTY_LOCK, Some(0), Unsynced), None, None)
  {
  }

  lemma LockFileNamed(env: Env, id: string, t: Time)
    requires ValidStoreId(id) && t != ZERO_TIME
    ensures var d := Half(EMPTY_LOCK, EMPTY_LOCK, Some(0), Unsynced);
            && Open(env, d, id, t, UNDISTURBED.(first := SlotNoDirSync), 0) == Outcome(Named(env, id), None, None)
            && WindowSturdy(env, Named(env, id))
  {
    var d := Half(EMPTY_LOCK, EMPTY_LOCK, Some(0), Unsynced);
    var gone := Half(EMPTY_LOCK, EMPTY_LOCK, Some(0), NoLockFile);
    assert Replay([], "") == Some(Fresh(""));
    assert Fresh("").(storeId := id) == Fresh(id);
    var o := Open(env, d, id, t, UNDISTURBED.(first := SlotNoDirSync), 0);
    assert o.disk.files == d.files;
    SettledWindowIsSturdy(env, gone);
    LinkWindow(env, gone, false);
    assert OpenLockFile(gone, false).0 == d;
    OpenStarts(env, d, id, t, UNDISTURBED.(first := SlotNoDirSync), 0);
  }

  lemma LockFileStepsRun(env: Env, id: string, t: Time, rest: seq<Step>)
    requires ValidStoreId(id) && t != ZERO_TIME && Run(env, Sys(Named(env, id), map[], map[]), rest)
    ensures var steps := LockFileSteps(id, t) + rest;
            Run(env, NO_SYS, steps) && Last(env, NO_SYS, steps) == Last(env, Sys(Named(env, id), map[], map[]), rest)
  {
    LockFileOpens(env, id, t);
    LockFileNamed(env, id, t);
    var steps := LockFileSteps(id, t);
    var s1 := Sys(NOTHING.(lockEntry := Unsynced), map[], map[]);
    var s2 := Sys(Half(EMPTY_LOCK, EMPTY_LOCK, None, Unsynced), map[], map[]);
    var s3 := Sys(Half(EMPTY_LOCK, EMPTY_LOCK, Some(0), NoLockFile), map[], map[]);
    var s4 := Sys(Half(EMPTY_LOCK, EMPTY_LOCK, Some(0), Unsynced), map[], map[]);
    var none: map<nat, Cache> := map[];
    assert none - {1} == none;
    FirstStep(env, s4, steps[4], rest);
    FirstStep(env, s3, steps[3], [steps[4]] + rest);
    FirstStep(env, s2, steps[2], [steps[3]] + ([steps[4]] + rest));
    FirstStep(env, s1, steps[1], [steps[2]] + ([steps[3]] + ([steps[4]] + rest)));
    FirstStep(env, NO_SYS, steps[0], [steps[1]] + ([steps[2]] + ([steps[3]] + ([steps[4]] + rest))));
    assert steps + rest == [steps[0]] + ([steps[1]] + ([steps[2]] + ([steps[3]] + ([steps[4]] + rest))));
  }

  /** After those steps a further Open writes the header, syncs it and dies before it syncs the directory; the
      machine crashes. The header is durable, the lock file's entry is not, and no process opens the store again. */
  lemma UnsyncedLockFileStrandsStore(env: Env, id: string, t: Time, other: string, now: Time) returns (left: Disk)
    requires ValidStoreId(id) && ValidStoreId(other) && t != ZERO_TIME && now != ZERO_TIME
    ensures var steps := LockFileSteps(id, t) + [Killed(other, now, UNDISTURBED.(header := WriteNoDirSync))];
            && Run(env, NO_SYS, steps)
            && Crash(Last(env, NO_SYS, steps).disk, left) && Stranded(env, left)
  {
    var last := Killed(other, now, UNDISTURBED.(header := WriteNoDirSync));
    var s := Sys(Named(env, id), map[], map[]);
    LockFileNamed(env, id, t);
    left := UnsyncedLockFileStrands(env, s.disk, other, now, 0);
    FirstStep(env, s, last, []);
    assert [last] + [] == [last];
    LockFileStepsRun(env, id, t, [last]);
  }

  // ------------------------------------------------------- while appending

  /** No retention, no compaction, records of one byte. */
  const PLAIN := Env(Options(0, 0, 0), (r: Record) => 1)

  /** The store a first Open leaves: a header, and its watermarks in the first slot. */
  function NewDisk(id: string, t: Time): Disk {
    var c := Content([HeaderRecord(t, id)], Clean);
    var lock := Lock(InitialSlot(MetadataOf(HeaderState(id), PLAIN.options)), Missing);
    Disk(map[0 := Inode(c, c, 0)], Some(0), Some(0), None, lock, lock, Linked, 1)
  }

  function NewCache(id: string, t: Time): Cache {
    CacheOf(PLAIN, 0, HeaderState(id), NewDisk(id, t).files[0])
  }

  function NewSys(id: string, t: Time): Sys {
    Sys(NewDisk(id, t), map[1 := NewCache(id, t), 2 := NewCache(id, t)], map[])
  }

  lemma FirstOpen(id: string, t: Time)
    requires ValidStoreId(id) && t != ZERO_TIME
    ensures Open(PLAIN, NOTHING, id, t, UNDISTURBED, 0) == Outcome(NewDisk(id, t), Some(NewCache(id, t)), None)
  {
    var o := Open(PLAIN, NOTHING, id, t, UNDISTURBED, 0);
    HeaderReplays(id, t);
    assert o.disk.lock == NewDisk(id, t).lock;
    assert o.disk.files == NewDisk(id, t).files;
  }

  lemma SecondOpen(id: string, t: Time)
    requires ValidStoreId(id) && t != ZERO_TIME
    ensures Open(PLAIN, NewDisk(id, t), id, t, UNDISTURBED, 0) == Outcome(NewDisk(id, t), Some(NewCache(id, t)), None)
  {
    var o := Open(PLAIN, NewDisk(id, t), id, t, UNDISTURBED, 0);
    HeaderReplays(id, t);
    OwnMetadataFixes(PLAIN, HeaderState(id));
    assert o.disk.files == NewDisk(id, t).files;
  }

  function Opens(id: string, t: Time): seq<Step> {
    [OpenStep(1, id, t, UNDISTURBED, 0), OpenStep(2, id, t, UNDISTURBED, 0)]
  }

  lemma OpensReachNewSys(id: string, t: Time, rest: seq<Step>)
    requires ValidStoreId(id) && t != ZERO_TIME
    requires Run(PLAIN, NewSys(id, t), rest)
    ensures Run(PLAIN, NO_SYS, Opens(id, t) + rest)
    ensures Last(PLAIN, NO_SYS, Opens(id, t) + rest) == Last(PLAIN, NewSys(id, t), rest)
  {
    FirstOpen(id, t);
    SecondOpen(id, t);
    var one, steps := Next(PLAIN, NO_SYS, Opens(id, t)[0]), Opens(id, t) + rest;
    assert steps[1..] == [Opens(id, t)[1]] + rest && steps[1..][1..] == rest;
    assert Next(PLAIN, one, Opens(id, t)[1]) == NewSys(id, t);
    assert Run(PLAIN, one, steps[1..]);
  }

  lemma NewSysIsLive(id: string, t: Time)
    requires ValidStoreId(id) && t != ZERO_TIME
    ensures LiveSys(PLAIN, NewSys(id, t), HeaderState(id)) && Settled(NewDisk(id, t))
  {
    var d, c, s := NewDisk(id, t), NewCache(id, t), HeaderState(id);
    HeaderReplays(id, t);
    OwnMetadataFixes(PLAIN, s);
    assert Live(PLAIN, d, s);
    var lines := d.files[0].visible.lines;
    assert lines[..|lines| - 1] == [];
    assert Exact(PLAIN, d, c);
    CacheOfExact(PLAIN, d, s, c);
  }

  /** While a store has little in it, an append by any of its writers gets as far as the watermarks. */
  lemma SmallAppendPersists(s: Sys, b: State, state: State, step: Step)
    requires SturdySys(PLAIN, s, b, state) && Enabled(s, step) && step.AppendStep?
    requires step.draft.kind != "" && step.now != ZERO_TIME && Writable(ReadLock(s.disk.lock))
    requires state.lastSequence < MAX_UINT64 && !state.hasObsoleteHistory
    requires Bytes(PLAIN, s.disk.files[s.disk.entry.value].visible.lines) < 1000
    ensures Persists(PLAIN, s, state, step)
  {
    SturdyIsLive(PLAIN, s.disk, b, state);
    var c := s.writers[step.w];
    RefreshSucceeds(PLAIN, s.disk, state, c, RepairDone, 0);
    var refreshed := Refresh(PLAIN, s.disk, c, RepairDone, 0).cache.value;
    var t := CommitTime(state, step.now);
    PreviewIsReplay(state, step.draft, step.now, PLAIN.options);
    assert !Preview(state, step.draft, t, PLAIN.options).value.hasObsoleteHistory;
    assert Stores(PLAIN, s.disk.lock, refreshed, step.draft, step.now);
  }

  lemma SmallLines(header: Record, r: Record)
    ensures Bytes(PLAIN, [header]) == LineBytes(PLAIN, header) == 2 && LineBytes(PLAIN, r) == 2
    ensures Bytes(PLAIN, [header] + [r]) == 4
  {
    assert ([header] + [r])[..1] == [header] && [header][..0] == [];
    assert Bytes(PLAIN, [header]) == Bytes(PLAIN, []) + LineBytes(PLAIN, header);
  }

  function FirstAppend(draft: Draft, now: Time): Step {
    AppendStep(1, draft, now, LEFT_UNSYNCED, 0)
  }

  lemma FirstRecord(id: string, r: Record, next: State)
    requires ApplyEvent(HeaderState(id), r) == Some(next)
    ensures next.lastSequence == 1 && !next.hasObsoleteHistory
  {
  }

  /** The record an append to a new store writes; its watermarks are written and left unsynced. */
  lemma FirstAppendStores(id: string, t: Time, draft: Draft, now: Time) returns (r: Record, next: State)
    requires ValidStoreId(id) && t != ZERO_TIME && now != ZERO_TIME && draft.kind != ""
    ensures var d := NewDisk(id, t);
            && r.kind == Appended && r.event.Some? && ApplyEvent(HeaderState(id), r) == Some(next) && Good(next)
            && Append(PLAIN, d, NewCache(id, t), draft, now, LEFT_UNSYNCED, 0)
               == AppendRecord(PLAIN, d, NewCache(id, t), r, next, LEFT_UNSYNCED, 0)
  {
    var d, c, s := NewDisk(id, t), NewCache(id, t), HeaderState(id);
    NewSysIsLive(id, t);
    assert Refresh(PLAIN, d, c, RepairDone, 0) == Outcome(d, Some(c), None);
    AppendAfterRefresh(PLAIN, d, s, c, draft, now, LEFT_UNSYNCED, 0);
    r, next := AppendToIs(PLAIN, d, s, c, draft, now, LEFT_UNSYNCED, 0);
    AppendPreparedIs(PLAIN, d, c, r, next, CommitTime(s, now), LEFT_UNSYNCED, 0);
    FirstRecord(id, r, next);
    SmallLines(HeaderRecord(t, id), r);
  }

  /** What the first writer leaves behind: one record more, and room for the other writer's watermarks. */
  lemma FirstAppendLeaves(id: string, t: Time, draft: Draft, now: Time) returns (next: State)
    requires ValidStoreId(id) && t != ZERO_TIME && now != ZERO_TIME && draft.kind != ""
    ensures var s1 := Next(PLAIN, NewSys(id, t), FirstAppend(draft, now));
            && 2 in s1.writers && s1.disk.entry == Some(0) && 0 in s1.disk.files
            && Bytes(PLAIN, s1.disk.files[0].visible.lines) < 1000
            && StateOf(s1.disk) == Some(next) && next.lastSequence == 1 && !next.hasObsoleteHistory
            && Writable(ReadLock(s1.disk.lock))
  {
    var d, c := NewDisk(id, t), NewCache(id, t);
    var lines := d.files[0].visible.lines;
    var r: Record;
    r, next := FirstAppendStores(id, t, draft, now);
    FirstRecord(id, r, next);
    HeaderReplays(id, t);
    ReplayAppend(lines, r, "");
    var written := WriteRecord(d, r, WriteDone, 0).0;
    assert written.files[0].visible.lines == lines + [r];
    SmallLines(HeaderRecord(t, id), r);
    NewSysIsLive(id, t);
    OwnMetadataFixes(PLAIN, next);
    WriteReadsBack(d.lock, MetadataOf(next, PLAIN.options));
  }

  function SecondAppend(draft: Draft, now: Time): Step {
    AppendStep(2, draft, now, TORN, 0)
  }

  lemma AppendsStrandNewStore(id: string, t: Time, draft: Draft, now: Time, other: Draft, later: Time)
    returns (left: Disk)
    requires ValidStoreId(id) && t != ZERO_TIME && now != ZERO_TIME && later != ZERO_TIME
    requires draft.kind != "" && other.kind != ""
    ensures var s, appends := NewSys(id, t), [FirstAppend(draft, now), SecondAppend(other, later)];
            Run(PLAIN, s, appends) && Crash(Last(PLAIN, s, appends).disk, left) && Stranded(PLAIN, left)
  {
    var s, state, first, second := NewSys(id, t), HeaderState(id), FirstAppend(draft, now), SecondAppend(other, later);
    NewSysIsLive(id, t);
    SettledIsSturdy(PLAIN, s.disk, state);
    SmallAppendPersists(s, state, state, first);
    var s1 := Next(PLAIN, s, first);
    var next := FirstAppendLeaves(id, t, draft, now);
    var b, after := OrdinaryStepSturdy(PLAIN, s, state, state, first);
    SturdyIsLive(PLAIN, s1.disk, b, after);
    SmallAppendPersists(s1, b, next, second);
    left := TwoDeathsStrandStore(PLAIN, s, state, 1, draft, now, 0, second);
    TwoSteps(PLAIN, s, first, second);
  }

  /** An empty directory, two opens that nothing disturbs and two appends of any events. The first writer dies
      between writing its watermarks and syncing them, the second while writing its own, and the machine
      crashes: no process opens the store again. */
  lemma NewStoreCanBeStranded(id: string, t: Time, draft: Draft, now: Time, other: Draft, later: Time)
    returns (left: Disk)
    requires ValidStoreId(id) && t != ZERO_TIME && now != ZERO_TIME && later != ZERO_TIME
    requires draft.kind != "" && other.kind != ""
    ensures var steps := Opens(id, t) + [FirstAppend(draft, now), SecondAppend(other, later)];
            Run(PLAIN, NO_SYS, steps) && Crash(Last(PLAIN, NO_SYS, steps).disk, left) && Stranded(PLAIN, left)
  {
    left := AppendsStrandNewStore(id, t, draft, now, other, later);
    OpensReachNewSys(id, t, [FirstAppend(draft, now), SecondAppend(other, later)]);
  }
}
