/** When opening a store may itself put its watermarks ahead of its durable journal.

    Open brings the lock file's watermarks up to the journal it reads, but syncs
    that journal only when it had a torn tail to truncate. A record some process
    wrote and never synced is thereby promised to be durable (internal/audit/writer.go,
    internal/audit/metadata.go). */
module AuditReopen {
  import opened Wrappers
  import opened AuditJournal
  import opened AuditReplay
  import opened AuditCompaction
  import opened AuditMetadata
  import opened AuditDisk
  import opened AuditOps
  import opened AuditSafety
  import opened AuditLive
  import opened AuditInit
  import opened AuditCrash

  /** Every further record raises a watermark. */
  lemma LongerIsHigher(shorter: seq<Record>, longer: seq<Record>)
    requires shorter != [] && shorter <= longer && |shorter| < |longer|
    requires Replay(shorter, "").Some? && Replay(longer, "").Some?
    ensures var s, t := Replay(shorter, "").value, Replay(longer, "").value;
            s.lastSequence < t.lastSequence || s.prunedThrough < t.prunedThrough
  {
    var init, r := longer[..|longer| - 1], longer[|longer| - 1];
    ReplayExtends(shorter, init, longer, "");
    ScanLinesSound("", init);
    var mid := ScanLines(Start(""), init).value;
    if r.kind == Appended {
      AppliedEventIsLast(mid.state, r);
      ApplyEventContinues(mid.state, r);
    } else if r.kind == Prune {
      ApplyPruneContinues(mid.state, r);
    }
  }

  /** A journal behind its watermarks is refused, whatever else happens. */
  lemma RollbackRefused(env: Env, d: Disk, s: State, m: Metadata, newId: string, now: Time, io: OpenIO, tick: int)
    requires d.entry.Some? && d.entry.value in d.files && d.files[d.entry.value].visible.lines != []
    requires Replay(d.files[d.entry.value].visible.lines, "") == Some(s)
    requires LockedMetadata(d.lock) == Some(m) && m.storeId != "" && !Covers(s, m)
    ensures Open(env, d, newId, now, io, tick).cache.None?
  {
    var lines := d.files[d.entry.value].visible.lines;
    ReplayExpecting(lines, m.storeId);
    ReplayedIsHeaded(lines, "");
    assert Classify(d.files[d.entry.value].visible) == Envelope;
  }

  // ------------------------------------------------------- safe to open

  /** Opening raises the watermarks. */
  predicate Raises(env: Env, d: Disk, s: State) {
    LockedMetadata(d.lock) != Some(MetadataOf(s, env.options)) && Writable(ReadLock(d.lock))
  }

  /** Every record is durable, or a torn tail will make Open sync the file. */
  predicate RecordsFirm(d: Disk) {
    d.entry.Some? && d.entry.value in d.files &&
    (d.files[d.entry.value].visible.lines == d.files[d.entry.value].durable.lines ||
      d.files[d.entry.value].visible.tail != Clean)
  }

  /** The journal's entry is durable, or a stale compaction file will make Open sync the directory. */
  predicate EntryFirm(d: Disk) {
    d.entry == d.durableEntry || d.temp.Some?
  }

  predicate SafeToOpen(env: Env, d: Disk, s: State) {
    !Raises(env, d, s) || (RecordsFirm(d) && EntryFirm(d) && LatestSynced(d))
  }

  ghost predicate Healthy(env: Env, d: Disk) {
    exists s :: Holding(env, d, s)
  }

  lemma CleanupSturdy(env: Env, d: Disk, b: State, s: State, io: CleanupIO)
    requires Sturdy(env, d, b, s)
    ensures var (d', ready) := Cleanup(d, io);
            && Sturdy(env, d', b, s) && (ready && EntryFirm(d) ==> d'.entry == d'.durableEntry)
            && d'.lock == d.lock && d'.durableLock == d.durableLock && d'.files == d.files
  {
    SpanNarrows(d, Cleanup(d, io).0, b, s);
    HeaderLockKept(env, d, Cleanup(d, io).0, b, b);
  }

  lemma RaisedSturdy(env: Env, d: Disk, b: State, s: State, slot: SlotIO)
    requires Sturdy(env, d, b, s) && Follows(b, s) && JournalSettled(d) && LatestSynced(d)
    ensures Sturdy(env, WriteMetadata(d, MetadataOf(s, env.options), slot).0, s, s)
  {
    NarrowedSpan(d, b, s);
    assert !MayLeave(d, []);
    LockFixesFollows(env, d, b, s);
    WriteKeepsLock(env, d, s, slot);
    SpanNarrows(d, WriteMetadata(d, MetadataOf(s, env.options), slot).0, s, s);
  }

  lemma AdmitSturdy(env: Env, d: Disk, b: State, s: State, io: OpenIO)
    requires Sturdy(env, d, b, s) && (!Raises(env, d, s) || (JournalSettled(d) && LatestSynced(d)))
    ensures var d' := Admit(env, d, LockedMetadata(d.lock).value, s, io).disk;
            Sturdy(env, d', b, s) || Sturdy(env, d', s, s)
  {
    SturdyIsLive(env, d, b, s);
    OwnMetadataFixes(env, s);
    if Raises(env, d, s) { RaisedSturdy(env, d, b, s, io.slot); }
  }

  lemma OpenUnfolds(env: Env, d: Disk, s: State, newId: string, now: Time, io: OpenIO, tick: int)
    requires Live(env, d, s)
    ensures var (cleaned, ready) := Cleanup(d, io.cleanup);
            Open(env, d, newId, now, io, tick)
            == if ready then OpenCleaned(env, cleaned, ReadLock(d.lock), newId, now, io, tick)
               else Outcome(cleaned, None, None)
  {
  }

  /** Opening a store that is safe to open keeps it sturdy, wherever the call stops. */
  lemma OpenSturdy(env: Env, d: Disk, b: State, s: State, newId: string, now: Time, io: OpenIO, tick: int)
    requires Sturdy(env, d, b, s) && SafeToOpen(env, d, s)
    ensures var d' := Open(env, d, newId, now, io, tick).disk;
            Sturdy(env, d', b, s) || Sturdy(env, d', s, s)
  {
    SturdyIsLive(env, d, b, s);
    OpenUnfolds(env, d, s, newId, now, io, tick);
    CleanupSturdy(env, d, b, s, io.cleanup);
    var (d1, ready) := Cleanup(d, io.cleanup);
    if ready { OpenCleanedSturdy(env, d1, b, s, newId, now, io, tick); }
  }

  lemma OpenCleanedSturdy(env: Env, d: Disk, b: State, s: State, newId: string, now: Time, io: OpenIO, tick: int)
    requires Sturdy(env, d, b, s)
    requires !Raises(env, d, s) || (RecordsFirm(d) && d.entry == d.durableEntry && LatestSynced(d))
    ensures var d' := OpenCleaned(env, d, ReadLock(d.lock), newId, now, io, tick).disk;
            Sturdy(env, d', b, s) || Sturdy(env, d', s, s)
  {
    SturdyIsLive(env, d, b, s);
    OpenCleanedAdmits(env, d, s, newId, now, io, tick);
    RecoveredSpan(d, b, s, s.storeId, io.repair, tick);
    var (f, recovered) := RecoverFile(d.files[d.entry.value], s.storeId, io.repair, tick);
    HeaderLockKept(env, d, WithFile(d, f), b, b);
    if recovered.Some? { AdmitSturdy(env, WithFile(d, f), b, s, io); }
  }

  // ------------------------------------------------------- unsafe to open

  const UNDISTURBED := OpenIO(true, CleanupDone, true, RepairDone, SlotDone, WriteDone, SlotDone, true)

  /** The disk after an Open that raises the watermarks, its slot write ending as `slot` says. */
  lemma OpenRaises(env: Env, d: Disk, s: State, newId: string, now: Time, slot: SlotIO, tick: int)
    requires Live(env, d, s) && Raises(env, d, s)
    ensures var d1 := Cleanup(d, CleanupDone).0;
            var f := RecoverFile(d.files[d.entry.value], s.storeId, RepairDone, tick).0;
            && Open(env, d, newId, now, UNDISTURBED.(slot := slot), tick).disk
               == WriteMetadata(WithFile(d1, f), MetadataOf(s, env.options), slot).0
            && (d.files[d.entry.value].visible.tail == Clean ==> f == d.files[d.entry.value])
  {
    var io := UNDISTURBED.(slot := slot);
    OpenUnfolds(env, d, s, newId, now, io, tick);
    OpenCleanedAdmits(env, Cleanup(d, CleanupDone).0, s, newId, now, io, tick);
    ReplayExpecting(d.files[d.entry.value].visible.lines, s.storeId);
  }

  function Restored(d: Disk, i: nat, lines: seq<Record>, lock: Lock): Disk {
    var f := Inode(Content(lines, Clean), Content(lines, Clean), 0);
    Disk(map[i := f], Some(i), Some(i), None, lock, lock, Linked, d.next)
  }

  /** A crash may leave just the durable part of a journal. */
  lemma RestoredIsCrash(d: Disk, i: nat, lock: Lock)
    requires (d.entry == Some(i) || d.durableEntry == Some(i)) && i in d.files && CrashLock(d.durableLock, d.lock, lock)
    requires d.files[i].durable.lines <= d.files[i].visible.lines && !d.lockEntry.NoLockFile?
    ensures Crash(d, Restored(d, i, d.files[i].durable.lines, lock))
  {
    assert CrashContent(d.files[i], Restored(d, i, d.files[i].durable.lines, lock).files[i].visible);
  }

  ghost predicate Stranded(env: Env, d: Disk) {
    forall newId, now, io, tick :: Open(env, d, newId, now, io, tick).cache.None?
  }

  lemma RuinedIsStranded(env: Env, d: Disk)
    requires d.lock == RUINED && !d.lockEntry.NoLockFile?
    ensures Stranded(env, d) && !Healthy(env, d)
  {
  }

  lemma RollbackIsStranded(env: Env, d: Disk, s: State, m: Metadata)
    requires d.entry.Some? && d.entry.value in d.files && d.files[d.entry.value].visible.lines != []
    requires Replay(d.files[d.entry.value].visible.lines, "") == Some(s)
    requires LockedMetadata(d.lock) == Some(m) && m.storeId != "" && !Covers(s, m)
    ensures Stranded(env, d) && !Healthy(env, d)
  {
    forall newId, now, io, tick
      ensures Open(env, d, newId, now, io, tick).cache.None?
    {
      RollbackRefused(env, d, s, m, newId, now, io, tick);
    }
  }

  /** An empty journal is refused once more than its identity is fixed. */
  lemma EmptiedIsStranded(env: Env, d: Disk, m: Metadata)
    requires d.entry.Some? && d.entry.value in d.files && d.files[d.entry.value].visible == Content([], Clean)
    requires LockedMetadata(d.lock) == Some(m) && m.storeId != "" && !Pristine(m) && !d.lockEntry.NoLockFile?
    ensures Stranded(env, d) && !Healthy(env, d)
  {
    assert Classify(d.files[d.entry.value].visible) == Empty;
  }

  /** Opening beside an unsynced latest slot. */
  lemma UnsyncedSlotStrands(env: Env, d: Disk, b: State, s: State, newId: string, now: Time, tick: int)
    returns (left: Disk)
    requires Sturdy(env, d, b, s) && Raises(env, d, s) && !LatestSynced(d)
    ensures Crash(Open(env, d, newId, now, UNDISTURBED.(slot := SlotTorn(Noise)), tick).disk, left)
    ensures Stranded(env, left) && !Healthy(env, left)
  {
    SturdyIsLive(env, d, b, s);
    OpenRaises(env, d, s, newId, now, SlotTorn(Noise), tick);
    OwnMetadataFixes(env, s);
    var d1 := WithFile(Cleanup(d, CleanupDone).0, RecoverFile(d.files[d.entry.value], s.storeId, RepairDone, tick).0);
    UnsyncedLatestRuins(d1, MetadataOf(s, env.options));
    var d' := WriteMetadata(d1, MetadataOf(s, env.options), SlotTorn(Noise)).0;
    left := Restored(d', d.entry.value, d'.files[d.entry.value].durable.lines, RUINED);
    RestoredIsCrash(d', d.entry.value, RUINED);
    RuinedIsStranded(env, left);
  }

  /** Opening over records or an entry that are not durable. */
  lemma UnsyncedJournalStrands(env: Env, d: Disk, b: State, s: State, newId: string, now: Time, tick: int)
    returns (left: Disk)
    requires Sturdy(env, d, b, s) && Raises(env, d, s) && !(RecordsFirm(d) && EntryFirm(d))
    ensures Crash(Open(env, d, newId, now, UNDISTURBED.(slot := SlotNoDirSync), tick).disk, left)
    ensures Stranded(env, left) && !Healthy(env, left)
  {
    SturdyIsLive(env, d, b, s);
    OpenRaises(env, d, s, newId, now, SlotNoDirSync, tick);
    OwnMetadataFixes(env, s);
    WriteReadsBack(d.lock, MetadataOf(s, env.options));
    var d1 := WithFile(Cleanup(d, CleanupDone).0, RecoverFile(d.files[d.entry.value], s.storeId, RepairDone, tick).0);
    var d' := WriteMetadata(d1, MetadataOf(s, env.options), SlotNoDirSync).0;
    var i := if !EntryFirm(d) then d.durableEntry.value else d.entry.value;
    var lines := d'.files[i].durable.lines;
    assert lines == d.files[i].durable.lines;
    left := Restored(d', i, lines, d'.lock);
    RestoredIsCrash(d', i, d'.lock);
    assert MayLeave(d, lines) && Point(b, s, lines);
    if lines == [] {
      EmptiedIsStranded(env, left, MetadataOf(s, env.options));
    } else {
      if EntryFirm(d) { LongerIsHigher(lines, d.files[i].visible.lines); }
      RollbackIsStranded(env, left, Replay(lines, "").value, MetadataOf(s, env.options));
    }
  }

  /** Exactly when opening is crash safe. Take any store that a crash now would leave healthy. A crash
      at any point of an Open leaves a healthy store too if and only if Open does not raise the watermarks,
      or the records it reads are durable (or a torn tail makes it sync them), their directory entry is
      (or a stale compaction file makes it sync that), and so is the slot it does not overwrite. */
  lemma ReopenCrashSafeIff(env: Env, d: Disk, b: State, s: State, newId: string, now: Time, tick: int)
    requires Sturdy(env, d, b, s)
    ensures (forall io, left :: Crash(Open(env, d, newId, now, io, tick).disk, left) ==> Healthy(env, left))
            <==> SafeToOpen(env, d, s)
  {
    if SafeToOpen(env, d, s) {
      forall io, left | Crash(Open(env, d, newId, now, io, tick).disk, left)
        ensures Healthy(env, left)
      {
        OpenSturdy(env, d, b, s, newId, now, io, tick);
        var d' := Open(env, d, newId, now, io, tick).disk;
        var base := if Sturdy(env, d', b, s) then b else s;
        var u := SturdyCrashes(env, d', base, s, left);
      }
    } else if !LatestSynced(d) {
      var left := UnsyncedSlotStrands(env, d, b, s, newId, now, tick);
    } else {
      var left := UnsyncedJournalStrands(env, d, b, s, newId, now, tick);
    }
  }

  /** A healthy store is one that opens: with no failing system call, in its own state. */
  lemma HealthyOpens(env: Env, d: Disk, s: State, newId: string, now: Time, tick: int)
    requires Live(env, d, s) && RevisionOf(ReadLock(d.lock)) < MAX_UINT64
    ensures var o := Open(env, d, newId, now, UNDISTURBED, tick);
            o.cache.Some? && o.cache.value.state == s
  {
    OpenLive(env, d, s, newId, now, UNDISTURBED, tick);
  }

  /** So does a store whose header is not complete, as the empty store of its fixed identity. */
  lemma HoldingOpens(env: Env, d: Disk, u: State, newId: string, now: Time, tick: int)
    requires Holding(env, d, u) && RevisionOf(ReadLock(d.lock)) < MAX_UINT64 && ValidStoreId(newId) && now != ZERO_TIME
    ensures var o := Open(env, d, newId, now, UNDISTURBED, tick);
            o.cache.Some? && o.cache.value.state == u && Live(env, o.disk, u)
  {
    if Live(env, d, u) {
      OpenLive(env, d, u, newId, now, UNDISTURBED, tick);
    } else {
      OpenWindow(env, d, newId, now, UNDISTURBED, tick);
    }
  }

  /** Durable records behind the watermarks that a crash may leave beside them. */
  lemma RolledBack(env: Env, d: Disk, i: nat, s: State, m: Metadata) returns (left: Disk)
    requires d.entry == Some(i) && i in d.files && !d.lockEntry.NoLockFile?
    requires var f := d.files[i];
             f.durable.lines != [] && f.durable.lines <= f.visible.lines && Replay(f.durable.lines, "") == Some(s)
    requires LockedMetadata(d.lock) == Some(m) && m.storeId != "" && !Covers(s, m)
    ensures Crash(d, left) && Stranded(env, left)
  {
    left := Restored(d, i, d.files[i].durable.lines, d.lock);
    RestoredIsCrash(d, i, d.lock);
    RollbackIsStranded(env, left, s, m);
  }

  lemma KilledIsLive(env: Env, d: Disk, s: State, r: Record, t: State, tick: int)
    requires Live(env, d, s) && Settled(d) && r.kind == Appended && ApplyEvent(s, r) == Some(t) && Follows(s, t)
    ensures Live(env, WriteRecord(d, r, WriteNoSync, tick).0, t)
  {
    var killed := WriteRecord(d, r, WriteNoSync, tick).0;
    SettledIsSturdy(env, d, s);
    WrittenSpan(d, s, s, r, t, WriteNoSync, tick);
    HeaderLockKept(env, d, killed, s, s);
    SturdyIsLive(env, killed, s, t);
  }

  /** The record raises the watermarks, and the new ones are what its state is written as. */
  lemma KilledRaises(env: Env, d: Disk, s: State, r: Record, t: State)
    requires Live(env, d, s) && Writable(ReadLock(d.lock)) && ApplyEvent(s, r) == Some(t) && Follows(s, t)
    ensures var m := MetadataOf(t, env.options);
            && LockedMetadata(d.lock) != Some(m) && !Covers(s, m) && m.storeId != ""
            && ValidMetadata(m)
            && LockedMetadata(Put(d.lock, Target(ReadLock(d.lock)), NextSlot(ReadLock(d.lock), m))) == Some(m)
  {
    AppliedEventIsLast(s, r);
    OwnMetadataFixes(env, t);
    WriteReadsBack(d.lock, MetadataOf(t, env.options));
  }

  /** The failing family, from any healthy settled store: one record written but not
      synced by a process that died, one Open that succeeds, one crash. No Open succeeds after that. */
  lemma UnsyncedRecordStrandsStore(env: Env, d: Disk, s: State, r: Record, t: State, newId: string, now: Time,
                                   tick: int)
    returns (left: Disk)
    requires Live(env, d, s) && Settled(d) && Writable(ReadLock(d.lock))
    requires r.kind == Appended && ApplyEvent(s, r) == Some(t) && Follows(s, t)
    ensures var killed := WriteRecord(d, r, WriteNoSync, tick).0;
            && Open(env, killed, newId, now, UNDISTURBED, tick).cache.Some?
            && Crash(Open(env, killed, newId, now, UNDISTURBED, tick).disk, left)
    ensures Stranded(env, left)
  {
    var i := d.entry.value;
    var killed := WriteRecord(d, r, WriteNoSync, tick).0;
    KilledIsLive(env, d, s, r, t, tick);
    KilledRaises(env, d, s, r, t);
    OpenRaises(env, killed, t, newId, now, SlotDone, tick);
    HealthyOpens(env, killed, t, newId, now, tick);
    left := RolledBack(env, Open(env, killed, newId, now, UNDISTURBED, tick).disk, i, s, MetadataOf(t, env.options));
  }
}
