/** Machine crashes while a store is being initialised, by any number of processes
    that die on the way (internal/audit/writer.go, internal/audit/metadata.go).

    Open creates the lock file and the journal, fixes the identity in the lock file
    and writes the header. It syncs what it writes itself, but not what it finds: an
    entry some other process created, or a slot some other process wrote. */
module AuditStart {
  import opened Wrappers
  import opened AuditJournal
  import opened AuditReplay
  import opened AuditCompaction
  import opened AuditMetadata
  import opened AuditHeader
  import opened AuditDisk
  import opened AuditOps
  import opened AuditSafety
  import opened AuditLive
  import opened AuditInit
  import opened AuditCrash
  import opened AuditReopen

  // ------------------------------------------------------- the window and its crashes

  /** A store in the initialisation window that every crash now would leave in it. */
  ghost predicate WindowSturdy(env: Env, d: Disk) {
    Initial(env, d) && forall left :: Crash(d, left) ==> Initial(env, left)
  }

  /** The journal's entry is durable, or Open will sync the directory first: because it removes a stale
      compaction file or creates the lock file. */
  predicate EntrySynced(d: Disk) {
    EntryFirm(d) || d.lockEntry.NoLockFile?
  }

  /** The identity, if it is fixed, is durable: its slot, and the lock file's entry unless Open will sync that. */
  predicate IdentitySynced(d: Disk) {
    ReadLock(d.lock).Current? ==> d.lock == d.durableLock && (d.lockEntry.Linked? || d.temp.Some?)
  }

  /** What Open builds on is durable. Known from the disk alone. */
  predicate SafeToStart(d: Disk) {
    EntrySynced(d) && IdentitySynced(d)
  }

  /** What is left when the journal's entry is lost. */
  function EntryLost(d: Disk, lock: Lock): Disk {
    Disk(map[], None, None, None, lock, lock, Linked, d.next)
  }

  lemma EntryLostIsCrash(d: Disk, lock: Lock)
    requires (d.entry.None? || d.durableEntry.None?) && CrashLock(d.durableLock, d.lock, lock)
    requires !d.lockEntry.NoLockFile?
    ensures Crash(d, EntryLost(d, lock))
  {
  }

  /** What is left when the lock file's entry is lost. */
  function LockLost(d: Disk, i: nat, lines: seq<Record>): Disk {
    Restored(d, i, lines, EMPTY_LOCK).(lockEntry := NoLockFile)
  }

  lemma LockLostIsCrash(d: Disk, i: nat)
    requires (d.entry == Some(i) || d.durableEntry == Some(i)) && i in d.files && !d.lockEntry.Linked?
    requires d.files[i].durable.lines <= d.files[i].visible.lines
    ensures Crash(d, LockLost(d, i, d.files[i].durable.lines))
  {
    assert CrashContent(d.files[i], LockLost(d, i, d.files[i].durable.lines).files[i].visible);
  }

  /** Of the lock file only the first slot may be pending, and nothing while the entry is. */
  lemma PendingLock(env: Env, d: Disk)
    requires WindowSturdy(env, d) && !d.lockEntry.NoLockFile?
    ensures d.durableLock.second.Missing? && !d.durableLock.first.LegacyLine?
    ensures d.durableEntry.None? ==> d.lock == d.durableLock == EMPTY_LOCK
  {
    if d.durableEntry.None? {
      EntryLostIsCrash(d, d.lock);
      EntryLostIsCrash(d, d.durableLock);
      assert Initial(env, EntryLost(d, d.lock)) && Initial(env, EntryLost(d, d.durableLock));
    } else {
      LockLeft(env, d, d.durableLock);
    }
  }

  /** Whatever a crash may leave of the lock file, it is one of the window's. */
  lemma LockLeft(env: Env, d: Disk, l: Lock)
    requires WindowSturdy(env, d) && d.durableEntry.Some? && CrashLock(d.durableLock, d.lock, l)
    requires !d.lockEntry.NoLockFile?
    ensures l.second.Missing? && !l.first.LegacyLine?
    ensures Valid(l.first) ==> l.first.metadata == MetadataOf(Fresh(l.first.metadata.storeId), env.options)
  {
    var i := d.entry.value;
    RestoredIsCrash(d, i, l);
    assert Initial(env, Restored(d, i, d.files[i].durable.lines, l));
  }

  /** The residue a crash leaves in the window, if the lock file is left as it is. */
  lemma TailLeft(env: Env, d: Disk, left: Disk)
    requires Initial(env, d) && Crash(d, left) && left.entry.Some?
    ensures var c := left.files[left.entry.value].visible;
            c.lines == [] && WindowTail(ReadLock(d.lock), c.tail)
  {
    var f, c := d.files[left.entry.value], left.files[left.entry.value].visible;
    if c.tail != Clean {
      var whole := if ShorterTail(c.tail, f.visible.tail) then f.visible.tail else f.durable.tail;
      TornShorter(c.tail.text, whole.text, ReadLock(d.lock).metadata.storeId);
    }
  }

  /** With nothing pending, a crash changes nothing that matters. */
  lemma SettledWindowIsSturdy(env: Env, d: Disk)
    requires Initial(env, d) && Settled(d)
    ensures WindowSturdy(env, d)
  {
    forall left | Crash(d, left)
      ensures Initial(env, left)
    {
      assert left.lock == d.lock;
      if left.entry.Some? { TailLeft(env, d, left); }
    }
  }

  lemma CrashIsSettled(d: Disk, left: Disk)
    requires Crash(d, left)
    ensures Settled(left) && SafeToStart(left)
  {
  }

  lemma WindowSturdyCrashes(env: Env, d: Disk, left: Disk)
    requires WindowSturdy(env, d) && Crash(d, left)
    ensures WindowSturdy(env, left) && SafeToStart(left)
  {
    CrashIsSettled(d, left);
    SettledWindowIsSturdy(env, left);
  }

  lemma FewerCrashes(env: Env, d: Disk, d': Disk)
    requires WindowSturdy(env, d) && Initial(env, d') && forall left :: Crash(d', left) ==> Crash(d, left)
    ensures WindowSturdy(env, d')
  {
  }

  // ------------------------------------------------------- step by step

  /** Creating the lock file: before the directory sync it may or may not survive. */
  lemma LinkWindow(env: Env, d: Disk, synced: bool)
    requires WindowSturdy(env, d)
    ensures var (d', ok) := OpenLockFile(d, synced);
            && WindowSturdy(env, d') && !d'.lockEntry.NoLockFile? && d'.lock == d.lock
            && (ok && EntrySynced(d) ==> EntryFirm(d')) && (IdentitySynced(d) ==> IdentitySynced(d'))
            && (!d.lockEntry.NoLockFile? ==> d' == d)
  {
    var d' := OpenLockFile(d, synced).0;
    if d.lockEntry.NoLockFile? {
      forall left | Crash(d', left)
        ensures Initial(env, left)
      {
        assert left.lock == EMPTY_LOCK;
        if left.entry.Some? { TailKept(d, d', left); }
      }
    }
  }

  lemma TailKept(d: Disk, d': Disk, left: Disk)
    requires Crash(d', left) && left.entry.Some? && d'.files == d.files && d'.entry == d.entry
    requires FilesSafe(d) && (d'.durableEntry == d.entry || d'.durableEntry.None?)
    requires var f := d.files[d.entry.value]; f.visible == f.durable == Content([], Clean)
    ensures left.files[left.entry.value].visible == Content([], Clean)
  {
  }

  /** Nothing is pending that Open builds on. */
  predicate Firm(d: Disk) {
    && d.entry == d.durableEntry && !d.lockEntry.NoLockFile?
    && (ReadLock(d.lock).Current? ==> d.lock == d.durableLock && d.lockEntry.Linked?)
  }

  lemma CleanupWindow(env: Env, d: Disk, io: CleanupIO)
    requires WindowSturdy(env, d) && !d.lockEntry.NoLockFile?
    ensures var (d', ready) := Cleanup(d, io);
            && WindowSturdy(env, d') && d'.lock == d.lock && d'.durableLock == d.durableLock
            && (ready && SafeToStart(d) ==> Firm(d'))
            && (d'.lockEntry == d.lockEntry || d'.lockEntry.Linked?)
  {
    var d' := Cleanup(d, io).0;
    forall left | Crash(d', left)
      ensures Crash(d, left)
    {
    }
    FewerCrashes(env, d, d');
  }

  lemma LocateWindow(env: Env, d: Disk, io: OpenIO, tick: int)
    requires WindowSturdy(env, d) && Firm(d)
    ensures var (d', ok) := Locate(d, ReadLock(d.lock), io, tick);
            && WindowSturdy(env, d') && d'.lock == d.lock && d'.durableLock == d.durableLock
            && (ok ==> d'.entry.Some? && Firm(d'))
            && (d'.lockEntry == d.lockEntry || d'.lockEntry.Linked?)
  {
    var d' := Locate(d, ReadLock(d.lock), io, tick).0;
    if d.entry.None? {
      PendingLock(env, d);
      forall left | Crash(d', left)
        ensures Initial(env, left)
      {
        assert left.lock == EMPTY_LOCK;
      }
    }
  }

  /** Removing a torn header leaves nothing that could not be left before. */
  lemma RepairedCrash(d: Disk, io: RepairIO, tick: int, left: Disk)
    requires FilesSafe(d) && d.entry.Some? && d.files[d.entry.value].visible.lines == []
    requires d.durableEntry == d.entry || d.durableEntry.None?
    requires Crash(WithFile(d, RecoverFile(d.files[d.entry.value], "", io, tick).0), left)
    ensures Crash(d, left)
  {
    var i := d.entry.value;
    if left.entry.Some? {
      var f := RecoverFile(d.files[i], "", io, tick).0;
      assert f.visible.lines == [] && (f.durable == d.files[i].durable || f.durable.tail == Clean);
      assert CrashContent(d.files[i], left.files[i].visible);
    }
  }

  lemma RecoverWindow(env: Env, d: Disk, io: RepairIO, tick: int)
    requires WindowSturdy(env, d) && d.entry.Some?
    ensures WindowSturdy(env, WithFile(d, RecoverFile(d.files[d.entry.value], "", io, tick).0))
  {
    RepairedWindow(env, d, io, tick);
    var d' := WithFile(d, RecoverFile(d.files[d.entry.value], "", io, tick).0);
    forall left | Crash(d', left)
      ensures Crash(d, left)
    {
      RepairedCrash(d, io, tick, left);
    }
    FewerCrashes(env, d, d');
  }

  /** What a crash may make of the first slot while it is being written over an unreadable one. */
  lemma FirstSlotCrash(durable: Region, visible: Region, m: Metadata, left: Region, r: Region)
    requires ValidMetadata(m) && !Valid(visible) && !visible.LegacyLine? && !durable.LegacyLine?
    requires Tear(visible, InitialSlot(m), left) && CrashRegion(durable, left, r)
    ensures !r.LegacyLine? && (Valid(r) ==> r == InitialSlot(m) || CrashRegion(durable, visible, r))
  {
  }

  /** Writing the identity, over nothing or over a torn slot, stays in the window wherever it stops and whatever
      crash follows; once done the identity is durable, and so is the journal's entry. */
  lemma FirstSlotSturdy(env: Env, d: Disk, id: string, io: SlotIO)
    requires WindowSturdy(env, d) && d.entry.Some? && Firm(d) && ValidStoreId(id)
    requires !ReadLock(d.lock).Current? && d.files[d.entry.value].visible.tail == Clean
    ensures var (d', ok) := WriteSlot(d, 0, InitialSlot(MetadataOf(Fresh(id), env.options)), io);
            WindowSturdy(env, d') && d'.entry == d'.durableEntry && (ok ==> PristineLock(env, d', id))
  {
    var m := MetadataOf(Fresh(id), env.options);
    var d' := WriteSlot(d, 0, InitialSlot(m), io).0;
    FirstSlotWritten(env, d, id, io);
    PendingLock(env, d);
    forall left | Crash(d', left)
      ensures Initial(env, left)
    {
      var r := left.lock.first;
      if left.lockEntry.Linked? && (io.SlotTorn? || io.SlotNoSync?) {
        FirstSlotCrash(d.durableLock.first, d.lock.first, m, d'.lock.first, r);
        if Valid(r) && r != InitialSlot(m) { LockLeft(env, d, Lock(r, Missing)); }
      }
      assert left.lock == Lock(r, Missing);
    }
  }

  /** Fixing the identity, at every crash point. A slot found already written must be durable. */
  lemma IdentitySturdy(env: Env, d: Disk, id: string, io: SlotIO)
    requires WindowSturdy(env, d) && d.entry.Some? && Firm(d)
    requires ValidStoreId(id) && id == Identity(d, id) && d.files[d.entry.value].visible.tail == Clean
    ensures var (d', ok) := FixIdentity(env, d, ReadLock(d.lock), MetadataOf(Fresh(id), env.options), io);
            && WindowSturdy(env, d') && d'.entry == d'.durableEntry && d'.files == d.files && d'.entry == d.entry
            && (ok || ReadLock(d.lock).Current? ==> PristineLock(env, d', id))
  {
    if !ReadLock(d.lock).Current? {
      var m := MetadataOf(Fresh(id), env.options);
      assert FixIdentity(env, d, ReadLock(d.lock), m, io) == WriteSlot(d, 0, InitialSlot(m), io);
      FirstSlotSturdy(env, d, id, io);
    }
  }

  /** The empty store, its header perhaps not durable yet. */
  ghost predicate HeaderStore(env: Env, d: Disk, id: string) {
    && Sturdy(env, d, HeaderState(id), HeaderState(id)) && d.entry == d.durableEntry
    && |d.files[d.entry.value].visible.lines| == 1
  }

  /** Writing the header once the identity is durable, at every crash point. */
  lemma HeaderSturdy(env: Env, d: Disk, id: string, now: Time, io: WriteIO, tick: int)
    requires WindowSturdy(env, d) && PristineLock(env, d, id) && d.entry == d.durableEntry && now != ZERO_TIME
    requires d.files[d.entry.value].visible.tail == Clean && (io.WriteTorn? ==> WindowTail(ReadLock(d.lock), io.tail))
    ensures var d' := WriteRecord(d, HeaderRecord(now, id), io, tick).0;
            if io.WriteTorn? then WindowSturdy(env, d') && PristineLock(env, d', id) else HeaderStore(env, d', id)
  {
    var d' := WriteRecord(d, HeaderRecord(now, id), io, tick).0;
    HeaderWritten(env, d, now, io, tick);
    if io.WriteTorn? {
      SettledWindowIsSturdy(env, d');
    } else {
      HeaderSpan(env, d', id, now);
    }
  }

  lemma HeaderSpan(env: Env, d: Disk, id: string, now: Time)
    requires FilesSafe(d) && PristineLock(env, d, id) && d.entry.Some? && d.entry == d.durableEntry
    requires ValidStoreId(id) && now != ZERO_TIME
    requires var f := d.files[d.entry.value];
             && f.visible.lines == [HeaderRecord(now, id)] && WindowTail(ReadLock(d.lock), f.durable.tail)
    ensures HeaderStore(env, d, id)
  {
    var lines := d.files[d.entry.value].visible.lines;
    var b := HeaderState(id);
    HeaderReplays(id, now);
    FollowsReflexive(b);
    forall left | MayLeave(d, left)
      ensures Point(b, b, left)
    {
      assert left == [] || left == lines;
    }
    forall l | CrashLock(d.durableLock, d.lock, l)
      ensures LockedMetadata(l).Some? && Fixes(env, b, LockedMetadata(l).value)
    {
      assert l == d.lock;
    }
  }

  // ------------------------------------------------------- opening

  /** What an Open from the window leaves: the window still, or the empty store. An identity that was durable
      before is kept. */
  ghost predicate Starts(env: Env, d: Disk, d': Disk, id: string) {
    || (WindowSturdy(env, d') && (PristineLock(env, d, id) ==> PristineLock(env, d', id)))
    || HeaderStore(env, d', id)
  }

  lemma StartedSturdy(env: Env, d: Disk, id: string, now: Time, io: OpenIO, tick: int)
    requires WindowSturdy(env, d) && d.entry.Some? && Firm(d)
    requires d.files[d.entry.value].visible.tail == Clean && ValidStoreId(id) && id == Identity(d, id)
    requires now != ZERO_TIME
    requires io.header.WriteTorn? ==>
               io.header.tail == Clean || (io.header.tail.TornFirst? && TornHeader(io.header.tail.text, id))
    ensures Starts(env, d, StartedDisk(env, d, id, now, io, tick), id)
  {
    IdentitySturdy(env, d, id, io.first);
    var (fixed, ok) := FixIdentity(env, d, ReadLock(d.lock), MetadataOf(Fresh(id), env.options), io.first);
    if ok { HeaderSturdy(env, fixed, id, now, io.header, tick); }
  }

  lemma OpenLocatedStarts(env: Env, d: Disk, newId: string, now: Time, io: OpenIO, tick: int)
    requires WindowSturdy(env, d) && d.entry.Some? && Firm(d)
    requires ValidStoreId(newId) && now != ZERO_TIME && HeaderIO(d, newId, io)
    ensures Starts(env, d, OpenLocated(env, d, ReadLock(d.lock), newId, now, io, tick).disk, Identity(d, newId))
  {
    OpenLocatedWindow(env, d, newId, now, io, tick);
    RecoverWindow(env, d, io.repair, tick);
    RepairedWindow(env, d, io.repair, tick);
    var (f, recovered) := RecoverFile(d.files[d.entry.value], "", io.repair, tick);
    if recovered.Some? { StartedSturdy(env, WithFile(d, f), Identity(d, newId), now, io, tick); }
  }

  /** Opening a store that is safe to start keeps every crash in the window or the empty store, wherever it stops. */
  lemma OpenStarts(env: Env, d: Disk, newId: string, now: Time, io: OpenIO, tick: int)
    requires WindowSturdy(env, d) && SafeToStart(d)
    requires ValidStoreId(newId) && now != ZERO_TIME && HeaderIO(d, newId, io)
    ensures Starts(env, d, Open(env, d, newId, now, io, tick).disk, Identity(d, newId))
  {
    LinkInWindow(env, d, newId, now, io, tick);
    LinkWindow(env, d, io.linked);
    var (d1, ok) := OpenLockFile(d, io.linked);
    if ok { OpenLockedStarts(env, d1, newId, now, io, tick); }
  }

  lemma OpenLockedStarts(env: Env, d: Disk, newId: string, now: Time, io: OpenIO, tick: int)
    requires WindowSturdy(env, d) && SafeToStart(d) && !d.lockEntry.NoLockFile?
    requires ValidStoreId(newId) && now != ZERO_TIME && HeaderIO(d, newId, io)
    ensures Starts(env, d, OpenLocked(env, d, newId, now, io, tick).disk, Identity(d, newId))
  {
    CleanupInWindow(env, d, newId, now, io, tick);
    CleanupWindow(env, d, io.cleanup);
    var (d1, ready) := Cleanup(d, io.cleanup);
    if ready {
      LocateWindow(env, d1, io, tick);
      var (d2, ok) := Locate(d1, ReadLock(d.lock), io, tick);
      if ok { OpenLocatedStarts(env, d2, newId, now, io, tick); }
    }
  }

  lemma StartsCrashes(env: Env, d: Disk, d': Disk, id: string, left: Disk)
    requires Starts(env, d, d', id) && Crash(d', left)
    ensures InitialOrEmpty(env, left)
  {
    if !WindowSturdy(env, d') {
      var b := HeaderState(id);
      var u := SturdyCrashes(env, d', b, b, left);
      if Live(env, left, u) {
        var lines := left.files[left.entry.value].visible.lines;
        assert lines == d'.files[d'.entry.value].visible.lines;
        assert u == b;
      }
    }
  }

  // ------------------------------------------------------- unsafe to start

  /** A journal entry found and not synced. The identity becomes durable without it. */
  lemma UnsyncedEntryStrands(env: Env, d: Disk, newId: string, now: Time, tick: int) returns (left: Disk)
    requires WindowSturdy(env, d) && !EntrySynced(d) && ValidStoreId(newId) && now != ZERO_TIME
    ensures Crash(Open(env, d, newId, now, UNDISTURBED.(first := SlotNoDirSync), tick).disk, left)
    ensures Stranded(env, left) && !InitialOrEmpty(env, left)
  {
    var io := UNDISTURBED.(first := SlotNoDirSync);
    PendingLock(env, d);
    LinkInWindow(env, d, newId, now, io, tick);
    CleanupInWindow(env, d, newId, now, io, tick);
    var d1 := Cleanup(d, CleanupDone).0;
    OpenLocatedWindow(env, d1, newId, now, io, tick);
    RepairedWindow(env, d1, RepairDone, tick);
    var m := MetadataOf(Fresh(newId), env.options);
    var d' := Open(env, d, newId, now, io, tick).disk;
    assert d'.lock == d'.durableLock == Lock(InitialSlot(m), Missing) && d'.durableEntry.None?;
    left := EntryLost(d', d'.lock);
    EntryLostIsCrash(d', d'.lock);
  }

  lemma StartedWritesHeader(env: Env, d: Disk, now: Time, io: OpenIO, tick: int)
    requires Initial(env, d) && ReadLock(d.lock).Current? && d.files[d.entry.value].visible.tail == Clean
    requires io.header.WriteDone? || io.header.WriteNoDirSync?
    ensures var id := ReadLock(d.lock).metadata.storeId;
            var d' := StartedDisk(env, d, id, now, io, tick);
            && d'.entry == d.entry && d.entry.value in d'.files
            && d'.files[d.entry.value].durable.lines == d'.files[d.entry.value].visible.lines == [HeaderRecord(now, id)]
            && d'.lock == d.lock && d'.durableLock == d.durableLock && d'.next == d.next
            && (d'.lockEntry == d.lockEntry || (io.header.WriteDone? && d'.lockEntry.Linked?))
  {
    var id := ReadLock(d.lock).metadata.storeId;
    assert [] + [HeaderRecord(now, id)] == [HeaderRecord(now, id)];
  }

  lemma OpenIsStarted(env: Env, d: Disk, newId: string, now: Time, header: WriteIO, tick: int) returns (mid: Disk)
    requires Initial(env, d) && ReadLock(d.lock).Current? && ValidStoreId(newId) && now != ZERO_TIME
    requires header.WriteDone? || header.WriteNoDirSync?
    ensures Initial(env, mid) && mid.entry.Some? && mid.entry == d.entry
    ensures mid.files[mid.entry.value].visible.tail == Clean
    ensures mid.lock == d.lock && mid.durableLock == d.durableLock && mid.next == d.next
    ensures mid.lockEntry == d.lockEntry || (d.temp.Some? && mid.lockEntry.Linked?)
    ensures var io := UNDISTURBED.(header := header);
            Open(env, d, newId, now, io, tick).disk
            == StartedDisk(env, mid, ReadLock(d.lock).metadata.storeId, now, io, tick)
  {
    var io := UNDISTURBED.(header := header);
    LinkInWindow(env, d, newId, now, io, tick);
    CleanupInWindow(env, d, newId, now, io, tick);
    var d1 := Cleanup(d, CleanupDone).0;
    OpenLocatedWindow(env, d1, newId, now, io, tick);
    RepairedWindow(env, d1, RepairDone, tick);
    mid := WithFile(d1, RecoverFile(d1.files[d1.entry.value], "", RepairDone, tick).0);
  }

  /** The disk after an Open of a store whose identity is fixed, its header write ending as `header` says. */
  lemma OpenWritesHeader(env: Env, d: Disk, newId: string, now: Time, header: WriteIO, tick: int)
    requires Initial(env, d) && ReadLock(d.lock).Current? && ValidStoreId(newId) && now != ZERO_TIME
    requires header.WriteDone? || header.WriteNoDirSync?
    ensures var d' := Open(env, d, newId, now, UNDISTURBED.(header := header), tick).disk;
            var lines := [HeaderRecord(now, ReadLock(d.lock).metadata.storeId)];
            && d.entry.Some? && d'.entry == d.entry && d.entry.value in d'.files
            && d'.files[d.entry.value].durable.lines == d'.files[d.entry.value].visible.lines == lines
            && d'.lock == d.lock && d'.durableLock == d.durableLock && d'.next == d.next
            && (header.WriteNoDirSync? && d.temp.None? ==> d'.lockEntry == d.lockEntry)
            && !d'.lockEntry.NoLockFile?
  {
    var mid := OpenIsStarted(env, d, newId, now, header, tick);
    StartedWritesHeader(env, mid, now, UNDISTURBED.(header := header), tick);
  }

  /** A lock file found whose entry is not synced. The header becomes durable without it. */
  lemma UnsyncedLockFileStrands(env: Env, d: Disk, newId: string, now: Time, tick: int) returns (left: Disk)
    requires WindowSturdy(env, d) && ReadLock(d.lock).Current? && d.lockEntry.Unsynced? && d.temp.None?
    requires ValidStoreId(newId) && now != ZERO_TIME
    ensures Crash(Open(env, d, newId, now, UNDISTURBED.(header := WriteNoDirSync), tick).disk, left)
    ensures Stranded(env, left) && !InitialOrEmpty(env, left)
  {
    OpenWritesHeader(env, d, newId, now, WriteNoDirSync, tick);
    var d', i := Open(env, d, newId, now, UNDISTURBED.(header := WriteNoDirSync), tick).disk, d.entry.value;
    left := LockLost(d', i, d'.files[i].durable.lines);
    LockLostIsCrash(d', i);
  }

  /** An identity found and not synced. The header becomes durable without it. */
  lemma UnsyncedIdentityStrands(env: Env, d: Disk, newId: string, now: Time, tick: int) returns (left: Disk)
    requires WindowSturdy(env, d) && ReadLock(d.lock).Current? && d.lock != d.durableLock
    requires ValidStoreId(newId) && now != ZERO_TIME
    ensures var o := Open(env, d, newId, now, UNDISTURBED, tick); o.cache.Some? && Crash(o.disk, left)
    ensures Stranded(env, left) && !InitialOrEmpty(env, left)
  {
    PendingLock(env, d);
    OpenWindow(env, d, newId, now, UNDISTURBED, tick);
    OpenWritesHeader(env, d, newId, now, WriteDone, tick);
    assert UNDISTURBED.(header := WriteDone) == UNDISTURBED;
    var d', i := Open(env, d, newId, now, UNDISTURBED, tick).disk, d.entry.value;
    left := Restored(d', i, d'.files[i].durable.lines, Lock(Noise, Missing));
    RestoredIsCrash(d', i, Lock(Noise, Missing));
  }

  /** Exactly when initialisation is crash safe. Take any store in the initialisation window that a crash now
      would leave there, whatever other processes left unfinished in it. A crash at any point of an Open leaves
      the window or the empty store if and only if the journal's entry, if there is one, is durable (or Open
      creates the lock file or removes a stale compaction file, and so syncs it), and the slot that fixes the
      identity, if there is one, is durable with its file's entry (or Open syncs that as well). */
  lemma InitialisationCrashSafeIff(env: Env, d: Disk, newId: string, now: Time, tick: int)
    requires WindowSturdy(env, d) && ValidStoreId(newId) && now != ZERO_TIME
    ensures (forall io, left :: HeaderIO(d, newId, io) && Crash(Open(env, d, newId, now, io, tick).disk, left) ==>
               InitialOrEmpty(env, left))
            <==> SafeToStart(d)
  {
    if SafeToStart(d) {
      forall io, left | HeaderIO(d, newId, io) && Crash(Open(env, d, newId, now, io, tick).disk, left)
        ensures InitialOrEmpty(env, left)
      {
        OpenStarts(env, d, newId, now, io, tick);
        StartsCrashes(env, d, Open(env, d, newId, now, io, tick).disk, Identity(d, newId), left);
      }
    } else if !EntrySynced(d) {
      var left := UnsyncedEntryStrands(env, d, newId, now, tick);
      assert HeaderIO(d, newId, UNDISTURBED.(first := SlotNoDirSync));
    } else if d.lock == d.durableLock {
      var left := UnsyncedLockFileStrands(env, d, newId, now, tick);
      assert HeaderIO(d, newId, UNDISTURBED.(header := WriteNoDirSync));
    } else {
      var left := UnsyncedIdentityStrands(env, d, newId, now, tick);
      assert HeaderIO(d, newId, UNDISTURBED);
    }
  }

  lemma StartedSettles(env: Env, d: Disk, id: string, now: Time, io: OpenIO, tick: int)
    requires Initial(env, d) && d.entry.Some? && d.files[d.entry.value].visible.tail == Clean && AllDone(io)
    requires ValidStoreId(id) && id == Identity(d, id) && now != ZERO_TIME && !d.lockEntry.NoLockFile?
    requires ReadLock(d.lock).Current? ==> d.lock == d.durableLock
    ensures Settled(StartedDisk(env, d, id, now, io, tick))
  {
    IdentityFixed(env, d, id, io.first);
    var (fixed, ok) := FixIdentity(env, d, ReadLock(d.lock), MetadataOf(Fresh(id), env.options), io.first);
    HeaderWritten(env, fixed, now, io.header, tick);
  }

  lemma LocatedInWindow(env: Env, d: Disk, io: OpenIO, tick: int)
    requires Initial(env, d) && !d.lockEntry.NoLockFile? && io.created
    ensures var (d', ok) := Locate(d, ReadLock(d.lock), io, tick);
            && ok && Initial(env, d') && d'.entry.Some? && d'.lock == d.lock && d'.durableLock == d.durableLock
            && !d'.lockEntry.NoLockFile?
  {
  }

  lemma OpenLocatedSettles(env: Env, d: Disk, newId: string, now: Time, io: OpenIO, tick: int)
    requires Initial(env, d) && d.entry.Some? && !d.lockEntry.NoLockFile? && AllDone(io)
    requires ReadLock(d.lock).Current? ==> d.lock == d.durableLock
    requires ValidStoreId(newId) && now != ZERO_TIME
    ensures Settled(OpenLocated(env, d, ReadLock(d.lock), newId, now, io, tick).disk)
  {
    OpenLocatedWindow(env, d, newId, now, io, tick);
    RepairedWindow(env, d, RepairDone, tick);
    var f := RecoverFile(d.files[d.entry.value], "", RepairDone, tick).0;
    StartedSettles(env, WithFile(d, f), Identity(d, newId), now, io, tick);
  }

  /** An undisturbed Open leaves nothing pending. */
  lemma UndisturbedSettles(env: Env, d: Disk, newId: string, now: Time, io: OpenIO, tick: int)
    requires Initial(env, d) && (ReadLock(d.lock).Current? ==> d.lock == d.durableLock)
    requires ValidStoreId(newId) && now != ZERO_TIME && AllDone(io)
    ensures Settled(Open(env, d, newId, now, io, tick).disk)
  {
    LinkInWindow(env, d, newId, now, io, tick);
    var d0 := OpenLockFile(d, true).0;
    CleanupInWindow(env, d0, newId, now, io, tick);
    var d1 := Cleanup(d0, CleanupDone).0;
    LocatedInWindow(env, d1, io, tick);
    OpenLocatedSettles(env, Locate(d1, ReadLock(d.lock), io, tick).0, newId, now, io, tick);
  }

  /** The empty store, or the way to it, that a crash left: an undisturbed Open yields the empty store, durable. */
  lemma EmptyStoreOpens(env: Env, d: Disk, newId: string, now: Time, io: OpenIO, tick: int) returns (id: string)
    requires InitialOrEmpty(env, d) && Settled(d) && RevisionOf(ReadLock(d.lock)) < MAX_UINT64
    requires ValidStoreId(newId) && now != ZERO_TIME && AllDone(io)
    ensures var o := Open(env, d, newId, now, io, tick);
            && o.cache.Some? && Settled(o.disk)
            && ValidStoreId(id) && o.cache.value.state == HeaderState(id) && Live(env, o.disk, HeaderState(id))
  {
    if Initial(env, d) {
      id := Identity(d, newId);
      OpenWindow(env, d, newId, now, io, tick);
      UndisturbedSettles(env, d, newId, now, io, tick);
    } else {
      id :| ValidStoreId(id) && Live(env, d, HeaderState(id));
      OpenLive(env, d, HeaderState(id), newId, now, io, tick);
    }
  }

  /** After a crash anywhere in an initialisation that was safe to start, an undisturbed Open yields the empty
      store, durable; and so for every further attempt, as what the crash left is safe to start. */
  lemma InitialisationIsCrashSafe(env: Env, d: Disk, newId: string, now: Time, io: OpenIO, tick: int, left: Disk,
                                  laterId: string, laterNow: Time, again: OpenIO)
    requires WindowSturdy(env, d) && SafeToStart(d)
    requires ValidStoreId(newId) && now != ZERO_TIME && HeaderIO(d, newId, io)
    requires Crash(Open(env, d, newId, now, io, tick).disk, left)
    requires ValidStoreId(laterId) && laterNow != ZERO_TIME && AllDone(again) &&
             RevisionOf(ReadLock(left.lock)) < MAX_UINT64
    ensures InitialOrEmpty(env, left) && (Initial(env, left) ==> WindowSturdy(env, left) && SafeToStart(left))
    ensures var o := Open(env, left, laterId, laterNow, again, tick);
            && o.cache.Some? && Settled(o.disk)
            && exists id ::
                 ValidStoreId(id) && o.cache.value.state == HeaderState(id) &&
                 Live(env, o.disk, HeaderState(id))
  {
    OpenStarts(env, d, newId, now, io, tick);
    StartsCrashes(env, d, Open(env, d, newId, now, io, tick).disk, Identity(d, newId), left);
    CrashIsSettled(Open(env, d, newId, now, io, tick).disk, left);
    if Initial(env, left) { SettledWindowIsSturdy(env, left); }
    var id := EmptyStoreOpens(env, left, laterId, laterNow, again, tick);
  }

  lemma NothingIsSturdy(env: Env)
    ensures WindowSturdy(env, NOTHING) && SafeToStart(NOTHING)
  {
    SettledWindowIsSturdy(env, NOTHING);
  }
}
