/** Initialising a store: from an empty directory, through every point at which a
    process may stop, to a healthy store with no events (internal/audit/writer.go, internal/audit/metadata.go). */
module AuditInit {
  import opened Wrappers
  import opened AuditJournal
  import opened AuditReplay
  import opened AuditCompaction
  import opened AuditMetadata
  import opened AuditHeader
  import opened AuditDisk
  import opened AuditOps
  import opened AuditSafety
  import opened AuditLive

  function HeaderState(id: string): State {
    Fresh(id).(header := true)
  }

  lemma HeaderReplays(id: string, now: Time)
    requires ValidStoreId(id) && now != ZERO_TIME
    ensures Replay([HeaderRecord(now, id)], "") == Some(HeaderState(id))
    ensures Replay([HeaderRecord(now, id)], id) == Some(HeaderState(id))
    ensures Good(HeaderState(id))
  {
    var lines := [HeaderRecord(now, id)];
    assert ScanLines(Start(""), lines[..|lines| - 1]) == Some(Start(""));
    assert ScanLines(Start(""), lines) == Some(Scan(HeaderState(id), 1, Absent));
    ReplayExpecting(lines, id);
  }

  // ------------------------------------------------------- the initialisation window

  /** Residue the window may hold: none, or a torn header of the store the lock file names. */
  ghost predicate WindowTail(r: Reading, t: Tail) {
    t == Clean || (r.Current? && t.TornFirst? && TornHeader(t.text, r.metadata.storeId))
  }

  /** A store whose header is not complete yet. Its journal is the only file, and the lock file's
      second slot has never been written. */
  ghost predicate Initial(env: Env, d: Disk) {
    var r := ReadLock(d.lock);
    && FilesSafe(d) && (d.durableEntry == d.entry || d.durableEntry.None?)
    && d.lock.second.Missing? && (d.lockEntry.NoLockFile? ==> d.lock == EMPTY_LOCK)
    && (d.entry.Some? ==>
          && d.files[d.entry.value].visible.lines == []
          && WindowTail(r, d.files[d.entry.value].visible.tail) && WindowTail(r, d.files[d.entry.value].durable.tail))
    && match r
       case Unset => true
       case TornInitial => d.entry.Some? && !d.lock.first.LegacyLine?
       case Current(m, _, _) => d.entry.Some? && ValidMetadata(m) && m == MetadataOf(Fresh(m.storeId), env.options)
       case _ => false
  }

  /** The identity the store has, or will get. */
  function Identity(d: Disk, newId: string): string {
    if ReadLock(d.lock).Current? then ReadLock(d.lock).metadata.storeId else newId
  }

  /** An interrupted header write leaves a torn header. */
  ghost predicate HeaderIO(d: Disk, newId: string, io: OpenIO) {
    io.header.WriteTorn? ==>
      io.header.tail == Clean || (io.header.tail.TornFirst? && TornHeader(io.header.tail.text, Identity(d, newId)))
  }

  ghost predicate InitialOrEmpty(env: Env, d: Disk) {
    Initial(env, d) || (exists id :: ValidStoreId(id) && Live(env, d, HeaderState(id)))
  }

  // ------------------------------------------------------- fixing the identity

  /** The step of Initialise that precedes the header. */
  function FixIdentity(env: Env, d: Disk, r: Reading, m: Metadata, io: SlotIO): (Disk, bool) {
    if r.TornInitial? then if ValidMetadata(m) then WriteSlot(d, 0, InitialSlot(m), io) else (d, false)
    else if MetadataOrBlank(r) == m then (d, true)
    else WriteMetadata(d, m, io)
  }

  /** The first slot write leaves the window, wherever it stops. */
  lemma FirstSlotWritten(env: Env, d: Disk, id: string, io: SlotIO)
    requires Initial(env, d) && d.entry.Some? && ValidStoreId(id) && !ReadLock(d.lock).Current?
    requires d.files[d.entry.value].visible.tail == Clean && !d.lockEntry.NoLockFile?
    ensures var m := MetadataOf(Fresh(id), env.options);
            var (d', ok) := WriteSlot(d, 0, InitialSlot(m), io);
            && Initial(env, d')
            && (ok ==> ReadLock(d'.lock).Current? && ReadLock(d'.lock).metadata == m)
  {
    var m := MetadataOf(Fresh(id), env.options);
    var (d', ok) := WriteSlot(d, 0, InitialSlot(m), io);
    assert d.lock.second == Missing && Tear(d.lock.first, InitialSlot(m), d'.lock.first);
  }

  lemma IdentityFixed(env: Env, d: Disk, id: string, io: SlotIO)
    requires Initial(env, d) && d.entry.Some? && ValidStoreId(id) && id == Identity(d, id)
    requires d.files[d.entry.value].visible.tail == Clean && !d.lockEntry.NoLockFile?
    ensures var m := MetadataOf(Fresh(id), env.options);
            var (d', ok) := FixIdentity(env, d, ReadLock(d.lock), m, io);
            && Initial(env, d') && d'.files == d.files && d'.entry == d.entry && d'.next == d.next
            && (ok ==> ReadLock(d'.lock).Current? && ReadLock(d'.lock).metadata == m)
            && (io.SlotDone? ==> ok)
            && (ok && !ReadLock(d.lock).Current? ==> d'.durableLock == d'.lock && d'.durableEntry == d'.entry)
            && (d'.lockEntry == d.lockEntry || d'.lockEntry.Linked?)
  {
    var m := MetadataOf(Fresh(id), env.options);
    if !ReadLock(d.lock).Current? {
      assert FixIdentity(env, d, ReadLock(d.lock), m, io) == WriteSlot(d, 0, InitialSlot(m), io);
      FirstSlotWritten(env, d, id, io);
    }
  }

  // ------------------------------------------------------- the header

  /** The header write, once the identity is fixed, wherever it stops. */
  lemma HeaderWritten(env: Env, d: Disk, now: Time, io: WriteIO, tick: int)
    requires Initial(env, d) && ReadLock(d.lock).Current? && now != ZERO_TIME
    requires d.files[d.entry.value].visible.tail == Clean
    requires io.WriteTorn? ==> WindowTail(ReadLock(d.lock), io.tail)
    ensures var id := ReadLock(d.lock).metadata.storeId;
            var (d', ok) := WriteRecord(d, HeaderRecord(now, id), io, tick);
            && (Initial(env, d') || Live(env, d', HeaderState(id)))
            && (ok <==> io.WriteDone?)
            && (ok ==>
                  Live(env, d', HeaderState(id)) && JournalSettled(d') &&
                  d'.files[d.entry.value].visible.tail == Clean)
            && d'.lock == d.lock && d'.durableLock == d.durableLock && d'.entry == d.entry
  {
    var id := ReadLock(d.lock).metadata.storeId;
    HeaderReplays(id, now);
    assert [] + [HeaderRecord(now, id)] == [HeaderRecord(now, id)];
  }

  lemma AdmitHeader(env: Env, d: Disk, id: string, io: OpenIO)
    requires Live(env, d, HeaderState(id)) && d.files[d.entry.value].visible.tail == Clean
    requires ReadLock(d.lock).Current? && ReadLock(d.lock).metadata == MetadataOf(Fresh(id), env.options)
    ensures var o := Admit(env, d, MetadataOrBlank(ReadLock(d.lock)), HeaderState(id), io);
            && o.disk == d && (io.unlocked ==> o.cache.Some?)
            && (o.cache.Some? ==> o.cache.value.state == HeaderState(id) && d.entry == Some(o.cache.value.inode))
  {
  }

  // ------------------------------------------------------- opening

  /** The disk once initialisation stops: the identity is fixed, then the header written. */
  function StartedDisk(env: Env, d: Disk, id: string, now: Time, io: OpenIO, tick: int): Disk
    requires d.entry.Some? && d.entry.value in d.files
  {
    var (fixed, ok) := FixIdentity(env, d, ReadLock(d.lock), MetadataOf(Fresh(id), env.options), io.first);
    if ok then WriteRecord(fixed, HeaderRecord(now, id), io.header, tick).0 else fixed
  }

  /** Initialising from within the window, after any torn header was removed. */
  lemma StartedWindow(env: Env, d: Disk, id: string, now: Time, io: OpenIO, tick: int)
    requires Initial(env, d) && d.entry.Some? && d.files[d.entry.value].visible.tail == Clean
    requires ValidStoreId(id) && id == Identity(d, id) && now != ZERO_TIME && !d.lockEntry.NoLockFile?
    requires io.header.WriteTorn? ==>
               io.header.tail == Clean || (io.header.tail.TornFirst? && TornHeader(io.header.tail.text, id))
    ensures var o := Started(env, d, ReadLock(d.lock), Fresh(id), now, io, tick);
            && InitialOrEmpty(env, o.disk) && o.disk == StartedDisk(env, d, id, now, io, tick)
            && (AllDone(io) ==> o.cache.Some?)
            && (o.cache.Some? ==>
                  && o.cache.value.state == HeaderState(id) && Live(env, o.disk, HeaderState(id))
                  && o.disk.entry == Some(o.cache.value.inode))
  {
    var r := ReadLock(d.lock);
    var m := MetadataOf(Fresh(id), env.options);
    IdentityFixed(env, d, id, io.first);
    var (fixed, ok) := FixIdentity(env, d, r, m, io.first);
    var o := Started(env, d, r, Fresh(id), now, io, tick);
    if !ok {
      assert o == Outcome(fixed, None, None);
    } else {
      HeaderWritten(env, fixed, now, io.header, tick);
      var (written, stored) := WriteRecord(fixed, HeaderRecord(now, id), io.header, tick);
      assert Initialise(env, d, r, Fresh(id), now, io, tick) == (written, stored);
      if stored {
        HeaderReplays(id, now);
        assert [] + [HeaderRecord(now, id)] == [HeaderRecord(now, id)];
        AdmitHeader(env, written, id, io);
        assert o == Admit(env, written, MetadataOrBlank(ReadLock(written.lock)), HeaderState(id), io);
      } else {
        assert o == Outcome(written, None, None);
      }
    }
  }

  /** What opening from within the window promises of its outcome. */
  ghost predicate WindowOpened(env: Env, d: Disk, newId: string, io: OpenIO, o: Outcome) {
    && InitialOrEmpty(env, o.disk)
    && (AllDone(io) ==> o.cache.Some?)
    && (o.cache.Some? ==>
          && o.cache.value.state == HeaderState(Identity(d, newId)) && Live(env, o.disk, o.cache.value.state)
          && o.disk.entry == Some(o.cache.value.inode))
  }

  lemma OpenCleanedWindow(env: Env, d: Disk, newId: string, now: Time, io: OpenIO, tick: int)
    requires Initial(env, d) && !d.lockEntry.NoLockFile?
    requires ValidStoreId(newId) && now != ZERO_TIME && HeaderIO(d, newId, io)
    ensures WindowOpened(env, d, newId, io, OpenCleaned(env, d, ReadLock(d.lock), newId, now, io, tick))
  {
    var r := ReadLock(d.lock);
    var o := OpenCleaned(env, d, r, newId, now, io, tick);
    var (located, ok) := Locate(d, r, io, tick);
    assert Initial(env, located) && located.lock == d.lock && located.durableLock == d.durableLock;
    if !ok {
      assert o == Outcome(located, None, None);
    } else {
      OpenLocatedWindow(env, located, newId, now, io, tick);
      assert o == OpenLocated(env, located, r, newId, now, io, tick);
    }
  }

  /** An Open from within the window stays within it or completes it, wherever it
      stops; undisturbed, it opens the empty store. */
  lemma OpenWindow(env: Env, d: Disk, newId: string, now: Time, io: OpenIO, tick: int)
    requires Initial(env, d) && ValidStoreId(newId) && now != ZERO_TIME && HeaderIO(d, newId, io)
    ensures WindowOpened(env, d, newId, io, Open(env, d, newId, now, io, tick))
  {
    LinkInWindow(env, d, newId, now, io, tick);
    var (linked, ok) := OpenLockFile(d, io.linked);
    if ok {
      CleanupInWindow(env, linked, newId, now, io, tick);
      var (cleaned, ready) := Cleanup(linked, io.cleanup);
      if ready { OpenCleanedWindow(env, cleaned, newId, now, io, tick); }
    }
  }

  lemma LinkInWindow(env: Env, d: Disk, newId: string, now: Time, io: OpenIO, tick: int)
    requires Initial(env, d)
    ensures var (linked, ok) := OpenLockFile(d, io.linked);
            && Initial(env, linked) && linked.lock == d.lock && !linked.lockEntry.NoLockFile?
            && (AllDone(io) ==> ok)
            && Open(env, d, newId, now, io, tick)
               == if ok then OpenLocked(env, linked, newId, now, io, tick) else Outcome(linked, None, None)
  {
  }

  /** Neither the lock file nor the policy keeps an Open out. */
  lemma LockedUnfolds(env: Env, d: Disk, newId: string, now: Time, io: OpenIO, tick: int)
    requires !ReadLock(d.lock).Corrupt?
    requires MetadataOrBlank(ReadLock(d.lock)).retention in {None, PolicyOf(env.options)}
    ensures var (cleaned, ready) := Cleanup(d, io.cleanup);
            OpenLocked(env, d, newId, now, io, tick)
            == if ready then OpenCleaned(env, cleaned, ReadLock(d.lock), newId, now, io, tick)
               else Outcome(cleaned, None, None)
  {
  }

  lemma SyncedIsInitial(env: Env, d: Disk)
    requires Initial(env, d)
    ensures Initial(env, SyncDirectory(d))
  {
  }

  lemma CleanedIsInitial(env: Env, d: Disk, io: CleanupIO)
    requires Initial(env, d)
    ensures var cleaned := Cleanup(d, io).0;
            && Initial(env, cleaned) && cleaned.lock == d.lock
            && (cleaned.lockEntry == d.lockEntry || cleaned.lockEntry.Linked?)
  {
    var bare := d.(temp := None);
    assert Initial(env, bare);
    SyncedIsInitial(env, bare);
  }

  lemma CleanupInWindow(env: Env, d: Disk, newId: string, now: Time, io: OpenIO, tick: int)
    requires Initial(env, d)
    ensures var (cleaned, ready) := Cleanup(d, io.cleanup);
            && Initial(env, cleaned) && cleaned.lock == d.lock
            && (cleaned.lockEntry == d.lockEntry || cleaned.lockEntry.Linked?)
            && (AllDone(io) ==> ready)
            && OpenLocked(env, d, newId, now, io, tick)
               == if ready then OpenCleaned(env, cleaned, ReadLock(d.lock), newId, now, io, tick)
                  else Outcome(cleaned, None, None)
  {
    LockedUnfolds(env, d, newId, now, io, tick);
    CleanedIsInitial(env, d, io.cleanup);
  }

  lemma OpenLocatedWindow(env: Env, d: Disk, newId: string, now: Time, io: OpenIO, tick: int)
    requires Initial(env, d) && d.entry.Some? && !d.lockEntry.NoLockFile?
    requires ValidStoreId(newId) && now != ZERO_TIME && HeaderIO(d, newId, io)
    ensures var o := OpenLocated(env, d, ReadLock(d.lock), newId, now, io, tick);
            var (f, recovered) := RecoverFile(d.files[d.entry.value], "", io.repair, tick);
            && WindowOpened(env, d, newId, io, o)
            && o.disk == if recovered.None? then WithFile(d, f)
                         else StartedDisk(env, WithFile(d, f), Identity(d, newId), now, io, tick)
  {
    var i, r := d.entry.value, ReadLock(d.lock);
    var o := OpenLocated(env, d, r, newId, now, io, tick);
    WindowAdmitted(env, d);
    RepairedWindow(env, d, io.repair, tick);
    var (f, recovered) := RecoverFile(d.files[i], "", io.repair, tick);
    var d' := WithFile(d, f);
    if recovered.None? {
      assert o == Outcome(d', None, None);
    } else {
      var id := Identity(d, newId);
      StartedWindow(env, d', id, now, io, tick);
      assert Fresh("").(storeId := id) == Fresh(id);
      assert OpenRecovered(env, d', r, Fresh(""), newId, now, io, tick)
          == Started(env, d', r, Fresh(id), now, io, tick);
    }
  }

  lemma WindowAdmitted(env: Env, d: Disk)
    requires Initial(env, d) && d.entry.Some?
    ensures var shape := Classify(d.files[d.entry.value].visible);
            ShapeAdmitted(ReadLock(d.lock), shape) && ExpectedStore(ReadLock(d.lock), shape) == ""
  {
    var tail := d.files[d.entry.value].visible.tail;
    if tail.TornFirst? {
      TornHeaderRepairable(tail.text, ReadLock(d.lock).metadata.storeId);
    }
  }

  lemma RepairedWindow(env: Env, d: Disk, io: RepairIO, tick: int)
    requires Initial(env, d) && d.entry.Some?
    ensures var (f, recovered) := RecoverFile(d.files[d.entry.value], "", io, tick);
            && Initial(env, WithFile(d, f))
            && (io.RepairDone? ==> recovered.Some?)
            && (recovered.Some? ==> recovered.value == Fresh("") && f.visible.tail == Clean)
  {
    assert Replay([], "") == Some(Fresh(""));
  }

  /** An empty directory. */
  const NOTHING := Disk(map[], None, None, None, EMPTY_LOCK, EMPTY_LOCK, NoLockFile, 0)
}
