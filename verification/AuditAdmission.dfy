/** Exactly which stores a writer refreshes from, and exactly which directories open,
    healthy or not (internal/audit/writer.go). */
module AuditAdmission {
  import opened Wrappers
  import opened AuditJournal
  import opened AuditReplay
  import opened AuditCompaction
  import opened AuditMetadata
  import opened AuditHeader
  import opened AuditDisk
  import opened AuditOps
  import opened AuditSafety
  import opened AuditLive
  import opened AuditInit
  import opened AuditReopen

  predicate HasRecords(d: Disk) {
    d.entry.Some? && d.entry.value in d.files && d.files[d.entry.value].visible.lines != []
  }

  /** The state the canonical journal replays to. */
  function JournalState(d: Disk): Option<State> {
    if HasRecords(d) then Replay(d.files[d.entry.value].visible.lines, "") else None
  }

  // ------------------------------------------------------- refresh

  /** The journal is a lawful successor of what the writer last saw: more of the same file, or a later generation. */
  predicate Succeeds(d: Disk, c: Cache, s: State) {
    && s.storeId == c.state.storeId
    && if d.entry == Some(c.inode) then s.generation == c.state.generation && Continues(c.state, s)
       else Advances(c.state, s)
  }

  /** The lock file fixes this store under this policy, and the journal is a lawful successor that covers it. */
  predicate Refreshable(env: Env, d: Disk, c: Cache) {
    match LockedMetadata(d.lock)
    case None => false
    case Some(m) =>
      && m.storeId == c.state.storeId && m.retention == PolicyOf(env.options)
      && match JournalState(d)
         case None => false
         case Some(s) => Succeeds(d, c, s) && Covers(s, m)
  }

  /** In every run, a refresh with nothing failing succeeds if and only if that is so, and ends at the full replay:
      skipping the replay because the file looks unchanged makes no difference to either. */
  lemma RefreshIff(env: Env, d: Disk, c: Cache, tick: int)
    requires FilesSafe(d) && CacheSafe(env, d, c)
    ensures var o := Refresh(env, d, c, RepairDone, tick);
            && (o.cache.Some? <==> Refreshable(env, d, c))
            && (o.cache.Some? ==> Some(o.cache.value.state) == JournalState(d))
  {
    if d.entry == Some(c.inode) && Matches(env, c, d.files[c.inode]) {
      MatchIsExact(env, d, c);
      ReplayIsContiguous(d.files[c.inode].visible.lines, "");
      ContinuesReflexive(c.state);
    } else if HasRecords(d) {
      ReplayExpecting(d.files[d.entry.value].visible.lines, c.state.storeId);
    }
  }

  // ------------------------------------------------------- open

  /** The lock file as Open reads it: a missing one is created empty. */
  function LockSeen(d: Disk): Lock {
    if d.lockEntry.NoLockFile? then EMPTY_LOCK else d.lock
  }

  /** The lock file is readable and fixes no other policy. */
  predicate Admits(env: Env, r: Reading) {
    !r.Corrupt? && MetadataOrBlank(r).retention in {None, PolicyOf(env.options)}
  }

  /** A journal with records: of the store the lock file names, at or past its watermarks, and the watermarks are up
      to date or can be brought so. */
  predicate RecordsOpen(env: Env, d: Disk, r: Reading) {
    && (r.Current? || r.Legacy?)
    && match JournalState(d)
       case None => false
       case Some(s) =>
         && Covers(s, r.metadata)
         && (r.metadata == MetadataOf(s, env.options)
             || (RevisionOf(r) < MAX_UINT64 && ValidMetadata(MetadataOf(s, env.options))))
  }

  /** Residue that may be dropped when there are no records. */
  predicate Droppable(r: Reading, t: Tail) {
    match t
    case Clean => true
    case TornRecord(_) => false
    case TornFirst(text) =>
      || text == ""
      || (r.Unset? && IdentifiableLegacyPrefix(text))
      || (r.Current? && PossibleHeaderPrefix(text, r.metadata.storeId))
  }

  /** No records yet: no more than an identity is fixed, and not without a journal. */
  predicate EmptyOpens(env: Env, d: Disk, r: Reading) {
    && (|| r.Unset? || r.TornInitial?
        || (r.Current? && Pristine(r.metadata)
            && (r.metadata.retention == PolicyOf(env.options) || r.revision < MAX_UINT64)))
    && (d.entry.None? ==> r.Unset?)
    && (d.entry.Some? && d.entry.value in d.files ==> Droppable(r, d.files[d.entry.value].visible.tail))
  }

  predicate Openable(env: Env, d: Disk) {
    var r := ReadLock(LockSeen(d));
    Admits(env, r) && if HasRecords(d) then RecordsOpen(env, d, r) else EmptyOpens(env, d, r)
  }

  /** The state a directory opens in. */
  function OpenedState(d: Disk, newId: string): State {
    match JournalState(d)
    case Some(s) => s
    case None =>
      var r := ReadLock(LockSeen(d));
      HeaderState(if r.Current? then r.metadata.storeId else newId)
  }

  /** The outcome of an undisturbed Open that succeeds if and only if `opens`. */
  predicate OpenedAs(env: Env, d: Disk, opens: bool, newId: string, o: Outcome) {
    && (o.cache.Some? <==> opens)
    && (o.cache.Some? ==>
          && o.cache.value.state == OpenedState(d, newId) && o.disk.temp.None?
          && LockedMetadata(o.disk.lock) == Some(MetadataOf(o.cache.value.state, env.options)))
  }

  // ---- with records

  lemma AdmitIff(env: Env, d: Disk, r: Reading, s: State)
    requires d.entry.Some? && d.entry.value in d.files && r == ReadLock(d.lock) && (r.Current? || r.Legacy?)
    ensures var o := Admit(env, d, r.metadata, s, UNDISTURBED);
            && (o.cache.Some? <==>
                  && Covers(s, r.metadata)
                  && (r.metadata == MetadataOf(s, env.options)
                      || (RevisionOf(r) < MAX_UINT64 && ValidMetadata(MetadataOf(s, env.options)))))
            && (o.cache.Some? ==>
                  && o.cache.value.state == s && o.disk.temp == d.temp
                  && LockedMetadata(o.disk.lock) == Some(MetadataOf(s, env.options)))
  {
    if Writable(r) && ValidMetadata(MetadataOf(s, env.options)) { WriteReadsBack(d.lock, MetadataOf(s, env.options)); }
  }

  lemma RecordsOpenIff(env: Env, d: Disk, newId: string, now: Time, tick: int)
    requires FilesSafe(d) && HasRecords(d) && d.temp.None?
    ensures var r := ReadLock(d.lock);
            var o := OpenLocated(env, d, r, newId, now, UNDISTURBED, tick);
            !r.Corrupt? ==> OpenedAs(env, d, RecordsOpen(env, d, r), newId, o)
  {
    var r, i := ReadLock(d.lock), d.entry.value;
    if !r.Corrupt? {
      var shape := Classify(d.files[i].visible);
      if JournalState(d).Some? { ReplayedIsHeaded(d.files[i].visible.lines, ""); }
      if r.Current? || r.Legacy? {
        assert r.metadata.storeId != "";
        ReplayExpecting(d.files[i].visible.lines, r.metadata.storeId);
        if JournalState(d).Some? && JournalState(d).value.storeId == r.metadata.storeId {
          var (f, recovered) := RecoverFile(d.files[i], r.metadata.storeId, RepairDone, tick);
          AdmitIff(env, WithFile(d, f), r, JournalState(d).value);
        }
      }
    }
  }

  // ---- without records

  /** Fixing the identity with nothing failing. */
  lemma FixesIff(env: Env, d: Disk, r: Reading, id: string)
    requires r == ReadLock(d.lock) && ValidStoreId(id)
    requires r.Unset? || r.TornInitial? || (r.Current? && Pristine(r.metadata) && r.metadata.storeId == id)
    requires r.Current? ==> r.metadata.retention in {None, PolicyOf(env.options)}
    ensures var m := MetadataOf(Fresh(id), env.options);
            var (d', ok) := FixIdentity(env, d, r, m, SlotDone);
            && (ok <==> r.Current? ==> r.metadata.retention == PolicyOf(env.options) || r.revision < MAX_UINT64)
            && (ok ==> ReadLock(d'.lock).Current? && ReadLock(d'.lock).metadata == m)
            && d'.files == d.files && d'.entry == d.entry && d'.temp == d.temp
  {
    var m := MetadataOf(Fresh(id), env.options);
    if Writable(r) { WriteReadsBack(d.lock, m); }
  }

  lemma StartedIff(env: Env, d: Disk, r: Reading, id: string, now: Time, tick: int)
    requires d.entry.Some? && d.entry.value in d.files && d.files[d.entry.value].visible == Content([], Clean)
    requires r == ReadLock(d.lock) && ValidStoreId(id) && now != ZERO_TIME && d.temp.None?
    requires r.Unset? || r.TornInitial? || (r.Current? && Pristine(r.metadata) && r.metadata.storeId == id)
    requires r.Current? ==> r.metadata.retention in {None, PolicyOf(env.options)}
    ensures var o := Started(env, d, r, Fresh(id), now, UNDISTURBED, tick);
            && (o.cache.Some? <==>
                  r.Current? ==> r.metadata.retention == PolicyOf(env.options) || r.revision < MAX_UINT64)
            && (o.cache.Some? ==>
                  && o.cache.value.state == HeaderState(id) && o.disk.temp.None?
                  && LockedMetadata(o.disk.lock) == Some(MetadataOf(HeaderState(id), env.options)))
  {
    var m := MetadataOf(Fresh(id), env.options);
    FixesIff(env, d, r, id);
    var (fixed, ok) := FixIdentity(env, d, r, m, SlotDone);
    var o := Started(env, d, r, Fresh(id), now, UNDISTURBED, tick);
    if !ok {
      assert o == Outcome(fixed, None, None);
    } else {
      var written := WriteRecord(fixed, HeaderRecord(now, id), WriteDone, tick).0;
      assert Initialise(env, d, r, Fresh(id), now, UNDISTURBED, tick) == (written, true);
      HeaderReplays(id, now);
      assert [] + [HeaderRecord(now, id)] == [HeaderRecord(now, id)];
      AdmitIff(env, written, ReadLock(written.lock), HeaderState(id));
      HeaderCovers(env, id);
      assert o == Admit(env, written, m, HeaderState(id), UNDISTURBED);
    }
  }

  lemma HeaderCovers(env: Env, id: string)
    requires ValidStoreId(id)
    ensures Covers(HeaderState(id), MetadataOf(Fresh(id), env.options))
    ensures MetadataOf(HeaderState(id), env.options) == MetadataOf(Fresh(id), env.options)
  {
  }

  lemma NotStarted(env: Env, d: Disk, newId: string, now: Time, tick: int)
    requires FilesSafe(d) && d.entry.Some? && !HasRecords(d)
    requires var r := ReadLock(d.lock); r.Legacy? || (r.Current? && !Pristine(r.metadata))
    ensures OpenLocated(env, d, ReadLock(d.lock), newId, now, UNDISTURBED, tick).cache.None?
  {
    assert MetadataOrBlank(ReadLock(d.lock)).storeId != "";
  }

  lemma ShapeIff(d: Disk, r: Reading)
    requires d.entry.Some? && d.entry.value in d.files && !HasRecords(d)
    requires r.Unset? || r.TornInitial? || (r.Current? && Pristine(r.metadata))
    ensures var shape := Classify(d.files[d.entry.value].visible);
            && (ShapeAdmitted(r, shape) <==> Droppable(r, d.files[d.entry.value].visible.tail))
            && !shape.Envelope? && ExpectedStore(r, shape) == ""
  {
  }

  lemma EmptyOpenIff(env: Env, d: Disk, newId: string, now: Time, tick: int)
    requires FilesSafe(d) && d.entry.Some? && !HasRecords(d) && d.temp.None? && !d.lockEntry.NoLockFile?
    requires ValidStoreId(newId) && now != ZERO_TIME && Admits(env, ReadLock(d.lock))
    ensures var r := ReadLock(d.lock);
            OpenedAs(env, d, EmptyOpens(env, d, r), newId, OpenLocated(env, d, r, newId, now, UNDISTURBED, tick))
  {
    var r, i := ReadLock(d.lock), d.entry.value;
    if r.Legacy? || (r.Current? && !Pristine(r.metadata)) {
      NotStarted(env, d, newId, now, tick);
    } else {
      ShapeIff(d, r);
      var (f, recovered) := RecoverFile(d.files[i], "", RepairDone, tick);
      var d' := WithFile(d, f);
      var id := if r.Current? then r.metadata.storeId else newId;
      assert Replay([], "") == Some(Fresh("")) && Fresh("").(storeId := id) == Fresh(id);
      assert f.visible == Content([], Clean) && recovered == Some(Fresh(""));
      StartedIff(env, d', r, id, now, tick);
      assert OpenRecovered(env, d', r, Fresh(""), newId, now, UNDISTURBED, tick)
          == Started(env, d', r, Fresh(id), now, UNDISTURBED, tick);
    }
  }

  // ---- all together

  lemma NoJournalOpens(env: Env, d: Disk, newId: string, now: Time, tick: int)
    requires FilesSafe(d) && d.temp.None? && !d.lockEntry.NoLockFile? && d.entry.None? && ReadLock(d.lock).Unset?
    requires ValidStoreId(newId) && now != ZERO_TIME
    ensures OpenedAs(env, d, true, newId, OpenCleaned(env, d, Unset, newId, now, UNDISTURBED, tick))
  {
    var located := Locate(d, Unset, UNDISTURBED, tick).0;
    assert located.files[located.entry.value].visible == Content([], Clean) && !HasRecords(located);
    EmptyOpenIff(env, located, newId, now, tick);
  }

  lemma FoundUnfolds(env: Env, d: Disk, newId: string, now: Time, tick: int)
    requires FilesSafe(d) && d.entry.Some?
    ensures OpenCleaned(env, d, ReadLock(d.lock), newId, now, UNDISTURBED, tick)
         == OpenLocated(env, d, ReadLock(d.lock), newId, now, UNDISTURBED, tick)
  {
  }

  lemma ReadingNames(l: Lock)
    ensures ReadLock(l).Current? || ReadLock(l).Legacy? ==> ReadLock(l).metadata.storeId != ""
  {
  }

  /** A lock file that names a store, or was torn while naming one, is not taken for that of a new store. */
  lemma MissingRefused(env: Env, d: Disk, newId: string, now: Time, tick: int)
    requires d.entry.None? && !ReadLock(d.lock).Unset? && !ReadLock(d.lock).Corrupt?
    ensures OpenCleaned(env, d, ReadLock(d.lock), newId, now, UNDISTURBED, tick).cache.None?
  {
    ReadingNames(d.lock);
    assert Locate(d, ReadLock(d.lock), UNDISTURBED, tick) == (d, false);
  }

  lemma LocatedIff(env: Env, d: Disk, newId: string, now: Time, tick: int)
    requires FilesSafe(d) && d.temp.None? && !d.lockEntry.NoLockFile? && Admits(env, ReadLock(d.lock))
    requires ValidStoreId(newId) && now != ZERO_TIME
    ensures OpenedAs(env, d, Openable(env, d), newId,
                     OpenCleaned(env, d, ReadLock(d.lock), newId, now, UNDISTURBED, tick))
  {
    if HasRecords(d) {
      FoundUnfolds(env, d, newId, now, tick);
      RecordsOpenIff(env, d, newId, now, tick);
    } else if d.entry.Some? {
      FoundUnfolds(env, d, newId, now, tick);
      EmptyOpenIff(env, d, newId, now, tick);
    } else if ReadLock(d.lock).Unset? {
      NoJournalOpens(env, d, newId, now, tick);
    } else {
      MissingRefused(env, d, newId, now, tick);
    }
  }

  lemma CleanedAlike(env: Env, d: Disk)
    ensures var cleaned := Cleanup(d, CleanupDone).0;
            && cleaned.temp.None? && cleaned.lock == d.lock && (FilesSafe(d) ==> FilesSafe(cleaned))
            && (!d.lockEntry.NoLockFile? ==> !cleaned.lockEntry.NoLockFile?)
            && JournalState(cleaned) == JournalState(d) && HasRecords(cleaned) == HasRecords(d)
            && cleaned.entry == d.entry && cleaned.files == d.files
  {
  }

  lemma LockedIff(env: Env, d: Disk, newId: string, now: Time, tick: int)
    requires FilesSafe(d) && !d.lockEntry.NoLockFile? && ValidStoreId(newId) && now != ZERO_TIME
    ensures OpenedAs(env, d, Openable(env, d), newId, OpenLocked(env, d, newId, now, UNDISTURBED, tick))
  {
    if Admits(env, ReadLock(d.lock)) {
      var cleaned := Cleanup(d, CleanupDone).0;
      LockedUnfolds(env, d, newId, now, UNDISTURBED, tick);
      CleanedAlike(env, d);
      LocatedIff(env, cleaned, newId, now, tick);
    }
  }

  /** Exactly which directories open. Whatever is on the disk, an Open with nothing failing succeeds if and only if
      the lock file is readable and fixes no other policy, and either the journal is one of the store it names at or
      past its watermarks, or there are no records and no more than an identity is fixed. It ends in the state of that
      journal, or as the empty store, with the watermarks up to date and no stale compaction file. */
  lemma OpensIff(env: Env, d: Disk, newId: string, now: Time, tick: int)
    requires FilesSafe(d) && ValidStoreId(newId) && now != ZERO_TIME
    ensures OpenedAs(env, d, Openable(env, d), newId, Open(env, d, newId, now, UNDISTURBED, tick))
  {
    var linked := OpenLockFile(d, true).0;
    assert linked.files == d.files && linked.entry == d.entry && LockSeen(linked) == LockSeen(d);
    LockedIff(env, linked, newId, now, tick);
  }

  /** An unreadable lock file, or one that fixes another policy, is refused however the call goes. */
  lemma OtherPolicyRefused(env: Env, d: Disk, newId: string, now: Time, io: OpenIO, tick: int)
    requires FilesSafe(d) && !Admits(env, ReadLock(LockSeen(d)))
    ensures Open(env, d, newId, now, io, tick).cache.None?
  {
  }
}
