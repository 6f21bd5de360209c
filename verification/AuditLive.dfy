/** Cooperating writers always make progress, and a machine crash during any one
    operation leaves the store as it was before or after that operation. */
module AuditLive {
  import opened Wrappers
  import opened AuditJournal
  import opened AuditReplay
  import opened AuditCompaction
  import opened AuditMetadata
  import opened AuditDisk
  import opened AuditOps
  import opened AuditSafety

  // ------------------------------------------------------- healthy stores

  /** The lock file's watermarks are this store's, and not ahead of state `s`. */
  predicate Fixes(env: Env, s: State, m: Metadata) {
    && m.retention == PolicyOf(env.options) && Covers(s, m)
    && (m.lastRecordedAt.Some? ==> s.lastRecordedAt != ZERO_TIME)
  }

  predicate JournalIs(d: Disk, s: State) {
    && d.entry.Some? && d.entry.value in d.files
    && d.files[d.entry.value].visible.lines != []
    && Replay(d.files[d.entry.value].visible.lines, "") == Some(s)
    && Good(s)
  }

  /** A healthy store in state `s`. */
  predicate Live(env: Env, d: Disk, s: State) {
    && FilesSafe(d) && JournalIs(d, s)
    && LockedMetadata(d.lock).Some? && Fixes(env, s, LockedMetadata(d.lock).value) && !d.lockEntry.NoLockFile?
  }

  /** A cache of an earlier state of this store; if its file was replaced, of an earlier generation. */
  ghost predicate CacheLive(env: Env, d: Disk, s: State, c: Cache) {
    CacheSafe(env, d, c) && (d.entry != Some(c.inode) ==> Advances(c.state, s))
  }

  /** `t` is `s` with more history. */
  predicate Follows(s: State, t: State) {
    && Continues(s, t) && Good(t)
    && (s.lastRecordedAt != ZERO_TIME ==> t.lastRecordedAt != ZERO_TIME && s.lastRecordedAt <= t.lastRecordedAt)
  }

  lemma FixesFollows(env: Env, s: State, t: State, m: Metadata)
    requires Fixes(env, s, m) && Follows(s, t)
    ensures Fixes(env, t, m)
  {
  }

  lemma OwnMetadataFixes(env: Env, s: State)
    requires Good(s)
    ensures ValidMetadata(MetadataOf(s, env.options)) && Fixes(env, s, MetadataOf(s, env.options))
  {
  }

  // ------------------------------------------------------- refresh

  lemma CacheContinues(env: Env, d: Disk, s: State, c: Cache)
    requires FilesSafe(d) && JournalIs(d, s) && CacheLive(env, d, s, c)
    ensures Continues(c.state, s)
    ensures d.entry == Some(c.inode) ==> s.generation == c.state.generation
    ensures s.storeId == c.state.storeId
  {
    if d.entry == Some(c.inode) {
      var lines := d.files[c.inode].visible.lines;
      var k: nat :| CachedAt(env, lines, c, k);
      ReplayExtends(lines[..k], lines, lines, "");
    }
  }

  /** Refresh by a live writer of a healthy store succeeds unless repairing a torn
      tail itself fails, and then holds exactly the full replay of the canonical
      file; it skips that replay only when the cache already is that replay. */
  lemma RefreshSucceeds(env: Env, d: Disk, s: State, c: Cache, io: RepairIO, tick: int)
    requires Live(env, d, s) && CacheLive(env, d, s, c)
    ensures var o := Refresh(env, d, c, io, tick);
            && Live(env, o.disk, s) && Later(d, o.disk) && o.disk.entry == d.entry && o.disk.next == d.next
            && (o.cache.Some? <==>
                  || (d.entry == Some(c.inode) && Matches(env, c, d.files[c.inode]))
                  || d.files[d.entry.value].visible.tail == Clean || io.RepairDone?)
            && (o.cache.Some? ==> o.cache.value.state == s && Exact(env, o.disk, o.cache.value))
            && (JournalSettled(d) ==> JournalSettled(o.disk))
            && o.disk.lock == d.lock && o.disk.durableLock == d.durableLock && o.disk.lockEntry == d.lockEntry
            && o.disk.files[d.entry.value].visible.lines == d.files[d.entry.value].visible.lines
  {
    RefreshSafe(env, d, c, io, tick, map[]);
    CacheContinues(env, d, s, c);
    if d.entry == Some(c.inode) && Matches(env, c, d.files[c.inode]) {
      MatchIsExact(env, d, c);
    } else {
      AdoptSucceeds(env, d, s, c, io, tick);
    }
  }

  /** Reading the canonical file again. */
  lemma AdoptSucceeds(env: Env, d: Disk, s: State, c: Cache, io: RepairIO, tick: int)
    requires Live(env, d, s) && Continues(c.state, s) && c.state.storeId == s.storeId
    requires if d.entry == Some(c.inode) then s.generation == c.state.generation else Advances(c.state, s)
    ensures var o := Adopt(env, d, c, LockedMetadata(d.lock).value, d.entry.value, io, tick);
            && o.disk == WithFile(d, RecoverFile(d.files[d.entry.value], s.storeId, io, tick).0)
            && o.disk.files[d.entry.value].visible.lines == d.files[d.entry.value].visible.lines
            && (o.cache.Some? <==> d.files[d.entry.value].visible.tail == Clean || io.RepairDone?)
            && (o.cache.Some? ==> o.cache.value.state == s)
            && (JournalSettled(d) ==> JournalSettled(o.disk))
  {
    ReplayExpecting(d.files[d.entry.value].visible.lines, s.storeId);
  }

  // ------------------------------------------------------- what a crash may leave

  /** Whatever a crash leaves of the lock file still fixes `s`. */
  ghost predicate LockFixes(env: Env, d: Disk, s: State) {
    && d.lockEntry.Linked?
    && forall l :: CrashLock(d.durableLock, d.lock, l) ==>
         LockedMetadata(l).Some? &&
         Fixes(env, s, LockedMetadata(l).value)
  }

  /** Any crash now leaves a healthy, settled store in one of two states. */
  ghost predicate CrashesTo(env: Env, d: Disk, s: State, t: State) {
    forall d' :: Crash(d, d') ==> Settled(d') && (Live(env, d', s) || Live(env, d', t))
  }

  lemma TearTwice(before: Region, after: Region, left: Region, r: Region)
    requires Tear(before, after, left) && left != before && Tear(before, left, r)
    ensures Tear(before, after, r)
  {
  }

  /** After a metadata write from a settled lock file, every crash reads the old or the new metadata. */
  lemma MetadataWriteReads(d: Disk, m: Metadata, io: SlotIO, l: Lock)
    requires d.lock == d.durableLock && LockedMetadata(d.lock).Some? && ValidMetadata(m)
    requires CrashLock(WriteMetadata(d, m, io).0.durableLock, WriteMetadata(d, m, io).0.lock, l)
    ensures LockedMetadata(l) == LockedMetadata(d.lock) || LockedMetadata(l) == Some(m)
  {
    var now := ReadLock(d.lock);
    if Writable(now) {
      var slot, r := Target(now), NextSlot(now, m);
      var d' := WriteMetadata(d, m, io).0;
      var before, left := At(d.lock, slot), At(d'.lock, slot);
      assert Tear(before, r, left);
      assert CrashRegion(At(d'.durableLock, slot), left, At(l, slot));
      if left != before && Tear(before, left, At(l, slot)) {
        TearTwice(before, r, left, At(l, slot));
      }
      assert Tear(before, r, At(l, slot));
      assert l == Put(d.lock, slot, At(l, slot));
      TornWriteReads(d.lock, m, At(l, slot));
    }
  }

  /** The same write as every process sees it, settled or not. */
  lemma MetadataWriteVisible(d: Disk, m: Metadata, io: SlotIO)
    requires LockedMetadata(d.lock).Some? && ValidMetadata(m)
    ensures var (d', ok) := WriteMetadata(d, m, io);
            && (LockedMetadata(d'.lock) == LockedMetadata(d.lock) || LockedMetadata(d'.lock) == Some(m))
            && (ok ==> LockedMetadata(d'.lock) == Some(m) && d'.durableLock == d'.lock && d'.durableEntry == d.entry)
            && d'.files == d.files && d'.entry == d.entry && d'.next == d.next
  {
    var now := ReadLock(d.lock);
    if Writable(now) {
      var d' := WriteMetadata(d, m, io).0;
      TornWriteReads(d.lock, m, At(d'.lock, Target(now)));
      assert d'.lock == Put(d.lock, Target(now), At(d'.lock, Target(now)));
      WriteReadsBack(d.lock, m);
    }
  }

  lemma SteadyCrash(env: Env, d: Disk, s: State)
    requires FilesSafe(d) && JournalIs(d, s) && JournalSettled(d) && LockFixes(env, d, s)
    ensures CrashesTo(env, d, s, s)
  {
    forall d' | Crash(d, d')
      ensures Settled(d') && Live(env, d', s)
    {
      var i := d.entry.value;
      assert d'.files[i].visible.lines == d.files[i].visible.lines;
    }
  }

  lemma GrownCrash(env: Env, d: Disk, s: State, t: State)
    requires FilesSafe(d) && JournalIs(d, t) && d.durableEntry == d.entry && Good(s)
    requires var f := d.files[d.entry.value];
             f.durable.lines != [] && |f.visible.lines| == |f.durable.lines| + 1 &&
             Replay(f.durable.lines, "") == Some(s)
    requires LockFixes(env, d, s) && LockFixes(env, d, t)
    ensures CrashesTo(env, d, s, t)
  {
    forall d' | Crash(d, d')
      ensures Settled(d') && (Live(env, d', s) || Live(env, d', t))
    {
      var f, left := d.files[d.entry.value], d'.files[d.entry.value].visible.lines;
      assert left == f.durable.lines || left == f.visible.lines;
    }
  }

  lemma RenamedCrash(env: Env, d: Disk, s: State, t: State)
    requires FilesSafe(d) && JournalIs(d, t) && d.durableEntry.Some? && Good(s)
    requires var f := d.files[d.durableEntry.value];
             f.visible.lines == f.durable.lines != [] && Replay(f.durable.lines, "") == Some(s)
    requires d.files[d.entry.value].visible.lines == d.files[d.entry.value].durable.lines
    requires LockFixes(env, d, s) && LockFixes(env, d, t)
    ensures CrashesTo(env, d, s, t)
  {
    forall d' | Crash(d, d')
      ensures Settled(d') && (Live(env, d', s) || Live(env, d', t))
    {
      var i := d'.entry.value;
      assert d'.files[i].visible.lines == d.files[i].visible.lines;
    }
  }

  lemma SettledLockFixes(env: Env, d: Disk, s: State)
    requires d.lock == d.durableLock && LockedMetadata(d.lock).Some? && Fixes(env, s, LockedMetadata(d.lock).value)
    requires d.lockEntry.Linked?
    ensures LockFixes(env, d, s)
  {
  }

  lemma WrittenLockFixes(env: Env, d: Disk, s: State, io: SlotIO)
    requires d.lock == d.durableLock && LockedMetadata(d.lock).Some? && Fixes(env, s, LockedMetadata(d.lock).value)
    requires Good(s) && d.lockEntry.Linked?
    ensures LockFixes(env, WriteMetadata(d, MetadataOf(s, env.options), io).0, s)
  {
    var m := MetadataOf(s, env.options);
    OwnMetadataFixes(env, s);
    var d' := WriteMetadata(d, m, io).0;
    forall l | CrashLock(d'.durableLock, d'.lock, l)
      ensures LockedMetadata(l).Some? && Fixes(env, s, LockedMetadata(l).value)
    {
      MetadataWriteReads(d, m, io, l);
    }
  }

  // ------------------------------------------------------- operations

  /** How the canonical journal may move from state `s` to state `t`. */
  predicate Moves(d: Disk, s: State, d': Disk, t: State) {
    && Follows(s, t)
    && (|| (d'.entry == d.entry && t.generation == s.generation && t.compacted == s.compacted)
        || (d'.entry.Some? && d'.entry.value >= d.next && Advances(s, t)))
  }

  lemma MovesKeepsCache(env: Env, d: Disk, s: State, d': Disk, t: State, c: Cache)
    requires FilesSafe(d) && JournalIs(d, s) && CacheLive(env, d, s, c) && Later(d, d') && Moves(d, s, d', t)
    ensures CacheLive(env, d', t, c)
  {
    LaterKeepsCache(env, d, d', c);
    CacheContinues(env, d, s, c);
    if d'.entry != Some(c.inode) {
      ContinuesTransitive(c.state, s, t);
    }
  }

  /** An operation that leads from `s` to `t` ends in one of the two, wherever it
      stopped; an acknowledgement means `t`, durably; and if the store was settled
      before, any crash afterwards leaves `s` or `t`. */
  ghost predicate Lands(env: Env, d: Disk, s: State, o: Outcome, t: State) {
    && Later(d, o.disk)
    && ((Live(env, o.disk, s) && Moves(d, s, o.disk, s)) || (Live(env, o.disk, t) && Moves(d, s, o.disk, t)))
    && (o.cache.Some? ==> Exact(env, o.disk, o.cache.value))
    && (o.ack.Some? ==> Live(env, o.disk, t) && Settled(o.disk))
    && (Settled(d) ==> CrashesTo(env, o.disk, s, t))
  }

  lemma Stays(env: Env, d: Disk, s: State, o: Outcome, t: State)
    requires Live(env, d, s) && FilesSafe(o.disk) && o.ack.None? && Good(s)
    requires o.disk.entry == d.entry && o.disk.next >= d.next && o.disk.lock == d.lock &&
             o.disk.durableLock == d.durableLock && (o.disk.lockEntry == d.lockEntry || o.disk.lockEntry.Linked?)
    requires d.entry.value in o.disk.files
    requires o.disk.files[d.entry.value].visible.lines == d.files[d.entry.value].visible.lines
    requires JournalSettled(d) ==> JournalSettled(o.disk)
    requires o.cache.Some? ==> Exact(env, o.disk, o.cache.value)
    ensures Lands(env, d, s, o, t)
  {
    ContinuesReflexive(s);
    if Settled(d) {
      SettledLockFixes(env, o.disk, s);
      SteadyCrash(env, o.disk, s);
    }
  }

  /** Persisting the watermarks of a journal that is already durable. */
  lemma ConcludeLive(env: Env, o: Outcome, t: State, e: Option<Event>, slot: SlotIO, unlocked: bool)
    requires Live(env, o.disk, t) && JournalSettled(o.disk) && o.cache.Some? && Exact(env, o.disk, o.cache.value)
    ensures var r := Conclude(env, o, e, slot, unlocked);
            && Live(env, r.disk, t) && r.disk.files == o.disk.files && r.disk.entry == o.disk.entry
            && r.disk.next == o.disk.next
            && (r.cache.Some? ==> Settled(r.disk) && Exact(env, r.disk, r.cache.value))
            && (r.ack.Some? ==> r.cache.Some?)
            && (o.disk.lock == o.disk.durableLock && o.disk.lockEntry.Linked? ==> CrashesTo(env, r.disk, t, t))
  {
    var m := MetadataOf(t, env.options);
    OwnMetadataFixes(env, t);
    MetadataWriteVisible(o.disk, m, slot);
    var d' := WriteMetadata(o.disk, m, slot).0;
    if o.disk.lock == o.disk.durableLock && o.disk.lockEntry.Linked? {
      WrittenLockFixes(env, o.disk, t, slot);
      SteadyCrash(env, d', t);
    }
  }

  /** The record is visible in the file, synced or not. */
  lemma WrittenLive(env: Env, d: Disk, s: State, c: Cache, r: Record, t: State, io: WriteIO, tick: int)
    requires Live(env, d, s) && Exact(env, d, c) && c.state == s && !io.WriteTorn?
    requires r.kind == Appended && ApplyEvent(s, r) == Some(t) && Follows(s, t)
    ensures var written := WriteRecord(d, r, io, tick).0;
            && Live(env, written, t) && Later(d, written) && Moves(d, s, written, t)
            && written.lock == d.lock && written.durableLock == d.durableLock
            && (Settled(d) || io.WriteDone? ==> io.WriteNoSync? || JournalSettled(written))
            && (Settled(d) ==> CrashesTo(env, written, s, t))
  {
    var lines := d.files[c.inode].visible.lines;
    ReplayAppend(lines, r, "");
    ReplayExtends(lines, lines + [r], lines + [r], "");
    WriteRecordSafe(d, r, io, tick, map[]);
    var written := WriteRecord(d, r, io, tick).0;
    FixesFollows(env, s, t, LockedMetadata(d.lock).value);
    if Settled(d) {
      SettledLockFixes(env, written, t);
      if io.WriteNoSync? {
        SettledLockFixes(env, written, s);
        GrownCrash(env, written, s, t);
      } else {
        SteadyCrash(env, written, t);
      }
    }
  }

  lemma AppendRecordLive(env: Env, d: Disk, s: State, c: Cache, r: Record, t: State, io: AppendIO, tick: int)
    requires Live(env, d, s) && Exact(env, d, c) && c.state == s
    requires r.kind == Appended && ApplyEvent(s, r) == Some(t) && Follows(s, t)
    ensures Lands(env, d, s, AppendRecord(env, d, c, r, t, io, tick), t)
  {
    if io.write.WriteTorn? {
      WriteRecordSafe(d, r, io.write, tick, map[]);
      Stays(env, d, s, AppendRecord(env, d, c, r, t, io, tick), t);
    } else {
      WrittenLive(env, d, s, c, r, t, io.write, tick);
      if io.write.WriteDone? { AppendRecordConcludes(env, d, s, c, r, t, io, tick); }
    }
  }

  lemma AppendRecordConcludes(env: Env, d: Disk, s: State, c: Cache, r: Record, t: State, io: AppendIO, tick: int)
    requires Live(env, d, s) && Exact(env, d, c) && c.state == s && io.write.WriteDone?
    requires r.kind == Appended && ApplyEvent(s, r) == Some(t) && Follows(s, t)
    ensures Lands(env, d, s, AppendRecord(env, d, c, r, t, io, tick), t)
  {
    WrittenLive(env, d, s, c, r, t, io.write, tick);
    var written := WriteRecord(d, r, io.write, tick).0;
    var stored := Outcome(written, Some(CacheOf(env, c.inode, t, written.files[c.inode])), None);
    ConcludeLive(env, stored, t, r.event, io.slot, io.unlocked);
    assert AppendRecord(env, d, c, r, t, io, tick) == Conclude(env, stored, r.event, io.slot, io.unlocked);
  }

  // ---- compaction

  function CompactTarget(s: State, source: State, t: Time): State {
    if source.generation < MAX_UINT64 then Compacted(source, t) else s
  }

  lemma CompactedFollows(s: State, source: State, t: Time)
    requires Good(source) && Continues(s, source) && source.generation < MAX_UINT64 && t != ZERO_TIME
    requires source.lastRecordedAt == ZERO_TIME || source.lastRecordedAt <= t
    requires s.lastRecordedAt == ZERO_TIME || s.lastRecordedAt <= t
    ensures Follows(s, Compacted(source, t)) && Advances(s, Compacted(source, t))
    ensures Replay(Checkpoint(source, t), source.storeId) == Some(Compacted(source, t))
    ensures Replay(Checkpoint(source, t), "") == Some(Compacted(source, t))
    ensures SemanticallyEqual(source, Compacted(source, t))
  {
    CheckpointRecovers(source, t);
    ReplayExpecting(Checkpoint(source, t), source.storeId);
    ContinuesTransitive(s, source, Compacted(source, t));
  }

  lemma CompactStateLive(env: Env, d: Disk, s: State, c: Cache, source: State, t: Time, io: CompactIO, tick: int)
    requires Live(env, d, s) && Exact(env, d, c) && c.state == s
    requires Good(source) && Continues(s, source) && t != ZERO_TIME
    requires source.lastRecordedAt == ZERO_TIME || source.lastRecordedAt <= t
    requires s.lastRecordedAt == ZERO_TIME || s.lastRecordedAt <= t
    ensures var o := CompactState(env, d, c, source, t, io, tick);
            var target := CompactTarget(s, source, t);
            && Lands(env, d, s, o, target) && o.ack.None?
            && (o.cache.Some? && !io.CompactCancelled? ==>
                  && Live(env, o.disk, target) && Moves(d, s, o.disk, target) && JournalSettled(o.disk)
                  && o.cache.value.state == target && o.disk.lockEntry.Linked?
                  && o.disk.lock == d.lock && o.disk.durableLock == d.durableLock)
  {
    var o := CompactState(env, d, c, source, t, io, tick);
    CompactStateSafe(env, d, c, source, t, io, tick, map[]);
    if source.generation == MAX_UINT64 {
      Stays(env, d, s, o, s);
    } else {
      var target := Compacted(source, t);
      CompactedFollows(s, source, t);
      FixesFollows(env, s, target, LockedMetadata(d.lock).value);
      match io {
        case CompactCancelled(_) =>
          Stays(env, d, s, o, target);
        case TempFails(temp, synced) =>
          Stays(env, d, s, o, target);
        case RenameNoSync =>
          if Settled(d) {
            SettledLockFixes(env, o.disk, s);
            SettledLockFixes(env, o.disk, target);
            RenamedCrash(env, o.disk, s, target);
          }
        case CompactDone =>
          if Settled(d) {
            SettledLockFixes(env, o.disk, target);
            SteadyCrash(env, o.disk, target);
          }
      }
    }
  }

  lemma CompactConcludes(env: Env, d: Disk, s: State, o: Outcome, target: State, e: Option<Event>, slot: SlotIO,
                         unlocked: bool)
    requires Live(env, d, s) && Later(d, o.disk) && o.cache.Some? && Exact(env, o.disk, o.cache.value)
    requires Live(env, o.disk, target) && Moves(d, s, o.disk, target) && JournalSettled(o.disk)
    requires o.disk.lock == d.lock && o.disk.durableLock == d.durableLock && o.disk.lockEntry.Linked?
    ensures Lands(env, d, s, Conclude(env, o, e, slot, unlocked), target)
  {
    ConcludeLive(env, o, target, e, slot, unlocked);
  }

  lemma CompactAndConcludeLive(env: Env, d: Disk, s: State, c: Cache, source: State, t: Time, io: CompactIO,
                               e: Option<Event>, slot: SlotIO, unlocked: bool, tick: int)
    requires Live(env, d, s) && Exact(env, d, c) && c.state == s
    requires Good(source) && Continues(s, source) && t != ZERO_TIME
    requires source.lastRecordedAt == ZERO_TIME || source.lastRecordedAt <= t
    requires s.lastRecordedAt == ZERO_TIME || s.lastRecordedAt <= t
    ensures var done := CompactState(env, d, c, source, t, io, tick);
            Lands(env, d, s,
                  if done.cache.None? || io.CompactCancelled? then done else Conclude(env, done, e, slot, unlocked),
                  CompactTarget(s, source, t))
  {
    CompactStateLive(env, d, s, c, source, t, io, tick);
    var done := CompactState(env, d, c, source, t, io, tick);
    if done.cache.Some? && !io.CompactCancelled? {
      CompactConcludes(env, d, s, done, CompactTarget(s, source, t), e, slot, unlocked);
    }
  }

  /** The state a compaction of a store in state `s` leads to. */
  function CompactionResult(env: Env, s: State, now: Time): State {
    var t := CommitTime(s, now);
    match ApplyRetention(s, t, env.options)
    case None => s
    case Some(prospective) =>
      if !prospective.hasObsoleteHistory && prospective.compacted then s else CompactTarget(s, prospective, t)
  }

  lemma CompactFromLive(env: Env, d: Disk, s: State, c: Cache, now: Time, io: CompactionIO, tick: int)
    requires Live(env, d, s) && Exact(env, d, c) && c.state == s && now != ZERO_TIME
    ensures Lands(env, d, s, CompactFrom(env, d, c, now, io, tick), CompactionResult(env, s, now))
  {
    var t := CommitTime(s, now);
    RetentionIsExact(s, t, env.options);
    var prospective := ApplyRetention(s, t, env.options).value;
    var o := CompactFrom(env, d, c, now, io, tick);
    if !prospective.hasObsoleteHistory && prospective.compacted {
      Stays(env, d, s, o, s);
    } else {
      CompactAndConcludeLive(env, d, s, c, prospective, t, io.compact, None, io.slot, io.unlocked, tick);
    }
  }

  // ---- append

  /** The state storing record `r` leads to: `next`, or a checkpoint of it. */
  function StoreResult(env: Env, c: Cache, r: Record, next: State, t: Time): State {
    if ShouldCompact(env, c, next, c.bytes + LineBytes(env, r), t) == Some(true) then CompactTarget(c.state, next, t)
    else next
  }

  lemma AppendPreparedLive(env: Env, d: Disk, s: State, c: Cache, r: Record, next: State, t: Time, io: AppendIO,
                           tick: int)
    requires Live(env, d, s) && Exact(env, d, c) && c.state == s && t != ZERO_TIME
    requires r.kind == Appended && ApplyEvent(s, r) == Some(next) && Follows(s, next) && next.lastRecordedAt == t
    ensures Lands(env, d, s, AppendPrepared(env, d, c, r, next, t, io, tick), StoreResult(env, c, r, next, t))
  {
    var o := AppendPrepared(env, d, c, r, next, t, io, tick);
    var projected := c.bytes + LineBytes(env, r);
    if projected > MAX_INT64 || ShouldCompact(env, c, next, projected, t).None? {
      Stays(env, d, s, o, StoreResult(env, c, r, next, t));
    } else if ShouldCompact(env, c, next, projected, t).value {
      CompactAndConcludeLive(env, d, s, c, next, t, io.compact, r.event, io.slot, io.unlocked, tick);
    } else {
      AppendRecordLive(env, d, s, c, r, next, io, tick);
    }
  }

  /** The state an append leads to. */
  function AppendResult(env: Env, c: Cache, draft: Draft, now: Time): State
    requires c.state.lastSequence < MAX_UINT64
  {
    var s, t := c.state, CommitTime(c.state, now);
    match Preview(s, draft, t, env.options)
    case None => s
    case Some(preview) =>
      StoreResult(env, c, EventRecord(Persisted(s, draft, t), t, preview.prunedThrough), preview, t)
  }

  lemma AppendToLive(env: Env, d: Disk, s: State, c: Cache, draft: Draft, now: Time, io: AppendIO, tick: int)
    requires Live(env, d, s) && Exact(env, d, c) && c.state == s
    requires s.lastSequence < MAX_UINT64 && now != ZERO_TIME && draft.kind != ""
    ensures Lands(env, d, s, AppendTo(env, d, c, draft, now, io, tick), AppendResult(env, c, draft, now))
  {
    var t := CommitTime(s, now);
    PreviewIsReplay(s, draft, now, env.options);
    PreviewTimes(s, draft, t, env.options);
    var preview := Preview(s, draft, t, env.options).value;
    var r := EventRecord(Persisted(s, draft, t), t, preview.prunedThrough);
    AppendPreparedLive(env, d, s, c, r, preview, t, io, tick);
  }

  lemma PreviewTimes(s: State, draft: Draft, t: Time, o: Options)
    requires Good(s) && s.lastSequence < MAX_UINT64 && t != ZERO_TIME && draft.kind != ""
    requires s.lastRecordedAt == ZERO_TIME || s.lastRecordedAt <= t
    requires Preview(s, draft, t, o).Some?
    ensures Preview(s, draft, t, o).value.lastRecordedAt == t
  {
    PushGood(s, Persisted(s, draft, t), t);
    RetentionIsExact(Push(s, Persisted(s, draft, t), t), t, o);
  }

  /** Repairing a tail on the way changes nothing an operation promises. */
  lemma AfterRefresh(env: Env, d: Disk, mid: Disk, s: State, o: Outcome, t: State)
    requires Lands(env, mid, s, o, t) && Later(d, mid) && FilesSafe(mid)
    requires mid.entry == d.entry && mid.next == d.next && (Settled(d) ==> Settled(mid))
    ensures Lands(env, d, s, o, t)
  {
    LaterTransitive(d, mid, o.disk);
  }

  /** Where an append by writer `c` leads: its result, computed from the refreshed cache. */
  function AppendTarget(env: Env, d: Disk, c: Cache, s: State, draft: Draft, now: Time, io: AppendIO,
                        tick: int): State {
    var r := Refresh(env, d, c, io.repair, tick);
    if r.cache.Some? && s.lastSequence < MAX_UINT64 && r.cache.value.state == s
    then AppendResult(env, r.cache.value, draft, now) else s
  }

  /** What RefreshSucceeds says of the outcome. */
  ghost predicate Refreshed(env: Env, d: Disk, s: State, r: Outcome) {
    && Live(env, r.disk, s) && Later(d, r.disk) && r.disk.entry == d.entry && r.disk.next == d.next
    && (r.cache.Some? ==> r.cache.value.state == s && Exact(env, r.disk, r.cache.value))
    && (JournalSettled(d) ==> JournalSettled(r.disk))
    && r.disk.lock == d.lock && r.disk.durableLock == d.durableLock && r.disk.lockEntry == d.lockEntry
    && d.entry.Some? && d.entry.value in d.files
    && r.disk.files[d.entry.value].visible.lines == d.files[d.entry.value].visible.lines
  }

  predicate AppendRefused(r: Outcome, s: State, now: Time, io: AppendIO) {
    r.cache.None? || io.cancelled || now == ZERO_TIME || s.lastSequence == MAX_UINT64
  }

  /** What an append does after its refresh. */
  lemma AppendAfterRefresh(env: Env, d: Disk, s: State, c: Cache, draft: Draft, now: Time, io: AppendIO, tick: int)
    requires var r := Refresh(env, d, c, io.repair, tick);
             && draft.kind != "" && r.ack.None? && r.disk.entry.Some? && r.disk.entry.value in r.disk.files
             && (r.cache.Some? ==> r.cache.value.state == s)
    ensures var r := Refresh(env, d, c, io.repair, tick);
            var o := Append(env, d, c, draft, now, io, tick);
            if AppendRefused(r, s, now, io) then
              o.disk == r.disk && o.ack.None? && (o.cache.Some? ==> o.cache == r.cache)
            else o == AppendTo(env, r.disk, r.cache.value, draft, now, io, tick)
  {
  }

  lemma AppendLands(env: Env, d: Disk, s: State, c: Cache, draft: Draft, now: Time, io: AppendIO, tick: int)
    requires Live(env, d, s) && CacheLive(env, d, s, c) && draft.kind != ""
    ensures Lands(env, d, s, Append(env, d, c, draft, now, io, tick), AppendTarget(env, d, c, s, draft, now, io, tick))
  {
    RefreshSucceeds(env, d, s, c, io.repair, tick);
    AppendAfterRefresh(env, d, s, c, draft, now, io, tick);
    RefreshedAppendLands(env, d, s, draft, now, io, tick, Refresh(env, d, c, io.repair, tick),
                         Append(env, d, c, draft, now, io, tick));
  }

  lemma RefreshedAppendLands(env: Env, d: Disk, s: State, draft: Draft, now: Time, io: AppendIO, tick: int,
                             r: Outcome, o: Outcome)
    requires Live(env, d, s) && draft.kind != "" && Refreshed(env, d, s, r)
    requires if AppendRefused(r, s, now, io) then
               o.disk == r.disk && o.ack.None? && (o.cache.Some? ==> o.cache == r.cache)
             else o == AppendTo(env, r.disk, r.cache.value, draft, now, io, tick)
    ensures Lands(env, d, s, o,
                  if r.cache.Some? && s.lastSequence < MAX_UINT64 && r.cache.value.state == s
                  then AppendResult(env, r.cache.value, draft, now) else s)
  {
    var target := if r.cache.Some? && s.lastSequence < MAX_UINT64 && r.cache.value.state == s
                  then AppendResult(env, r.cache.value, draft, now) else s;
    if AppendRefused(r, s, now, io) {
      Stays(env, d, s, o, target);
    } else {
      AppendToLive(env, r.disk, s, r.cache.value, draft, now, io, tick);
      AfterRefresh(env, d, r.disk, s, o, target);
    }
  }

  lemma CompactLands(env: Env, d: Disk, s: State, c: Cache, now: Time, io: CompactionIO, tick: int)
    requires Live(env, d, s) && CacheLive(env, d, s, c)
    ensures Lands(env, d, s, Compact(env, d, c, now, io, tick), CompactionResult(env, s, now))
  {
    RefreshSucceeds(env, d, s, c, io.repair, tick);
    var r := Refresh(env, d, c, io.repair, tick);
    if r.cache.None? || now == ZERO_TIME {
      Stays(env, d, s, Compact(env, d, c, now, io, tick), CompactionResult(env, s, now));
    } else {
      CompactFromLive(env, r.disk, s, r.cache.value, now, io, tick);
      AfterRefresh(env, d, r.disk, s, Compact(env, d, c, now, io, tick), CompactionResult(env, s, now));
    }
  }

  // ---- open

  lemma ReplayedIsHeaded(lines: seq<Record>, expected: string)
    requires lines != [] && Replay(lines, expected).Some?
    ensures Headed(lines)
  {
    if !Headed(lines) {
      HeadlessScan(lines, expected);
    }
  }

  lemma AdmitLive(env: Env, d: Disk, s: State, io: OpenIO)
    requires Live(env, d, s) && d.files[d.entry.value].visible.tail == Clean
    ensures var o := Admit(env, d, LockedMetadata(d.lock).value, s, io);
            && Lands(env, d, s, o, s) && o.ack.None?
            && (o.cache.Some? ==> o.cache.value.state == s)
            && (io.slot.SlotDone? && io.unlocked && RevisionOf(ReadLock(d.lock)) < MAX_UINT64 ==> o.cache.Some?)
            && (Settled(d) && o.cache.Some? ==> Settled(o.disk))
  {
    var m := LockedMetadata(d.lock).value;
    var o := Admit(env, d, m, s, io);
    OwnMetadataFixes(env, s);
    if m == MetadataOf(s, env.options) {
      Stays(env, d, s, o, s);
    } else {
      MetadataWriteVisible(d, MetadataOf(s, env.options), io.slot);
      ContinuesReflexive(s);
      if Settled(d) {
        WrittenLockFixes(env, d, s, io.slot);
        SteadyCrash(env, o.disk, s);
      }
    }
  }

  /** No system call fails. */
  predicate AllDone(io: OpenIO) {
    && io.linked && io.cleanup.CleanupDone? && io.created && io.repair.RepairDone? && io.first.SlotDone?
    && io.header.WriteDone? && io.slot.SlotDone? && io.unlocked
  }

  /** What opening a healthy store promises of its outcome. */
  ghost predicate Opened(env: Env, d: Disk, s: State, io: OpenIO, o: Outcome) {
    && Lands(env, d, s, o, s) && o.ack.None?
    && (o.cache.Some? ==> o.cache.value.state == s)
    && (AllDone(io) && RevisionOf(ReadLock(d.lock)) < MAX_UINT64 ==> o.cache.Some?)
    && (Settled(d) && o.cache.Some? ==> Settled(o.disk))
  }

  /** Once the journal is recovered, opening is admitting it. */
  lemma OpenCleanedAdmits(env: Env, d: Disk, s: State, newId: string, now: Time, io: OpenIO, tick: int)
    requires Live(env, d, s)
    ensures var (f, recovered) := RecoverFile(d.files[d.entry.value], s.storeId, io.repair, tick);
            var o := OpenCleaned(env, d, ReadLock(d.lock), newId, now, io, tick);
            && (recovered.None? ==> o == Outcome(WithFile(d, f), None, None))
            && (recovered.Some? ==> o == Admit(env, WithFile(d, f), LockedMetadata(d.lock).value, s, io))
            && f.visible.lines == d.files[d.entry.value].visible.lines
            && (recovered.Some? <==> d.files[d.entry.value].visible.tail == Clean || io.repair.RepairDone?)
            && (recovered.Some? ==> f.visible.tail == Clean)
  {
    var lines := d.files[d.entry.value].visible.lines;
    ReplayedIsHeaded(lines, "");
    ReplayExpecting(lines, s.storeId);
    assert Classify(d.files[d.entry.value].visible) == Envelope;
  }

  lemma OpenCleanedLive(env: Env, d: Disk, s: State, newId: string, now: Time, io: OpenIO, tick: int)
    requires Live(env, d, s)
    ensures Opened(env, d, s, io, OpenCleaned(env, d, ReadLock(d.lock), newId, now, io, tick))
  {
    var o := OpenCleaned(env, d, ReadLock(d.lock), newId, now, io, tick);
    OpenCleanedAdmits(env, d, s, newId, now, io, tick);
    RecoverSafe(d, s.storeId, io.repair, tick, map[]);
    var (f, recovered) := RecoverFile(d.files[d.entry.value], s.storeId, io.repair, tick);
    var d' := WithFile(d, f);
    if recovered.None? {
      Stays(env, d, s, o, s);
    } else {
      AdmitLive(env, d', s, io);
      AfterRefresh(env, d, d', s, o, s);
    }
  }

  /** Opening a healthy store never changes its state; with no failing system call it succeeds. */
  lemma OpenLive(env: Env, d: Disk, s: State, newId: string, now: Time, io: OpenIO, tick: int)
    requires Live(env, d, s)
    ensures Opened(env, d, s, io, Open(env, d, newId, now, io, tick))
  {
    var o := Open(env, d, newId, now, io, tick);
    var (cleaned, ready) := Cleanup(d, io.cleanup);
    if !ready {
      assert o == Outcome(cleaned, None, None);
      Stays(env, d, s, o, s);
    } else {
      OpenCleanedLive(env, cleaned, s, newId, now, io, tick);
      assert o == OpenCleaned(env, cleaned, ReadLock(cleaned.lock), newId, now, io, tick);
      AfterRefresh(env, d, cleaned, s, o, s);
    }
  }

  // ------------------------------------------------------- every run of live processes

  ghost predicate LiveSys(env: Env, s: Sys, state: State) {
    && Live(env, s.disk, state) && DiskSafe(s.disk, s.acked)
    && forall w :: w in s.writers ==> CacheLive(env, s.disk, state, s.writers[w])
  }

  /** The state a step leads to when nothing fails. */
  function StepTarget(env: Env, s: Sys, state: State, step: Step): State
    requires step.OpenStep? || step.CrashStep? || step.w in s.writers
  {
    match step
    case AppendStep(w, draft, now, io, tick) =>
      if draft.kind == "" then state else AppendTarget(env, s.disk, s.writers[w], state, draft, now, io, tick)
    case CompactStep(_, now, _, _) => CompactionResult(env, state, now)
    case _ => state
  }

  /** The outcome of a step that is not a crash or a close. */
  function StepOutcome(env: Env, s: Sys, step: Step): Outcome
    requires step.OpenStep? || (!step.CrashStep? && step.w in s.writers)
  {
    match step
    case OpenStep(_, newId, now, io, tick) => Open(env, s.disk, newId, now, io, tick)
    case AppendStep(w, draft, now, io, tick) => Append(env, s.disk, s.writers[w], draft, now, io, tick)
    case CompactStep(w, now, io, tick) => Compact(env, s.disk, s.writers[w], now, io, tick)
    case ListStep(w, io, tick) => Refresh(env, s.disk, s.writers[w], io, tick)
    case _ => Outcome(s.disk, None, None)
  }

  /** An append without an action is refused before anything is read. */
  predicate Refused(step: Step) {
    step.AppendStep? && step.draft.kind == ""
  }

  lemma AppendStepLands(env: Env, s: Sys, state: State, step: Step)
    requires LiveSys(env, s, state) && Enabled(s, step) && step.AppendStep? && !Refused(step)
    ensures Lands(env, s.disk, state, StepOutcome(env, s, step), StepTarget(env, s, state, step))
  {
    AppendLands(env, s.disk, state, s.writers[step.w], step.draft, step.now, step.appendIO, step.tick);
  }

  lemma CompactStepLands(env: Env, s: Sys, state: State, step: Step)
    requires LiveSys(env, s, state) && Enabled(s, step) && step.CompactStep?
    ensures Lands(env, s.disk, state, StepOutcome(env, s, step), StepTarget(env, s, state, step))
  {
    match step
    case CompactStep(w, now, io, tick) =>
      CompactLands(env, s.disk, state, s.writers[w], now, io, tick);
  }

  lemma OpenStepLands(env: Env, s: Sys, state: State, step: Step)
    requires LiveSys(env, s, state) && step.OpenStep?
    ensures Lands(env, s.disk, state, StepOutcome(env, s, step), StepTarget(env, s, state, step))
  {
    match step
    case OpenStep(_, newId, now, io, tick) =>
      OpenLive(env, s.disk, state, newId, now, io, tick);
  }

  lemma QuietStepLands(env: Env, s: Sys, state: State, step: Step)
    requires LiveSys(env, s, state) && Enabled(s, step) && (step.ListStep? || step.CloseStep?)
    ensures Lands(env, s.disk, state, StepOutcome(env, s, step), StepTarget(env, s, state, step))
  {
    match step
    case ListStep(w, io, tick) =>
      RefreshSucceeds(env, s.disk, state, s.writers[w], io, tick);
      Stays(env, s.disk, state, StepOutcome(env, s, step), state);
    case CloseStep(_) =>
      Stays(env, s.disk, state, StepOutcome(env, s, step), state);
  }

  lemma StepLands(env: Env, s: Sys, state: State, step: Step)
    requires LiveSys(env, s, state) && Enabled(s, step) && !step.CrashStep? && !Refused(step)
    ensures Lands(env, s.disk, state, StepOutcome(env, s, step), StepTarget(env, s, state, step))
  {
    match step
    case OpenStep(_, _, _, _, _) => OpenStepLands(env, s, state, step);
    case AppendStep(_, _, _, _, _) => AppendStepLands(env, s, state, step);
    case CompactStep(_, _, _, _) => CompactStepLands(env, s, state, step);
    case ListStep(_, _, _) => QuietStepLands(env, s, state, step);
    case CloseStep(_) => QuietStepLands(env, s, state, step);
  }

  lemma CacheOfExact(env: Env, d: Disk, state: State, c: Cache)
    requires FilesSafe(d) && JournalIs(d, state) && Exact(env, d, c)
    ensures CacheLive(env, d, state, c)
  {
    ExactIsSafe(env, d, c);
  }

  lemma SafeFromLive(env: Env, s: Sys, state: State)
    requires LiveSys(env, s, state)
    ensures Safe(env, s)
  {
  }

  /** A step, however it fails, leaves a healthy store before or after it. */
  lemma StepLive(env: Env, s: Sys, state: State, step: Step) returns (after: State)
    requires LiveSys(env, s, state) && Enabled(s, step) && !step.CrashStep?
    ensures LiveSys(env, Next(env, s, step), after)
    ensures after == state || after == StepTarget(env, s, state, step)
    ensures Follows(state, after)
  {
    SafeFromLive(env, s, state);
    StepSafe(env, s, step);
    var s' := Next(env, s, step);
    ContinuesReflexive(state);
    if step.CloseStep? || Refused(step) {
      after := state;
    } else {
      StepLands(env, s, state, step);
      var o := StepOutcome(env, s, step);
      assert s' == Settle(s, step.w, o);
      after := if Live(env, o.disk, state) && Moves(s.disk, state, o.disk, state) then state
               else StepTarget(env, s, state, step);
      forall w | w in s'.writers
        ensures CacheLive(env, s'.disk, after, s'.writers[w])
      {
        if w == step.w && o.cache.Some? {
          CacheOfExact(env, s'.disk, after, s'.writers[w]);
        } else {
          MovesKeepsCache(env, s.disk, state, o.disk, after, s.writers[w]);
        }
      }
    }
  }

  ghost predicate NoCrash(steps: seq<Step>) {
    forall i :: 0 <= i < |steps| ==> !steps[i].CrashStep?
  }

  lemma {:induction false} RunLive(env: Env, s: Sys, state: State, steps: seq<Step>) returns (after: State)
    requires LiveSys(env, s, state) && Run(env, s, steps) && NoCrash(steps)
    ensures LiveSys(env, Last(env, s, steps), after) && Continues(state, after)
    decreases |steps|
  {
    if steps == [] {
      after := state;
      ContinuesReflexive(state);
    } else {
      var mid := StepLive(env, s, state, steps[0]);
      after := RunLive(env, Next(env, s, steps[0]), mid, steps[1..]);
      ContinuesTransitive(state, mid, after);
    }
  }

  /** After any interleaving of opens, appends, compactions and lists by any number
      of writers of one policy, with any of them failing or dying anywhere, every
      remaining writer refreshes successfully (given that a torn tail can be
      truncated) to the full replay of the canonical journal, which is a
      contiguous, time-ordered window, and any process can open the store. */
  lemma CooperatingWritersRefresh(env: Env, s: Sys, state: State, steps: seq<Step>, w: nat, tick: int,
                                  newId: string, now: Time, io: OpenIO)
    requires LiveSys(env, s, state) && Run(env, s, steps) && NoCrash(steps)
    requires w in Last(env, s, steps).writers && AllDone(io)
    requires RevisionOf(ReadLock(Last(env, s, steps).disk.lock)) < MAX_UINT64
    ensures var last := Last(env, s, steps);
            var d := last.disk;
            var o := Refresh(env, d, last.writers[w], RepairDone, tick);
            && d.entry.Some? && d.entry.value in d.files
            && o.cache.Some? && Replay(d.files[d.entry.value].visible.lines, "") == Some(o.cache.value.state)
            && Good(o.cache.value.state) && Continues(state, o.cache.value.state)
            && Open(env, d, newId, now, io, tick).cache.Some?
            && Open(env, d, newId, now, io, tick).cache.value.state == o.cache.value.state
  {
    var after := RunLive(env, s, state, steps);
    var last := Last(env, s, steps);
    RefreshSucceeds(env, last.disk, after, last.writers[w], RepairDone, tick);
    OpenLive(env, last.disk, after, newId, now, io, tick);
  }

  // ------------------------------------------------------- machine crashes

  /** A machine crash at any system call of any one operation on a settled store
      leaves a store that reopens, settled, in exactly the state before or the
      state after that operation. */
  lemma CrashIsAtomic(env: Env, s: Sys, state: State, step: Step, left: Disk, newId: string, now: Time, io: OpenIO,
                      tick: int)
    requires LiveSys(env, s, state) && Settled(s.disk) && Enabled(s, step) && !step.CrashStep?
    requires Crash(Next(env, s, step).disk, left) && AllDone(io) && RevisionOf(ReadLock(left.lock)) < MAX_UINT64
    ensures var o := Open(env, left, newId, now, io, tick);
            && o.cache.Some? && Settled(o.disk) && Live(env, o.disk, o.cache.value.state)
            && (o.cache.value.state == state || o.cache.value.state == StepTarget(env, s, state, step))
  {
    var target := StepTarget(env, s, state, step);
    var d := Next(env, s, step).disk;
    if Refused(step) {
      SettledLockFixes(env, s.disk, state);
      SteadyCrash(env, s.disk, state);
    } else {
      StepLands(env, s, state, step);
    }
    assert CrashesTo(env, d, state, target);
    if Live(env, left, state) {
      OpenLive(env, left, state, newId, now, io, tick);
    } else {
      OpenLive(env, left, target, newId, now, io, tick);
    }
  }

  /** An acknowledgement is durable: no crash afterwards can take the store back. */
  lemma AcknowledgedIsDurable(env: Env, s: Sys, state: State, step: Step, left: Disk)
    requires LiveSys(env, s, state) && Enabled(s, step) && step.AppendStep?
    requires StepOutcome(env, s, step).ack.Some? && Crash(Next(env, s, step).disk, left)
    ensures Settled(Next(env, s, step).disk)
    ensures Live(env, left, StepTarget(env, s, state, step))
  {
    StepLands(env, s, state, step);
    var target := StepTarget(env, s, state, step);
    var d := Next(env, s, step).disk;
    SettledLockFixes(env, d, target);
    SteadyCrash(env, d, target);
  }
}
