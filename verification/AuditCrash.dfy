/** Machine crashes of stores that other processes have left unfinished. A store is
    sturdy when every crash now leaves a healthy store; this module says exactly
    which calls keep a store sturdy (internal/audit/writer.go,
    internal/audit/compaction.go, internal/audit/metadata.go). */
module AuditCrash {
  import opened Wrappers
  import opened AuditJournal
  import opened AuditReplay
  import opened AuditCompaction
  import opened AuditMetadata
  import opened AuditDisk
  import opened AuditOps
  import opened AuditSafety
  import opened AuditLive
  import opened AuditHeader
  import opened AuditInit

  // ------------------------------------------------------- sturdy stores

  predicate Spans(f: Inode, lines: seq<Record>) {
    f.durable.lines <= lines <= f.visible.lines
  }

  /** The records a crash may leave in the journal. */
  predicate MayLeave(d: Disk, lines: seq<Record>) {
    || (d.entry.Some? && d.entry.value in d.files && Spans(d.files[d.entry.value], lines))
    || (d.durableEntry.Some? && d.durableEntry.value in d.files && Spans(d.files[d.durableEntry.value], lines))
  }

  /** A journal that replays to a state between `b` and `s`. From the empty store the header itself may be lost. */
  predicate Point(b: State, s: State, lines: seq<Record>) {
    if lines == [] then b == HeaderState(b.storeId)
    else
      && Replay(lines, "").Some?
      && Follows(b, Replay(lines, "").value) && Follows(Replay(lines, "").value, s)
  }

  /** A file that may lose its header leaves at most a torn header of store `id` then. */
  ghost predicate HeaderFile(f: Inode, id: string) {
    f.durable.lines == [] ==>
      && (f.durable.tail == Clean || (f.durable.tail.TornFirst? && TornHeader(f.durable.tail.text, id)))
      && f.visible.lines != [] && f.visible.lines[0].kind == Header && f.visible.lines[0].storeId == id
  }

  ghost predicate HeaderFiles(d: Disk, id: string) {
    && (d.entry.Some? && d.entry.value in d.files ==> HeaderFile(d.files[d.entry.value], id))
    && (d.durableEntry.Some? && d.durableEntry.value in d.files ==> HeaderFile(d.files[d.durableEntry.value], id))
  }

  /** Whatever a crash leaves of the journal lies between `b` and the visible state `s`;
      a file that was replaced but may come back is of an earlier generation. */
  ghost predicate JournalSpan(d: Disk, b: State, s: State) {
    && FilesSafe(d) && JournalIs(d, s) && d.durableEntry.Some? && Good(b) && HeaderFiles(d, b.storeId)
    && (forall lines :: MayLeave(d, lines) ==> Point(b, s, lines))
    && (d.entry != d.durableEntry ==> Older(d.files[d.durableEntry.value], s))
  }

  predicate Older(f: Inode, s: State) {
    Replay(f.durable.lines, "").Some? && Replay(f.durable.lines, "").value.generation < s.generation
  }

  /** The lock file as initialisation leaves it, synced. */
  predicate PristineLock(env: Env, d: Disk, id: string) {
    && d.lock == d.durableLock && d.lockEntry.Linked? && d.lock.second.Missing? && ReadLock(d.lock).Current?
    && ReadLock(d.lock).metadata == MetadataOf(Fresh(id), env.options)
  }

  /** As long as the header may be lost, nothing but the identity is fixed. */
  predicate HeaderLock(env: Env, d: Disk, b: State) {
    MayLeave(d, []) ==> PristineLock(env, d, b.storeId)
  }

  /** Every crash leaves a store in a state between `b` and `s`, with watermarks it covers. */
  ghost predicate Sturdy(env: Env, d: Disk, b: State, s: State) {
    JournalSpan(d, b, s) && LockFixes(env, d, b) && HeaderLock(env, d, b)
  }

  lemma HeaderLockKept(env: Env, d: Disk, d': Disk, b: State, b': State)
    requires HeaderLock(env, d, b) && b'.storeId == b.storeId && (MayLeave(d', []) ==> MayLeave(d, []))
    requires d'.lock == d.lock && d'.durableLock == d.durableLock
    requires d'.lockEntry == d.lockEntry || d'.lockEntry.Linked?
    ensures HeaderLock(env, d', b')
  {
  }

  lemma FollowsReflexive(s: State)
    requires Good(s)
    ensures Follows(s, s)
  {
    ContinuesReflexive(s);
  }

  lemma FollowsTransitive(a: State, b: State, c: State)
    requires Follows(a, b) && Follows(b, c)
    ensures Follows(a, c)
  {
    ContinuesTransitive(a, b, c);
  }

  lemma LockFixesFollows(env: Env, d: Disk, b: State, s: State)
    requires LockFixes(env, d, b) && Follows(b, s)
    ensures LockFixes(env, d, s)
  {
    forall l | CrashLock(d.durableLock, d.lock, l)
      ensures LockedMetadata(l).Some? && Fixes(env, s, LockedMetadata(l).value)
    {
      FixesFollows(env, b, s, LockedMetadata(l).value);
    }
  }

  lemma SturdyIsLive(env: Env, d: Disk, b: State, s: State)
    requires Sturdy(env, d, b, s)
    ensures Live(env, d, s) && Follows(b, s)
  {
    var lines := d.files[d.entry.value].visible.lines;
    assert MayLeave(d, lines);
    FollowsTransitive(b, s, s);
    LockFixesFollows(env, d, b, s);
    assert CrashLock(d.durableLock, d.lock, d.lock);
  }

  /** A healthy store with nothing pending is sturdy. */
  lemma SettledIsSturdy(env: Env, d: Disk, s: State)
    requires Live(env, d, s) && Settled(d)
    ensures Sturdy(env, d, s, s)
  {
    FollowsReflexive(s);
    SettledLockFixes(env, d, s);
    forall lines | MayLeave(d, lines)
      ensures Point(s, s, lines)
    {
      assert lines == d.files[d.entry.value].visible.lines;
    }
  }

  /** The store is in state `u`. One whose identity is fixed and whose header is not complete is the empty store. */
  ghost predicate Holding(env: Env, d: Disk, u: State) {
    Live(env, d, u) ||
    (Initial(env, d) && ReadLock(d.lock).Current? && u == HeaderState(ReadLock(d.lock).metadata.storeId))
  }

  /** What a crash of a sturdy store leaves is healthy, settled and, once it has a header, sturdy itself. */
  lemma SturdyCrashes(env: Env, d: Disk, b: State, s: State, left: Disk) returns (u: State)
    requires Sturdy(env, d, b, s) && Crash(d, left)
    ensures Holding(env, left, u) && Settled(left) && Follows(b, u) && Follows(u, s)
    ensures Live(env, left, u) ==> Sturdy(env, left, u, u)
    ensures !Live(env, left, u) ==> PristineLock(env, left, b.storeId) && u == b
  {
    var lines := left.files[left.entry.value].visible.lines;
    assert MayLeave(d, lines);
    assert Point(b, s, lines);
    if lines == [] {
      u := b;
      SturdyIsLive(env, d, b, s);
      FollowsReflexive(b);
      HeaderLost(env, d, b, s, left);
    } else {
      u := Replay(lines, "").value;
      LockFixesFollows(env, d, b, u);
      assert LockedMetadata(left.lock).Some? && Fixes(env, u, LockedMetadata(left.lock).value);
      SettledIsSturdy(env, left, u);
    }
  }

  /** Losing the header leads back into the initialisation window. */
  lemma HeaderLost(env: Env, d: Disk, b: State, s: State, left: Disk)
    requires Sturdy(env, d, b, s) && Crash(d, left) && left.entry.Some?
    requires left.files[left.entry.value].visible.lines == []
    ensures Initial(env, left) && PristineLock(env, left, b.storeId)
  {
    var i := left.entry.value;
    assert MayLeave(d, []);
    assert left.lock == d.lock;
    assert HeaderFile(d.files[i], b.storeId) && d.files[i].durable.lines == [];
    HeaderTailLeft(d.files[i], b.storeId, left.files[i].visible);
    OwnMetadataFixes(env, b);
  }

  lemma HeaderTailLeft(f: Inode, id: string, c: Content)
    requires HeaderFile(f, id) && f.durable.lines == [] && CrashContent(f, c) && c.lines == []
    ensures c.tail == Clean || (c.tail.TornFirst? && TornHeader(c.tail.text, id))
  {
    if c.tail != Clean && ShorterTail(c.tail, f.durable.tail) { TornShorter(c.tail.text, f.durable.tail.text, id); }
  }

  lemma TornShorter(text: string, whole: string, id: string)
    requires TornHeader(whole, id) && text != "" && text <= whole
    ensures TornHeader(text, id)
  {
    var t: Instant :| ValidInstant(t) && whole <= HeaderBody(t, id);
    assert text <= HeaderBody(t, id);
  }

  // ------------------------------------------------------- writing watermarks

  /** The slot a write leaves alone. */
  function Staying(r: Reading): nat {
    1 - Target(r)
  }

  /** The slot holding the watermarks just read is on durable storage. */
  predicate LatestSynced(d: Disk) {
    At(d.durableLock, Staying(ReadLock(d.lock))) == At(d.lock, Staying(ReadLock(d.lock)))
  }

  /** What a crash may make of the slot being written, given what was durable and what was
      visible before: nothing readable but what could be read before, and the new slot. */
  lemma TargetRegion(durable: Region, visible: Region, after: Region, left: Region, r: Region)
    requires Valid(after) && Tear(visible, after, left) && CrashRegion(durable, left, r)
    ensures r == after || CrashRegion(durable, visible, r) || r == left || !Valid(r)
  {
  }

  /** Beside the slot that stays, an unreadable region changes nothing. */
  lemma UnreadableTarget(l: Lock, r: Region)
    requires (ReadLock(l).Current? || ReadLock(l).Legacy?) && !Valid(r)
    ensures LockedMetadata(Put(l, Target(ReadLock(l)), r)) == LockedMetadata(l)
  {
  }

  lemma CrashedWriteReads(d: Disk, m: Metadata, io: SlotIO, l: Lock)
    requires LockedMetadata(d.lock).Some? && ValidMetadata(m) && LatestSynced(d)
    requires CrashLock(WriteMetadata(d, m, io).0.durableLock, WriteMetadata(d, m, io).0.lock, l)
    ensures CrashLock(d.durableLock, d.lock, l) || LockedMetadata(l) == LockedMetadata(d.lock) ||
            LockedMetadata(l) == Some(m)
  {
    var now := ReadLock(d.lock);
    if Writable(now) {
      var slot, r := Target(now), NextSlot(now, m);
      var d' := WriteMetadata(d, m, io).0;
      assert l == Put(d.lock, slot, At(l, slot));
      WriteReadsBack(d.lock, m);
      if io.SlotTorn? || io.SlotNoSync? {
        TargetRegion(At(d.durableLock, slot), At(d.lock, slot), r, At(d'.lock, slot), At(l, slot));
        TornWriteReads(d.lock, m, At(d'.lock, slot));
        if !Valid(At(l, slot)) { UnreadableTarget(d.lock, At(l, slot)); }
      }
    }
  }

  /** With the latest slot synced, a write of watermarks the durable journal covers is safe, wherever it stops. */
  lemma WriteKeepsLock(env: Env, d: Disk, s: State, io: SlotIO)
    requires LockFixes(env, d, s) && LatestSynced(d) && Good(s)
    ensures LockFixes(env, WriteMetadata(d, MetadataOf(s, env.options), io).0, s)
  {
    var m := MetadataOf(s, env.options);
    OwnMetadataFixes(env, s);
    var d' := WriteMetadata(d, m, io).0;
    assert CrashLock(d.durableLock, d.lock, d.lock);
    forall l | CrashLock(d'.durableLock, d'.lock, l)
      ensures LockedMetadata(l).Some? && Fixes(env, s, LockedMetadata(l).value)
    {
      CrashedWriteReads(d, m, io, l);
    }
  }

  const RUINED := Lock(Noise, Noise)

  /** Without that, the write and the unsynced slot can be torn by one crash. */
  lemma UnsyncedLatestRuins(d: Disk, m: Metadata)
    requires !LatestSynced(d) && Writable(ReadLock(d.lock)) && ValidMetadata(m)
    ensures var d' := WriteMetadata(d, m, SlotTorn(Noise)).0;
            && CrashLock(d'.durableLock, d'.lock, RUINED) && ReadLock(RUINED).Corrupt?
            && d'.files == d.files && d'.entry == d.entry && d'.next == d.next
  {
  }

  // ------------------------------------------------------- journals

  /** Only the durable part grew. */
  lemma SpanNarrows(d: Disk, d': Disk, b: State, s: State)
    requires JournalSpan(d, b, s) && FilesSafe(d') && d'.entry == d.entry &&
             d'.durableEntry in {d.entry, d.durableEntry}
    requires forall i :: i in d.files ==>
               i in d'.files && d'.files[i].visible.lines == d.files[i].visible.lines &&
               d.files[i].durable.lines <= d'.files[i].durable.lines &&
               (d'.files[i].durable.lines == [] ==> d'.files[i].durable == d.files[i].durable)
    requires d'.durableEntry != d.entry ==>
             d'.files[d.durableEntry.value].durable == d.files[d.durableEntry.value].durable
    ensures JournalSpan(d', b, s) && (MayLeave(d', []) ==> MayLeave(d, []))
  {
    forall lines | MayLeave(d', lines)
      ensures Point(b, s, lines) && MayLeave(d, lines)
    {
      assert MayLeave(d, lines);
    }
  }

  lemma RefreshDisk(env: Env, d: Disk, c: Cache, io: RepairIO, tick: int)
    requires FilesSafe(d) && d.entry.Some?
    ensures var d' := Refresh(env, d, c, io, tick).disk;
            d' == d || d' == WithFile(d, RecoverFile(d.files[d.entry.value], c.state.storeId, io, tick).0)
  {
  }

  lemma RecoveredFile(f: Inode, expected: string, io: RepairIO, tick: int)
    requires f.durable.lines <= f.visible.lines && f.visible.lines != []
    ensures var f' := RecoverFile(f, expected, io, tick).0;
            && f'.visible.lines == f.visible.lines && f.durable.lines <= f'.durable.lines <= f'.visible.lines
            && (f'.durable.lines == [] ==> f'.durable == f.durable)
  {
  }

  lemma RecoveredSpan(d: Disk, b: State, s: State, expected: string, io: RepairIO, tick: int)
    requires JournalSpan(d, b, s)
    ensures var d' := WithFile(d, RecoverFile(d.files[d.entry.value], expected, io, tick).0);
            JournalSpan(d', b, s) && (MayLeave(d', []) ==> MayLeave(d, []))
  {
    RecoveredFile(d.files[d.entry.value], expected, io, tick);
    SpanNarrows(d, WithFile(d, RecoverFile(d.files[d.entry.value], expected, io, tick).0), b, s);
  }

  lemma RefreshSpan(env: Env, d: Disk, b: State, s: State, c: Cache, io: RepairIO, tick: int)
    requires JournalSpan(d, b, s)
    ensures var d' := Refresh(env, d, c, io, tick).disk;
            JournalSpan(d', b, s) && (MayLeave(d', []) ==> MayLeave(d, []))
  {
    RefreshDisk(env, d, c, io, tick);
    RecoveredSpan(d, b, s, c.state.storeId, io, tick);
  }

  /** A record written, synced or not. */
  lemma WrittenSpan(d: Disk, b: State, s: State, r: Record, t: State, io: WriteIO, tick: int)
    requires JournalSpan(d, b, s) && r.kind == Appended && ApplyEvent(s, r) == Some(t) && Follows(s, t)
    ensures var d' := WriteRecord(d, r, io, tick).0;
            && (io.WriteTorn? ==> JournalSpan(d', b, s))
            && (!io.WriteTorn? ==> JournalSpan(d', b, t))
            && (io.WriteDone? ==> JournalSpan(d', t, t) && JournalSettled(d'))
            && (MayLeave(d', []) ==> MayLeave(d, []))
            && d'.lock == d.lock && d'.durableLock == d.durableLock
  {
    var d' := WriteRecord(d, r, io, tick).0;
    if io.WriteTorn? {
      TornSpan(d, b, s, r, io, tick);
    } else {
      GrownSpan(d, d', b, s, r, t);
      if io.WriteDone? { NarrowedSpan(d', b, t); }
    }
  }

  lemma TornSpan(d: Disk, b: State, s: State, r: Record, io: WriteIO, tick: int)
    requires JournalSpan(d, b, s) && io.WriteTorn?
    ensures var d' := WriteRecord(d, r, io, tick).0;
            JournalSpan(d', b, s) && (MayLeave(d', []) ==> MayLeave(d, []))
  {
    SpanNarrows(d, WriteRecord(d, r, io, tick).0, b, s);
  }

  lemma GrownSpan(d: Disk, d': Disk, b: State, s: State, r: Record, t: State)
    requires JournalSpan(d, b, s) && r.kind == Appended && ApplyEvent(s, r) == Some(t) && Follows(s, t)
    requires FilesSafe(d') && d'.entry == d.entry && d'.durableEntry in {d.entry, d.durableEntry}
    requires d'.files.Keys == d.files.Keys
    requires forall i :: i in d.files && Some(i) != d.entry ==> d'.files[i] == d.files[i]
    requires var f, f' := d.files[d.entry.value], d'.files[d.entry.value];
             && f'.visible.lines == f.visible.lines + [r] && f.durable.lines <= f'.durable.lines
             && (f'.durable.lines == [] ==> f'.durable == f.durable)
    ensures JournalSpan(d', b, t) && (MayLeave(d', []) ==> MayLeave(d, []))
  {
    var lines := d.files[d.entry.value].visible.lines;
    ReplayAppend(lines, r, "");
    ReplayExtends(lines, lines + [r], lines + [r], "");
    assert MayLeave(d, lines) && Point(b, s, lines);
    FollowsReflexive(t);
    FollowsTransitive(b, s, t);
    forall left | MayLeave(d', left)
      ensures Point(b, t, left) && (left == [] ==> MayLeave(d, left))
    {
      if left != lines + [r] {
        ShorterIsWithin(d, d', left, r);
        assert Point(b, s, left);
        if left != [] { FollowsTransitive(Replay(left, "").value, s, t); }
      }
    }
  }

  lemma ShorterIsWithin(d: Disk, d': Disk, left: seq<Record>, r: Record)
    requires d.entry.Some? && d.entry.value in d.files && d'.entry == d.entry &&
             d'.durableEntry in {d.entry, d.durableEntry}
    requires d'.files.Keys == d.files.Keys
    requires forall i :: i in d.files && Some(i) != d.entry ==> d'.files[i] == d.files[i]
    requires var f, f' := d.files[d.entry.value], d'.files[d.entry.value];
             f'.visible.lines == f.visible.lines + [r] && f.durable.lines <= f'.durable.lines
    requires MayLeave(d', left) && left != d'.files[d.entry.value].visible.lines
    ensures MayLeave(d, left)
  {
    var f, f' := d.files[d.entry.value], d'.files[d.entry.value];
    if Spans(f', left) {
      assert |left| < |f'.visible.lines|;
      assert left <= f.visible.lines;
    }
  }

  /** File and entry durable: nothing but `t` is left. */
  lemma NarrowedSpan(d: Disk, b: State, t: State)
    requires JournalSpan(d, b, t) && JournalSettled(d)
    ensures JournalSpan(d, t, t)
  {
    FollowsReflexive(t);
    forall lines | MayLeave(d, lines)
      ensures Point(t, t, lines)
    {
      assert lines == d.files[d.entry.value].visible.lines;
    }
  }

  /** A checkpoint renamed into place beside the file it replaces. */
  lemma RenamedSpan(d: Disk, d': Disk, b: State, s: State, t: State)
    requires JournalSpan(d, b, s) && FilesSafe(d') && JournalIs(d', t) && Follows(s, t) && s.generation < t.generation
    requires d'.entry.value != d.entry.value && d'.durableEntry == d.entry && d.entry.value in d'.files
    requires d'.files[d.entry.value] == d.files[d.entry.value]
    requires d'.files[d'.entry.value].visible.lines == d'.files[d'.entry.value].durable.lines
    ensures JournalSpan(d', b, t) && (MayLeave(d', []) ==> MayLeave(d, []))
  {
    var lines := d.files[d.entry.value].visible.lines;
    assert MayLeave(d, lines) && Point(b, s, lines);
    FollowsReflexive(t);
    FollowsTransitive(b, s, t);
    forall left | MayLeave(d', left)
      ensures Point(b, t, left) && (left == [] ==> MayLeave(d, left))
    {
      if left != d'.files[d'.entry.value].visible.lines {
        assert MayLeave(d, left) && Point(b, s, left);
        if left != [] { FollowsTransitive(Replay(left, "").value, s, t); }
      }
    }
    assert MayLeave(d, d.files[d.entry.value].durable.lines);
    OldIsOlder(d.files[d.entry.value], s, t);
  }

  lemma OldIsOlder(f: Inode, s: State, t: State)
    requires f.durable.lines <= f.visible.lines && (f.durable.lines != [] ==> Replay(f.durable.lines, "").Some?)
    requires Replay(f.visible.lines, "") == Some(s) && s.generation < t.generation
    ensures Older(f, t)
  {
    if f.durable.lines == [] {
      assert Replay([], "") == Some(Fresh(""));
    } else {
      ReplayExtends(f.durable.lines, f.visible.lines, f.visible.lines, "");
    }
  }

  // ------------------------------------------------------- operations

  /** After an operation that leads from `s` to `t`, every crash leaves a state between `b` and `t`. */
  ghost predicate Lasts(env: Env, b: State, s: State, d': Disk, t: State) {
    Sturdy(env, d', b, s) || Sturdy(env, d', b, t) || Sturdy(env, d', t, t)
  }

  /** No watermarks are written, or they are written beside a synced slot. */
  predicate Guarded(d: Disk, d': Disk) {
    LatestSynced(d) || d'.lock == d.lock
  }

  lemma UnchangedLock(d: Disk, m: Metadata, io: SlotIO)
    requires WriteMetadata(d, m, io).0.lock == d.lock
    ensures WriteMetadata(d, m, io).0.durableLock == d.durableLock
  {
  }

  lemma ConcludeSturdy(env: Env, o: Outcome, t: State, e: Option<Event>, slot: SlotIO, unlocked: bool)
    requires JournalSpan(o.disk, t, t) && JournalSettled(o.disk) && LockFixes(env, o.disk, t)
    requires o.cache.Some? && o.cache.value.state == t
    requires Guarded(o.disk, Conclude(env, o, e, slot, unlocked).disk)
    ensures Sturdy(env, Conclude(env, o, e, slot, unlocked).disk, t, t)
  {
    var m := MetadataOf(t, env.options);
    var d' := WriteMetadata(o.disk, m, slot).0;
    SpanNarrows(o.disk, d', t, t);
    assert !MayLeave(o.disk, []);
    if d'.lock == o.disk.lock {
      UnchangedLock(o.disk, m, slot);
    } else {
      WriteKeepsLock(env, o.disk, t, slot);
    }
  }

  lemma AppendRecordSturdy(env: Env, d: Disk, b: State, s: State, c: Cache, r: Record, t: State, io: AppendIO,
                           tick: int)
    requires Sturdy(env, d, b, s) && r.kind == Appended && ApplyEvent(s, r) == Some(t) && Follows(s, t)
    requires Guarded(d, AppendRecord(env, d, c, r, t, io, tick).disk)
    ensures Lasts(env, b, s, AppendRecord(env, d, c, r, t, io, tick).disk, t)
  {
    WrittenSpan(d, b, s, r, t, io.write, tick);
    var written := WriteRecord(d, r, io.write, tick).0;
    HeaderLockKept(env, d, written, b, b);
    if io.write.WriteDone? {
      SturdyIsLive(env, d, b, s);
      FollowsTransitive(b, s, t);
      LockFixesFollows(env, d, b, t);
      var stored := Outcome(written, Some(CacheOf(env, d.entry.value, t, written.files[d.entry.value])), None);
      ConcludeSturdy(env, stored, t, r.event, io.slot, io.unlocked);
    }
  }

  lemma CompactStateSturdy(env: Env, d: Disk, b: State, s: State, c: Cache, source: State, t: Time, io: CompactIO,
                           tick: int)
    requires Sturdy(env, d, b, s) && Exact(env, d, c) && c.state == s
    requires Good(source) && Continues(s, source) && t != ZERO_TIME
    requires source.lastRecordedAt == ZERO_TIME || source.lastRecordedAt <= t
    requires s.lastRecordedAt == ZERO_TIME || s.lastRecordedAt <= t
    ensures var o := CompactState(env, d, c, source, t, io, tick);
            var target := CompactTarget(s, source, t);
            && o.disk.lock == d.lock && o.disk.durableLock == d.durableLock
            && (JournalSpan(o.disk, b, s) || JournalSpan(o.disk, b, target) || JournalSpan(o.disk, target, target))
            && (MayLeave(o.disk, []) ==> MayLeave(d, []))
            && (o.cache.Some? && !io.CompactCancelled? ==>
                  JournalSpan(o.disk, target, target) && JournalSettled(o.disk) && o.cache.value.state == target)
            && Follows(s, target)
  {
    var o := CompactState(env, d, c, source, t, io, tick);
    var target := CompactTarget(s, source, t);
    SturdyIsLive(env, d, b, s);
    FollowsReflexive(s);
    CompactStateSafe(env, d, c, source, t, io, tick, map[]);
    if source.generation < MAX_UINT64 {
      CompactedFollows(s, source, t);
      if io.RenameNoSync? {
        RenamedSpan(d, o.disk, b, s, target);
      } else if io.CompactDone? {
        InstalledSpan(o.disk, target);
      } else {
        SpanNarrows(d, o.disk, b, s);
      }
    }
  }

  lemma InstalledSpan(d: Disk, t: State)
    requires FilesSafe(d) && JournalIs(d, t) && JournalSettled(d)
    ensures JournalSpan(d, t, t)
  {
    FollowsReflexive(t);
    forall lines | MayLeave(d, lines)
      ensures Point(t, t, lines)
    {
      assert lines == d.files[d.entry.value].visible.lines;
    }
  }

  lemma SpanIsSturdy(env: Env, d: Disk, d': Disk, b: State, s: State, b': State, t: State)
    requires LockFixes(env, d, b) && d'.lock == d.lock && d'.durableLock == d.durableLock && d'.lockEntry.Linked?
    requires JournalSpan(d', b', t) && Follows(b, b')
    requires HeaderLock(env, d, b) && (MayLeave(d', []) ==> MayLeave(d, []))
    ensures Sturdy(env, d', b', t)
  {
    HeaderLockKept(env, d, d', b, b');
    LockFixesFollows(env, d, b, b');
  }

  /** What a compaction amounts to once its checkpoint is installed, or is not. */
  function Concluded(env: Env, done: Outcome, io: CompactIO, e: Option<Event>, slot: SlotIO, unlocked: bool): Outcome {
    if done.cache.None? || io.CompactCancelled? then done else Conclude(env, done, e, slot, unlocked)
  }

  lemma CompactAndConcludeSturdy(env: Env, d: Disk, b: State, s: State, c: Cache, source: State, t: Time, io: CompactIO,
                                 e: Option<Event>, slot: SlotIO, unlocked: bool, tick: int)
    requires Sturdy(env, d, b, s) && Exact(env, d, c) && c.state == s
    requires Good(source) && Continues(s, source) && t != ZERO_TIME
    requires source.lastRecordedAt == ZERO_TIME || source.lastRecordedAt <= t
    requires s.lastRecordedAt == ZERO_TIME || s.lastRecordedAt <= t
    requires var done := CompactState(env, d, c, source, t, io, tick);
             Guarded(d, Concluded(env, done, io, e, slot, unlocked).disk)
    ensures var done := CompactState(env, d, c, source, t, io, tick);
            Lasts(env, b, s, Concluded(env, done, io, e, slot, unlocked).disk, CompactTarget(s, source, t))
  {
    CompactStateSturdy(env, d, b, s, c, source, t, io, tick);
    var done, target := CompactState(env, d, c, source, t, io, tick), CompactTarget(s, source, t);
    SturdyIsLive(env, d, b, s);
    FollowsTransitive(b, s, target);
    FollowsReflexive(b);
    if done.cache.Some? && !io.CompactCancelled? {
      LockFixesFollows(env, d, b, target);
      ConcludeSturdy(env, done, target, e, slot, unlocked);
    } else if JournalSpan(done.disk, b, s) {
      SpanIsSturdy(env, d, done.disk, b, s, b, s);
    } else if JournalSpan(done.disk, b, target) {
      SpanIsSturdy(env, d, done.disk, b, s, b, target);
    } else {
      SpanIsSturdy(env, d, done.disk, b, s, target, target);
    }
  }

  lemma AppendPreparedSturdy(env: Env, d: Disk, b: State, s: State, c: Cache, r: Record, next: State, t: Time,
                             io: AppendIO, tick: int)
    requires Sturdy(env, d, b, s) && Exact(env, d, c) && c.state == s && t != ZERO_TIME
    requires r.kind == Appended && ApplyEvent(s, r) == Some(next) && Follows(s, next) && next.lastRecordedAt == t
    requires Guarded(d, AppendPrepared(env, d, c, r, next, t, io, tick).disk)
    ensures Lasts(env, b, s, AppendPrepared(env, d, c, r, next, t, io, tick).disk, StoreResult(env, c, r, next, t))
  {
    var projected := c.bytes + LineBytes(env, r);
    if projected <= MAX_INT64 && ShouldCompact(env, c, next, projected, t) == Some(true) {
      CompactAndConcludeSturdy(env, d, b, s, c, next, t, io.compact, r.event, io.slot, io.unlocked, tick);
    } else if projected <= MAX_INT64 && ShouldCompact(env, c, next, projected, t) == Some(false) {
      AppendRecordSturdy(env, d, b, s, c, r, next, io, tick);
    }
  }

  lemma AppendToSturdy(env: Env, d: Disk, b: State, s: State, c: Cache, draft: Draft, now: Time, io: AppendIO,
                       tick: int)
    requires Sturdy(env, d, b, s) && Exact(env, d, c) && c.state == s
    requires s.lastSequence < MAX_UINT64 && now != ZERO_TIME && draft.kind != ""
    requires Guarded(d, AppendTo(env, d, c, draft, now, io, tick).disk)
    ensures Lasts(env, b, s, AppendTo(env, d, c, draft, now, io, tick).disk, AppendResult(env, c, draft, now))
  {
    var t := CommitTime(s, now);
    PreviewIsReplay(s, draft, now, env.options);
    PreviewTimes(s, draft, t, env.options);
    var preview := Preview(s, draft, t, env.options).value;
    var r := EventRecord(Persisted(s, draft, t), t, preview.prunedThrough);
    AppendPreparedSturdy(env, d, b, s, c, r, preview, t, io, tick);
  }

  lemma CompactFromSturdy(env: Env, d: Disk, b: State, s: State, c: Cache, now: Time, io: CompactionIO, tick: int)
    requires Sturdy(env, d, b, s) && Exact(env, d, c) && c.state == s && now != ZERO_TIME
    requires Guarded(d, CompactFrom(env, d, c, now, io, tick).disk)
    ensures Lasts(env, b, s, CompactFrom(env, d, c, now, io, tick).disk, CompactionResult(env, s, now))
  {
    var t := CommitTime(s, now);
    RetentionIsExact(s, t, env.options);
    var prospective := ApplyRetention(s, t, env.options).value;
    if prospective.hasObsoleteHistory || !prospective.compacted {
      CompactAndConcludeSturdy(env, d, b, s, c, prospective, t, io.compact, None, io.slot, io.unlocked, tick);
    }
  }
}
