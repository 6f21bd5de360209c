/** Acknowledged events survive: over every run of any number of writers, with
    system calls failing anywhere, processes dying anywhere, machine crashes
    and any corruption of the lock file. */
module AuditSafety {
  import opened Wrappers
  import opened AuditJournal
  import opened AuditReplay
  import opened AuditCompaction
  import opened AuditMetadata
  import opened AuditDisk
  import opened AuditOps

  // ------------------------------------------------------- the system

  /** The directory, the live writers, and every event any writer has acknowledged. */
  datatype Sys = Sys(disk: Disk, writers: map<nat, Cache>, acked: map<nat, Event>)

  datatype Step =
    | OpenStep(w: nat, newId: string, now: Time, openIO: OpenIO, tick: int)
    | AppendStep(w: nat, draft: Draft, now: Time, appendIO: AppendIO, tick: int)
    | CompactStep(w: nat, now: Time, compactionIO: CompactionIO, tick: int)
    | ListStep(w: nat, repair: RepairIO, tick: int)
    | CloseStep(w: nat)
    | CrashStep(left: Disk)

  function Settle(s: Sys, w: nat, o: Outcome): Sys {
    Sys(o.disk,
        if o.cache.Some? then s.writers[w := o.cache.value] else s.writers - {w},
        if o.ack.Some? then s.acked[o.ack.value.sequence := o.ack.value] else s.acked)
  }

  ghost predicate Enabled(s: Sys, step: Step) {
    match step
    case OpenStep(w, _, _, _, _) => w !in s.writers
    case CrashStep(left) => CrashJournal(s.disk, left)
    case _ => step.w in s.writers
  }

  function Next(env: Env, s: Sys, step: Step): Sys
    requires step.OpenStep? || step.CrashStep? || step.w in s.writers
  {
    match step
    case OpenStep(w, newId, now, io, tick) => Settle(s, w, Open(env, s.disk, newId, now, io, tick))
    case AppendStep(w, draft, now, io, tick) => Settle(s, w, Append(env, s.disk, s.writers[w], draft, now, io, tick))
    case CompactStep(w, now, io, tick) => Settle(s, w, Compact(env, s.disk, s.writers[w], now, io, tick))
    case ListStep(w, io, tick) => Settle(s, w, Refresh(env, s.disk, s.writers[w], io, tick))
    case CloseStep(w) => s.(writers := s.writers - {w})
    case CrashStep(left) => Sys(left, map[], s.acked)
  }

  ghost predicate Run(env: Env, s: Sys, steps: seq<Step>)
    decreases |steps|
  {
    steps != [] ==> Enabled(s, steps[0]) && Run(env, Next(env, s, steps[0]), steps[1..])
  }

  ghost function Last(env: Env, s: Sys, steps: seq<Step>): Sys
    requires Run(env, s, steps)
    decreases |steps|
  {
    if steps == [] then s else Last(env, Next(env, s, steps[0]), steps[1..])
  }

  // ------------------------------------------------------- the invariant

  predicate FilesSafe(d: Disk) {
    && (d.entry.Some? ==> d.entry.value in d.files)
    && (d.durableEntry.Some? ==> d.durableEntry.value in d.files)
    && forall i :: i in d.files ==> i < d.next && d.files[i].durable.lines <= d.files[i].visible.lines
  }

  /** A file both of whose versions replay. */
  predicate Replays(f: Inode) {
    f.durable.lines != [] && Replay(f.durable.lines, "").Some? && Replay(f.visible.lines, "").Some?
  }

  /** Every acknowledged event is where its sequence number says, or was pruned. */
  predicate Holds(acked: map<nat, Event>, s: State) {
    forall q :: q in acked ==>
      && acked[q].sequence == q <= s.lastSequence
      && (q > s.prunedThrough ==> q - s.prunedThrough - 1 < |s.events|
                                  && s.events[q - s.prunedThrough - 1].event == acked[q])
  }

  /** The journal a crash would leave holds them, and the visible one continues it. */
  predicate AckedSafe(d: Disk, acked: map<nat, Event>)
    requires FilesSafe(d)
  {
    acked != map[] ==>
      && d.entry.Some? && d.durableEntry.Some?
      && Replays(d.files[d.entry.value]) && Replays(d.files[d.durableEntry.value])
      && Holds(acked, Replay(d.files[d.durableEntry.value].durable.lines, "").value)
      && Continues(Replay(d.files[d.durableEntry.value].durable.lines, "").value,
                   Replay(d.files[d.entry.value].durable.lines, "").value)
  }

  predicate DiskSafe(d: Disk, acked: map<nat, Event>) {
    FilesSafe(d) && AckedSafe(d, acked)
  }

  predicate CachedAt(env: Env, lines: seq<Record>, c: Cache, k: nat) {
    0 < k <= |lines| && c.bytes == Bytes(env, lines[..k]) && Replay(lines[..k], "") == Some(c.state)
  }

  /** A writer's cache is the replay of a prefix of the file it holds, as long as that file is canonical. */
  ghost predicate CacheSafe(env: Env, d: Disk, c: Cache) {
    && c.state.storeId != "" && c.inode < d.next
    && (d.entry == Some(c.inode) && c.inode in d.files ==>
          exists k: nat :: CachedAt(env, d.files[c.inode].visible.lines, c, k))
  }

  ghost predicate Safe(env: Env, s: Sys) {
    DiskSafe(s.disk, s.acked) && forall w :: w in s.writers ==> CacheSafe(env, s.disk, s.writers[w])
  }

  /** The cache is exactly the canonical file. */
  predicate Exact(env: Env, d: Disk, c: Cache) {
    && d.entry == Some(c.inode) && c.inode in d.files
    && d.files[c.inode].visible.lines != []
    && Replay(d.files[c.inode].visible.lines, "") == Some(c.state)
    && c.bytes == FileBytes(env, d.files[c.inode].visible) == Bytes(env, d.files[c.inode].visible.lines)
  }

  lemma HoldsContinues(acked: map<nat, Event>, a: State, b: State)
    requires Contiguous(a) && Holds(acked, a) && Continues(a, b)
    ensures Holds(acked, b)
  {
    forall q | q in acked && q > b.prunedThrough
      ensures q - b.prunedThrough - 1 < |b.events| && b.events[q - b.prunedThrough - 1].event == acked[q]
    {
      var i := q - a.prunedThrough - 1;
      assert a.events[i].event == acked[q];
      assert Retained(a.events[i], b);
    }
  }

  // ------------------------------------------------------- changes to the disk

  /** The canonical file may only grow, and become more durable. */
  predicate Grows(f: Inode, f': Inode) {
    && f.visible.lines <= f'.visible.lines
    && f.durable.lines <= f'.durable.lines <= f'.visible.lines
  }

  function WithFile(d: Disk, f: Inode): Disk
    requires d.entry.Some?
  {
    d.(files := d.files[d.entry.value := f])
  }

  lemma GrowReplays(f: Inode, f': Inode)
    requires Replays(f) && Grows(f, f') && f.durable.lines <= f.visible.lines && Replay(f'.visible.lines, "").Some?
    ensures Replays(f')
    ensures Continues(Replay(f.durable.lines, "").value, Replay(f'.durable.lines, "").value)
    ensures Contiguous(Replay(f.durable.lines, "").value)
  {
    ReplayExtends(f.durable.lines, f'.durable.lines, f'.visible.lines, "");
    ReplayIsContiguous(f.durable.lines, "");
  }

  lemma GrowSafe(d: Disk, f: Inode, acked: map<nat, Event>)
    requires DiskSafe(d, acked) && d.entry.Some? && Grows(d.files[d.entry.value], f)
    requires acked != map[] ==> Replay(f.visible.lines, "").Some?
    ensures DiskSafe(WithFile(d, f), acked)
  {
    if acked != map[] {
      var i, j := d.entry.value, d.durableEntry.value;
      var before := d.files[i];
      GrowReplays(before, f);
      var was, grown := Replay(before.durable.lines, "").value, Replay(f.durable.lines, "").value;
      var base := Replay(d.files[j].durable.lines, "").value;
      if i == j {
        HoldsContinues(acked, was, grown);
        ReplayIsContiguous(f.durable.lines, "");
        ContinuesReflexive(grown);
      } else {
        ContinuesTransitive(base, was, grown);
      }
    }
  }

  lemma DirectorySyncSafe(d: Disk, acked: map<nat, Event>)
    requires DiskSafe(d, acked)
    ensures DiskSafe(SyncDirectory(d), acked)
  {
    if acked != map[] {
      var base := Replay(d.files[d.durableEntry.value].durable.lines, "").value;
      var top := Replay(d.files[d.entry.value].durable.lines, "").value;
      ReplayIsContiguous(d.files[d.durableEntry.value].durable.lines, "");
      ReplayIsContiguous(d.files[d.entry.value].durable.lines, "");
      HoldsContinues(acked, base, top);
      ContinuesReflexive(top);
    }
  }

  /** Two disks that differ only in ways no journal notices. */
  predicate SameJournal(d: Disk, d': Disk) {
    d'.files == d.files && d'.entry == d.entry && d'.durableEntry == d.durableEntry && d'.next == d.next
  }

  lemma SlotSafe(d: Disk, slot: nat, r: Region, io: SlotIO, acked: map<nat, Event>)
    requires DiskSafe(d, acked)
    ensures DiskSafe(WriteSlot(d, slot, r, io).0, acked)
    ensures WriteSlot(d, slot, r, io).0.files == d.files && WriteSlot(d, slot, r, io).0.entry == d.entry
    ensures WriteSlot(d, slot, r, io).0.next == d.next
  {
    DirectorySyncSafe(d, acked);
    var d' := WriteSlot(d, slot, r, io).0;
    assert SameJournal(d, d') || SameJournal(SyncDirectory(d), d');
  }

  lemma MetadataSafe(d: Disk, m: Metadata, io: SlotIO, acked: map<nat, Event>)
    requires DiskSafe(d, acked)
    ensures DiskSafe(WriteMetadata(d, m, io).0, acked)
    ensures WriteMetadata(d, m, io).0.files == d.files && WriteMetadata(d, m, io).0.entry == d.entry
    ensures WriteMetadata(d, m, io).0.next == d.next
  {
    if Writable(ReadLock(d.lock)) {
      SlotSafe(d, Target(ReadLock(d.lock)), NextSlot(ReadLock(d.lock), m), io, acked);
    }
  }

  lemma WriteRecordSafe(d: Disk, r: Record, io: WriteIO, tick: int, acked: map<nat, Event>)
    requires DiskSafe(d, acked) && d.entry.Some?
    requires acked != map[] ==> Replay(d.files[d.entry.value].visible.lines + [r], "").Some?
    ensures DiskSafe(WriteRecord(d, r, io, tick).0, acked)
    ensures WriteRecord(d, r, io, tick).0.entry == d.entry && WriteRecord(d, r, io, tick).0.next == d.next
    ensures WriteRecord(d, r, io, tick).0.files.Keys == d.files.Keys
    ensures Grows(d.files[d.entry.value], WriteRecord(d, r, io, tick).0.files[d.entry.value])
    ensures WriteRecord(d, r, io, tick).1 ==>
              && WriteRecord(d, r, io, tick).0.durableEntry == d.entry
              && WriteRecord(d, r, io, tick).0.files[d.entry.value].visible
                 == Content(d.files[d.entry.value].visible.lines + [r], Clean)
                 == WriteRecord(d, r, io, tick).0.files[d.entry.value].durable
  {
    var d' := WriteRecord(d, r, io, tick).0;
    var f := d'.files[d.entry.value];
    GrowSafe(d, f, acked);
    if io.WriteDone? {
      DirectorySyncSafe(WithFile(d, f), acked);
      assert d' == SyncDirectory(WithFile(d, f));
    } else {
      assert d' == WithFile(d, f);
    }
  }

  // ------------------------------------------------------- operations

  /** Nothing a cache relies on goes away: the canonical file grew, or a new one took its place. */
  predicate Later(d: Disk, d': Disk) {
    && d.next <= d'.next
    && (|| (d'.entry.Some? && d'.entry.value >= d.next)
        || (&& d'.entry == d.entry
            && (d.entry.Some? && d.entry.value in d'.files ==>
                  d.entry.value in d.files
                  && d.files[d.entry.value].visible.lines <= d'.files[d.entry.value].visible.lines)))
  }

  lemma LaterKeepsCache(env: Env, d: Disk, d': Disk, c: Cache)
    requires Later(d, d') && CacheSafe(env, d, c)
    ensures CacheSafe(env, d', c)
  {
    if d'.entry == Some(c.inode) && c.inode in d'.files {
      var lines := d.files[c.inode].visible.lines;
      var k: nat :| CachedAt(env, lines, c, k);
      assert d'.files[c.inode].visible.lines[..k] == lines[..k];
      assert CachedAt(env, d'.files[c.inode].visible.lines, c, k);
    }
  }

  lemma ExactIsSafe(env: Env, d: Disk, c: Cache)
    requires FilesSafe(d) && Exact(env, d, c) && c.state.storeId != ""
    ensures CacheSafe(env, d, c)
  {
    var lines := d.files[c.inode].visible.lines;
    assert lines[..|lines|] == lines;
    assert CachedAt(env, lines, c, |lines|);
  }

  function Acked(acked: map<nat, Event>, ack: Option<Event>): map<nat, Event> {
    if ack.Some? then acked[ack.value.sequence := ack.value] else acked
  }

  ghost predicate OutcomeSafe(env: Env, d: Disk, acked: map<nat, Event>, o: Outcome) {
    && DiskSafe(o.disk, Acked(acked, o.ack)) && Later(d, o.disk)
    && (o.cache.Some? ==> CacheSafe(env, o.disk, o.cache.value))
    && (o.ack.Some? ==> o.ack.value.sequence !in acked)
  }

  // ---- refresh

  /** A cache that matches the file by size and time is that file's full replay. */
  lemma MatchIsExact(env: Env, d: Disk, c: Cache)
    requires FilesSafe(d) && CacheSafe(env, d, c) && d.entry == Some(c.inode) && Matches(env, c, d.files[c.inode])
    ensures Exact(env, d, c)
  {
    var lines := d.files[c.inode].visible.lines;
    var k: nat :| CachedAt(env, lines, c, k);
    BytesStrictlyGrow(env, lines[..k], lines);
  }

  lemma RecoverSafe(d: Disk, expected: string, io: RepairIO, tick: int, acked: map<nat, Event>)
    requires DiskSafe(d, acked) && d.entry.Some?
    ensures var (f, s) := RecoverFile(d.files[d.entry.value], expected, io, tick);
            && DiskSafe(WithFile(d, f), acked) && Later(d, WithFile(d, f))
            && f.visible.lines == d.files[d.entry.value].visible.lines
            && (s.Some? ==> Replay(f.visible.lines, expected) == s && f.visible.tail == Clean)
  {
    GrowSafe(d, RecoverFile(d.files[d.entry.value], expected, io, tick).0, acked);
  }

  lemma AdoptSafe(env: Env, d: Disk, c: Cache, m: Metadata, io: RepairIO, tick: int, acked: map<nat, Event>)
    requires DiskSafe(d, acked) && CacheSafe(env, d, c) && d.entry.Some?
    ensures var o := Adopt(env, d, c, m, d.entry.value, io, tick);
            OutcomeSafe(env, d, acked, o) && o.ack.None? && (o.cache.Some? ==> Exact(env, o.disk, o.cache.value))
  {
    RecoverSafe(d, c.state.storeId, io, tick, acked);
    var o := Adopt(env, d, c, m, d.entry.value, io, tick);
    if o.cache.Some? {
      ReplayExpecting(o.disk.files[d.entry.value].visible.lines, c.state.storeId);
      ExactIsSafe(env, o.disk, o.cache.value);
    }
  }

  /** A successful refresh ends with the full replay of the canonical file. */
  lemma RefreshSafe(env: Env, d: Disk, c: Cache, io: RepairIO, tick: int, acked: map<nat, Event>)
    requires DiskSafe(d, acked) && CacheSafe(env, d, c)
    ensures var o := Refresh(env, d, c, io, tick);
            OutcomeSafe(env, d, acked, o) && o.ack.None? && (o.cache.Some? ==> Exact(env, o.disk, o.cache.value))
  {
    if d.entry == Some(c.inode) && Matches(env, c, d.files[c.inode]) {
      MatchIsExact(env, d, c);
    }
    if d.entry.Some? && LockedMetadata(d.lock).Some? {
      AdoptSafe(env, d, c, LockedMetadata(d.lock).value, io, tick, acked);
    }
  }

  // ---- committing

  /** What holds once the canonical file and its entry are durable and replay to `s`. */
  predicate Committed(d: Disk, s: State) {
    && d.entry.Some? && d.durableEntry == d.entry && d.entry.value in d.files
    && d.files[d.entry.value].durable == d.files[d.entry.value].visible
    && d.files[d.entry.value].visible.lines != []
    && Replay(d.files[d.entry.value].visible.lines, "") == Some(s)
  }

  lemma AckSafe(d: Disk, s: State, acked: map<nat, Event>, e: Event, base: State)
    requires DiskSafe(d, acked) && Committed(d, s)
    requires acked != map[] ==> Contiguous(base) && Holds(acked, base)
    requires acked != map[] ==> base.lastSequence < e.sequence
    requires s.lastSequence == e.sequence > s.prunedThrough
    requires s.events != [] && s.events[|s.events| - 1].event == e
    ensures e.sequence !in acked && DiskSafe(d, acked[e.sequence := e])
  {
    ReplayIsContiguous(d.files[d.entry.value].visible.lines, "");
    ContinuesReflexive(s);
    assert Replays(d.files[d.entry.value]);
    assert Holds(acked[e.sequence := e], s);
  }

  lemma ConcludeSafe(env: Env, d: Disk, o: Outcome, s: State, e: Option<Event>, slot: SlotIO, unlocked: bool,
                     acked: map<nat, Event>, base: State)
    requires DiskSafe(o.disk, acked) && Later(d, o.disk) && o.cache.Some? && CacheSafe(env, o.disk, o.cache.value)
    requires e.Some? ==> Committed(o.disk, s)
    requires e.Some? ==> s.lastSequence == e.value.sequence > s.prunedThrough
    requires e.Some? ==> s.events != [] && s.events[|s.events| - 1].event == e.value
    requires e.Some? && acked != map[] ==>
               Contiguous(base) && Holds(acked, base) &&
               base.lastSequence < e.value.sequence
    ensures OutcomeSafe(env, d, acked, Conclude(env, o, e, slot, unlocked))
  {
    var m := MetadataOf(o.cache.value.state, env.options);
    MetadataSafe(o.disk, m, slot, acked);
    var d' := WriteMetadata(o.disk, m, slot).0;
    assert Later(o.disk, d');
    LaterKeepsCache(env, o.disk, d', o.cache.value);
    if e.Some? && Conclude(env, o, e, slot, unlocked).ack.Some? {
      AckSafe(d', s, acked, e.value, base);
    }
  }

  /** The visible state holds every acknowledged event too. */
  lemma VisibleHolds(env: Env, d: Disk, c: Cache, acked: map<nat, Event>)
    requires DiskSafe(d, acked) && Exact(env, d, c)
    ensures Contiguous(c.state) && (acked != map[] ==> Holds(acked, c.state))
    ensures acked != map[] ==> Continues(Replay(d.files[c.inode].durable.lines, "").value, c.state)
  {
    var f := d.files[c.inode];
    ReplayIsContiguous(f.visible.lines, "");
    if acked != map[] {
      DirectorySyncSafe(d, acked);
      ReplayExtends(f.durable.lines, f.visible.lines, f.visible.lines, "");
      ReplayIsContiguous(f.durable.lines, "");
      HoldsContinues(acked, Replay(f.durable.lines, "").value, c.state);
    }
  }

  // ---- compaction

  /** The renamed checkpoint, before the directory is synced again. */
  lemma RenameSafe(env: Env, d: Disk, c: Cache, source: State, s: State, whole: Content, tick: int,
                   acked: map<nat, Event>)
    requires DiskSafe(d, acked) && Exact(env, d, c) && Continues(c.state, source) && Contiguous(source)
    requires whole.lines != [] && whole.lines[0].kind == SnapshotBegin && whole.tail == Clean
    requires Replay(whole.lines, source.storeId) == Some(s) && SemanticallyEqual(source, s)
    ensures var renamed := SyncDirectory(d).(files := d.files[d.next := Inode(whole, whole, tick)],
                              entry := Some(d.next), temp := None, next := d.next + 1);
            DiskSafe(renamed, acked) && Later(d, renamed) && Replay(whole.lines, "") == Some(s)
  {
    ReplayExpecting(whole.lines, source.storeId);
    CheckpointFirst(whole.lines, "");
    SemanticallyEqualAdvances(source, s);
    ContinuesTransitive(c.state, source, s);
    if acked != map[] {
      DirectorySyncSafe(d, acked);
      VisibleHolds(env, d, c, acked);
      ContinuesTransitive(Replay(d.files[c.inode].durable.lines, "").value, c.state, s);
    }
  }

  lemma CompactStateSafe(env: Env, d: Disk, c: Cache, source: State, t: Time, io: CompactIO, tick: int,
                         acked: map<nat, Event>)
    requires DiskSafe(d, acked) && Exact(env, d, c) && Continues(c.state, source) && Contiguous(source)
    ensures var o := CompactState(env, d, c, source, t, io, tick);
            && OutcomeSafe(env, d, acked, o) && o.ack.None?
            && (o.cache.Some? && !io.CompactCancelled? ==>
                  Committed(o.disk, o.cache.value.state) && SemanticallyEqual(source, o.cache.value.state))
  {
    ExactIsSafe(env, d, c);
    if io.CompactCancelled? || io.TempFails? {
      CompactStopsSafe(env, d, c, source, t, io, tick, acked);
    } else {
      CompactRenamesSafe(env, d, c, source, t, io, tick, acked);
    }
  }

  lemma CompactRenamesSafe(env: Env, d: Disk, c: Cache, source: State, t: Time, io: CompactIO, tick: int,
                           acked: map<nat, Event>)
    requires DiskSafe(d, acked) && Exact(env, d, c) && Continues(c.state, source) && Contiguous(source)
    requires io.RenameNoSync? || io.CompactDone?
    ensures var o := CompactState(env, d, c, source, t, io, tick);
            && OutcomeSafe(env, d, acked, o) && o.ack.None?
            && (o.cache.Some? ==>
                  Committed(o.disk, o.cache.value.state) && SemanticallyEqual(source, o.cache.value.state))
  {
    if source.generation < MAX_UINT64 && |source.events| <= MAX_UINT64 {
      var whole := Content(Checkpoint(source, t), Clean);
      match Replay(whole.lines, source.storeId)
      case None =>
      case Some(s) =>
        if SemanticallyEqual(source, s) {
          RenameSafe(env, d, c, source, s, whole, tick, acked);
          if io.CompactDone? {
            InstalledSafe(env, d, s, whole, tick, acked);
          }
        }
    }
  }

  lemma CompactStopsSafe(env: Env, d: Disk, c: Cache, source: State, t: Time, io: CompactIO, tick: int,
                         acked: map<nat, Event>)
    requires DiskSafe(d, acked) && Exact(env, d, c) && CacheSafe(env, d, c) && (io.CompactCancelled? || io.TempFails?)
    ensures var o := CompactState(env, d, c, source, t, io, tick);
            OutcomeSafe(env, d, acked, o) && o.ack.None? && (o.cache.Some? ==> io.CompactCancelled?)
  {
    DirectorySyncSafe(d, acked);
    var d' := CompactState(env, d, c, source, t, io, tick).disk;
    assert SameJournal(d, d') || SameJournal(SyncDirectory(d), d');
  }

  /** The directory synced once more, and the superseded file emptied. */
  lemma InstalledSafe(env: Env, d: Disk, s: State, whole: Content, tick: int, acked: map<nat, Event>)
    requires DiskSafe(d, acked) && d.entry.Some? && whole.lines != [] && whole.tail == Clean
    requires s.storeId != "" && Replay(whole.lines, "") == Some(s)
    requires DiskSafe(SyncDirectory(d).(files := d.files[d.next := Inode(whole, whole, tick)], entry := Some(d.next),
                         temp := None, next := d.next + 1), acked)
    ensures var f := Inode(whole, whole, tick);
            var none := Inode(Content([], Clean), Content([], Clean), tick);
            var d' := SyncDirectory(SyncDirectory(d).(files := d.files[d.next := f][d.entry.value := none],
                         entry := Some(d.next), temp := None, next := d.next + 1));
            && DiskSafe(d', acked) && Later(d, d') && Committed(d', s) && Exact(env, d', CacheOf(env, d.next, s, f))
            && CacheSafe(env, d', CacheOf(env, d.next, s, f))
  {
    var f := Inode(whole, whole, tick);
    var renamed := SyncDirectory(d).(files := d.files[d.next := f], entry := Some(d.next), temp := None,
    next := d.next + 1);
    DirectorySyncSafe(renamed, acked);
    var none := Inode(Content([], Clean), Content([], Clean), tick);
    var d' := SyncDirectory(renamed.(files := renamed.files[d.entry.value := none]));
    assert d'.files[d.next] == f;
    ExactIsSafe(env, d', CacheOf(env, d.next, s, f));
  }

  lemma CompactFromSafe(env: Env, d: Disk, c: Cache, now: Time, io: CompactionIO, tick: int, acked: map<nat, Event>)
    requires DiskSafe(d, acked) && Exact(env, d, c) && c.state.storeId != ""
    ensures OutcomeSafe(env, d, acked, CompactFrom(env, d, c, now, io, tick))
    ensures CompactFrom(env, d, c, now, io, tick).ack.None?
  {
    var t := CommitTime(c.state, now);
    ExactIsSafe(env, d, c);
    VisibleHolds(env, d, c, acked);
    RetentionContinues(c.state, t, env.options);
    var prospective := ApplyRetention(c.state, t, env.options).value;
    CompactStateSafe(env, d, c, prospective, t, io.compact, tick, acked);
    var done := CompactState(env, d, c, prospective, t, io.compact, tick);
    if done.cache.Some? && !io.compact.CompactCancelled? {
      ConcludeSafe(env, d, done, prospective, None, io.slot, io.unlocked, acked, prospective);
    }
  }

  lemma ChainSafe(env: Env, d: Disk, mid: Disk, o: Outcome, acked: map<nat, Event>)
    requires Later(d, mid) && FilesSafe(mid) && OutcomeSafe(env, mid, acked, o)
    ensures OutcomeSafe(env, d, acked, o)
  {
    LaterTransitive(d, mid, o.disk);
  }

  lemma CompactSafe(env: Env, d: Disk, c: Cache, now: Time, io: CompactionIO, tick: int, acked: map<nat, Event>)
    requires DiskSafe(d, acked) && CacheSafe(env, d, c)
    ensures OutcomeSafe(env, d, acked, Compact(env, d, c, now, io, tick))
    ensures Compact(env, d, c, now, io, tick).ack.None?
  {
    RefreshSafe(env, d, c, io.repair, tick, acked);
    var r := Refresh(env, d, c, io.repair, tick);
    if r.cache.Some? && now != ZERO_TIME {
      CompactFromSafe(env, r.disk, r.cache.value, now, io, tick, acked);
      ChainSafe(env, d, r.disk, CompactFrom(env, r.disk, r.cache.value, now, io, tick), acked);
    }
  }

  lemma LaterTransitive(a: Disk, b: Disk, c: Disk)
    requires Later(a, b) && Later(b, c) && FilesSafe(b)
    ensures Later(a, c)
  {
  }

  // ---- append

  lemma AppendRecordSafe(env: Env, d: Disk, c: Cache, r: Record, io: AppendIO, tick: int, acked: map<nat, Event>)
    requires DiskSafe(d, acked) && Exact(env, d, c) && c.state.storeId != ""
    requires r.kind == Appended && ApplyEvent(c.state, r).Some?
    ensures OutcomeSafe(env, d, acked, AppendRecord(env, d, c, r, ApplyEvent(c.state, r).value, io, tick))
  {
    var lines := d.files[c.inode].visible.lines;
    var next := ApplyEvent(c.state, r).value;
    VisibleHolds(env, d, c, acked);
    ReplayAppend(lines, r, "");
    WriteRecordSafe(d, r, io.write, tick, acked);
    var (written, ok) := WriteRecord(d, r, io.write, tick);
    assert Later(d, written);
    if ok {
      AppliedEventIsLast(c.state, r);
      var cache := CacheOf(env, c.inode, next, written.files[c.inode]);
      assert Committed(written, next);
      ExactIsSafe(env, written, cache);
      ConcludeSafe(env, d, Outcome(written, Some(cache), None), next, r.event, io.slot, io.unlocked, acked, c.state);
    }
  }

  lemma AppendByCompactionSafe(env: Env, d: Disk, c: Cache, r: Record, t: Time, io: AppendIO, tick: int,
                               acked: map<nat, Event>)
    requires DiskSafe(d, acked) && Exact(env, d, c) && c.state.storeId != ""
    requires r.kind == Appended && ApplyEvent(c.state, r).Some?
    ensures var done := CompactState(env, d, c, ApplyEvent(c.state, r).value, t, io.compact, tick);
            && OutcomeSafe(env, d, acked, done) && done.ack.None?
            && (done.cache.Some? && !io.compact.CompactCancelled? ==>
                  OutcomeSafe(env, d, acked, Conclude(env, done, r.event, io.slot, io.unlocked)))
  {
    var next := ApplyEvent(c.state, r).value;
    VisibleHolds(env, d, c, acked);
    ApplyEventContinues(c.state, r);
    AppliedEventIsLast(c.state, r);
    CompactStateSafe(env, d, c, next, t, io.compact, tick, acked);
    var done := CompactState(env, d, c, next, t, io.compact, tick);
    if done.cache.Some? && !io.compact.CompactCancelled? {
      ConcludeSafe(env, d, done, done.cache.value.state, r.event, io.slot, io.unlocked, acked, c.state);
    }
  }

  lemma AppendPreparedSafe(env: Env, d: Disk, c: Cache, r: Record, t: Time, io: AppendIO, tick: int,
                           acked: map<nat, Event>)
    requires DiskSafe(d, acked) && Exact(env, d, c) && c.state.storeId != ""
    requires r.kind == Appended && ApplyEvent(c.state, r).Some?
    ensures OutcomeSafe(env, d, acked, AppendPrepared(env, d, c, r, ApplyEvent(c.state, r).value, t, io, tick))
  {
    ExactIsSafe(env, d, c);
    AppendRecordSafe(env, d, c, r, io, tick, acked);
    AppendByCompactionSafe(env, d, c, r, t, io, tick, acked);
  }

  lemma AppendToSafe(env: Env, d: Disk, c: Cache, draft: Draft, now: Time, io: AppendIO, tick: int,
                     acked: map<nat, Event>)
    requires DiskSafe(d, acked) && Exact(env, d, c) && c.state.storeId != "" && c.state.lastSequence < MAX_UINT64
    ensures OutcomeSafe(env, d, acked, AppendTo(env, d, c, draft, now, io, tick))
  {
    var t := CommitTime(c.state, now);
    match Preview(c.state, draft, t, env.options)
    case None =>
    case Some(preview) =>
      var r := EventRecord(Persisted(c.state, draft, t), t, preview.prunedThrough);
      if ApplyEvent(c.state, r).Some? {
        AppendPreparedSafe(env, d, c, r, t, io, tick, acked);
      }
  }

  lemma AppendSafe(env: Env, d: Disk, c: Cache, draft: Draft, now: Time, io: AppendIO, tick: int,
                   acked: map<nat, Event>)
    requires DiskSafe(d, acked) && CacheSafe(env, d, c)
    ensures OutcomeSafe(env, d, acked, Append(env, d, c, draft, now, io, tick))
  {
    RefreshSafe(env, d, c, io.repair, tick, acked);
    var r := Refresh(env, d, c, io.repair, tick);
    if r.cache.Some? && r.cache.value.state.lastSequence < MAX_UINT64 {
      AppendToSafe(env, r.disk, r.cache.value, draft, now, io, tick, acked);
      ChainSafe(env, d, r.disk, AppendTo(env, r.disk, r.cache.value, draft, now, io, tick), acked);
    }
  }

  // ---- open

  lemma LocateSafe(d: Disk, r: Reading, io: OpenIO, tick: int, acked: map<nat, Event>)
    requires DiskSafe(d, acked)
    ensures var d' := Locate(d, r, io, tick).0;
            DiskSafe(d', acked) && Later(d, d') && (Locate(d, r, io, tick).1 ==> d'.entry.Some?)
  {
  }

  lemma InitialiseSafe(env: Env, d: Disk, r: Reading, s: State, now: Time, io: OpenIO, tick: int,
                       acked: map<nat, Event>)
    requires DiskSafe(d, acked) && d.entry.Some? && acked == map[]
    ensures var (d', ok) := Initialise(env, d, r, s, now, io, tick);
            && DiskSafe(d', acked) && Later(d, d') && d'.entry == d.entry
            && (ok ==> d'.files[d.entry.value].visible
                       == Content(d.files[d.entry.value].visible.lines + [HeaderRecord(now, s.storeId)], Clean))
  {
    var m := MetadataOf(s, env.options);
    SlotSafe(d, 0, InitialSlot(m), io.first, acked);
    MetadataSafe(d, m, io.first, acked);
    WriteRecordSafe(d, HeaderRecord(now, s.storeId), io.header, tick, acked);
    var fixed := if r.TornInitial? then if ValidMetadata(m) then WriteSlot(d, 0, InitialSlot(m), io.first).0 else d
                 else if MetadataOrBlank(r) == m then d
                 else WriteMetadata(d, m, io.first).0;
    WriteRecordSafe(fixed, HeaderRecord(now, s.storeId), io.header, tick, acked);
  }

  lemma AdmitSafe(env: Env, d: Disk, m: Metadata, s: State, expected: string, io: OpenIO, acked: map<nat, Event>)
    requires DiskSafe(d, acked) && d.entry.Some? && expected != ""
    requires d.files[d.entry.value].visible.tail == Clean && d.files[d.entry.value].visible.lines != []
    requires Replay(d.files[d.entry.value].visible.lines, expected) == Some(s)
    ensures OutcomeSafe(env, d, acked, Admit(env, d, m, s, io)) && Admit(env, d, m, s, io).ack.None?
  {
    MetadataSafe(d, MetadataOf(s, env.options), io.slot, acked);
    var o := Admit(env, d, m, s, io);
    ReplayExpecting(d.files[d.entry.value].visible.lines, expected);
    var cache := CacheOf(env, d.entry.value, s, d.files[d.entry.value]);
    ExactIsSafe(env, d, cache);
    LaterKeepsCache(env, d, o.disk, cache);
  }

  lemma OpenRecoveredSafe(env: Env, d: Disk, r: Reading, s: State, newId: string, now: Time, io: OpenIO, tick: int,
                          acked: map<nat, Event>)
    requires DiskSafe(d, acked) && d.entry.Some? && d.files[d.entry.value].visible.tail == Clean
    requires var lines := d.files[d.entry.value].visible.lines;
             lines != [] ==> Replay(lines, MetadataOrBlank(r).storeId) == Some(s)
    ensures OutcomeSafe(env, d, acked, OpenRecovered(env, d, r, s, newId, now, io, tick))
    ensures OpenRecovered(env, d, r, s, newId, now, io, tick).ack.None?
  {
    var m := MetadataOrBlank(r);
    if d.files[d.entry.value].visible.lines != [] {
      if m.storeId != "" {
        AdmitSafe(env, d, m, s, m.storeId, io, acked);
      }
    } else if m.storeId == "" || (r.Current? && Pristine(m)) {
      StartSafe(env, d, r, s.(storeId := if m.storeId != "" then m.storeId else newId), now, io, tick, acked);
    }
  }

  lemma OpenLocatedSafe(env: Env, d: Disk, r: Reading, newId: string, now: Time, io: OpenIO, tick: int,
                        acked: map<nat, Event>)
    requires DiskSafe(d, acked) && d.entry.Some?
    ensures OutcomeSafe(env, d, acked, OpenLocated(env, d, r, newId, now, io, tick))
    ensures OpenLocated(env, d, r, newId, now, io, tick).ack.None?
  {
    var i := d.entry.value;
    var shape := Classify(d.files[i].visible);
    var expected := ExpectedStore(r, shape);
    RecoverSafe(d, expected, io.repair, tick, acked);
    var (f, recovered) := RecoverFile(d.files[i], expected, io.repair, tick);
    if ShapeAdmitted(r, shape) && recovered.Some? {
      OpenRecoveredSafe(env, WithFile(d, f), r, recovered.value, newId, now, io, tick, acked);
      var o := OpenRecovered(env, WithFile(d, f), r, recovered.value, newId, now, io, tick);
      ChainSafe(env, d, WithFile(d, f), o, acked);
    }
  }

  /** The end of opening a store that had no journal yet. */
  lemma StartSafe(env: Env, d: Disk, r: Reading, s: State, now: Time, io: OpenIO, tick: int, acked: map<nat, Event>)
    requires DiskSafe(d, acked) && d.entry.Some? && d.files[d.entry.value].visible.lines == []
    ensures OutcomeSafe(env, d, acked, Started(env, d, r, s, now, io, tick))
    ensures Started(env, d, r, s, now, io, tick).ack.None?
  {
    InitialiseSafe(env, d, r, s, now, io, tick, acked);
    var (d', ok) := Initialise(env, d, r, s, now, io, tick);
    if ok {
      HeaderAdmitSafe(env, d, d', s.storeId, now, io, acked);
    }
  }

  lemma HeaderAdmitSafe(env: Env, before: Disk, d: Disk, storeId: string, now: Time, io: OpenIO, acked: map<nat, Event>)
    requires DiskSafe(d, acked) && Later(before, d) && d.entry.Some?
    requires d.files[d.entry.value].visible == Content([] + [HeaderRecord(now, storeId)], Clean)
    ensures match Replay(d.files[d.entry.value].visible.lines, storeId)
            case None => true
            case Some(s) =>
              var o := Admit(env, d, MetadataOrBlank(ReadLock(d.lock)), s, io);
              OutcomeSafe(env, before, acked, o) && o.ack.None?
  {
    HeaderNeedsStore(now, storeId);
    assert [] + [HeaderRecord(now, storeId)] == [HeaderRecord(now, storeId)];
    match Replay(d.files[d.entry.value].visible.lines, storeId)
    case None =>
    case Some(s) =>
      AdmitSafe(env, d, MetadataOrBlank(ReadLock(d.lock)), s, storeId, io, acked);
      ChainSafe(env, before, d, Admit(env, d, MetadataOrBlank(ReadLock(d.lock)), s, io), acked);
  }

  lemma HeaderNeedsStore(now: Time, storeId: string)
    ensures Replay([HeaderRecord(now, storeId)], storeId).Some? ==> storeId != ""
  {
    var lines := [HeaderRecord(now, storeId)];
    assert lines[..|lines| - 1] == [];
  }

  lemma OpenSafe(env: Env, d: Disk, newId: string, now: Time, io: OpenIO, tick: int, acked: map<nat, Event>)
    requires DiskSafe(d, acked)
    ensures OutcomeSafe(env, d, acked, Open(env, d, newId, now, io, tick)) &&
            Open(env, d, newId, now, io, tick).ack.None?
  {
    DirectorySyncSafe(d, acked);
    var (linked, ok) := OpenLockFile(d, io.linked);
    assert SameJournal(d, linked) || SameJournal(SyncDirectory(d), linked);
    if ok {
      OpenLockedSafe(env, linked, newId, now, io, tick, acked);
      ChainSafe(env, d, linked, OpenLocked(env, linked, newId, now, io, tick), acked);
    }
  }

  lemma OpenLockedSafe(env: Env, d: Disk, newId: string, now: Time, io: OpenIO, tick: int, acked: map<nat, Event>)
    requires DiskSafe(d, acked)
    ensures OutcomeSafe(env, d, acked, OpenLocked(env, d, newId, now, io, tick))
    ensures OpenLocked(env, d, newId, now, io, tick).ack.None?
  {
    var r := ReadLock(d.lock);
    CleanupSafe(d, io.cleanup, acked);
    var (cleaned, ready) := Cleanup(d, io.cleanup);
    if ready { OpenCleanedSafe(env, d, cleaned, r, newId, now, io, tick, acked); }
  }

  lemma CleanupSafe(d: Disk, io: CleanupIO, acked: map<nat, Event>)
    requires DiskSafe(d, acked)
    ensures DiskSafe(Cleanup(d, io).0, acked) && Later(d, Cleanup(d, io).0)
  {
    DirectorySyncSafe(d, acked);
    var cleaned := Cleanup(d, io).0;
    assert SameJournal(d, cleaned) || SameJournal(SyncDirectory(d), cleaned);
  }

  lemma OpenCleanedSafe(env: Env, before: Disk, d: Disk, r: Reading, newId: string, now: Time, io: OpenIO, tick: int,
                        acked: map<nat, Event>)
    requires DiskSafe(d, acked) && Later(before, d)
    ensures OutcomeSafe(env, before, acked, OpenCleaned(env, d, r, newId, now, io, tick))
    ensures OpenCleaned(env, d, r, newId, now, io, tick).ack.None?
  {
    LocateSafe(d, r, io, tick, acked);
    var (located, ok) := Locate(d, r, io, tick);
    LaterTransitive(before, d, located);
    if ok {
      OpenLocatedSafe(env, located, r, newId, now, io, tick, acked);
      ChainSafe(env, before, located, OpenLocated(env, located, r, newId, now, io, tick), acked);
    }
  }

  // ---- crash

  lemma CrashSafe(d: Disk, d': Disk, acked: map<nat, Event>)
    requires DiskSafe(d, acked) && CrashJournal(d, d')
    ensures DiskSafe(d', acked)
  {
    if acked != map[] {
      var i := d'.entry.value;
      if i == d.entry.value {
        DirectorySyncSafe(d, acked);
      }
      var f, left := d.files[i], d'.files[i].visible.lines;
      ReplayExtends(f.durable.lines, left, f.visible.lines, "");
      ReplayIsContiguous(f.durable.lines, "");
      ReplayIsContiguous(left, "");
      HoldsContinues(acked, Replay(f.durable.lines, "").value, Replay(left, "").value);
      ContinuesReflexive(Replay(left, "").value);
    }
  }

  // ------------------------------------------------------- every run

  /** Each step keeps the invariant and every earlier acknowledgement, and never reuses a sequence number. */
  lemma StepSafe(env: Env, s: Sys, step: Step)
    requires Safe(env, s) && Enabled(s, step)
    ensures Safe(env, Next(env, s, step))
    ensures Next(env, s, step).acked == s.acked
            || exists e: Event :: e.sequence !in s.acked && Next(env, s, step).acked == s.acked[e.sequence := e]
  {
    match step {
      case OpenStep(w, newId, now, io, tick) =>
        OpenSafe(env, s.disk, newId, now, io, tick, s.acked);
        SettleSafe(env, s, w, Open(env, s.disk, newId, now, io, tick));
      case AppendStep(w, draft, now, io, tick) =>
        AppendSafe(env, s.disk, s.writers[w], draft, now, io, tick, s.acked);
        SettleSafe(env, s, w, Append(env, s.disk, s.writers[w], draft, now, io, tick));
      case CompactStep(w, now, io, tick) =>
        CompactSafe(env, s.disk, s.writers[w], now, io, tick, s.acked);
        SettleSafe(env, s, w, Compact(env, s.disk, s.writers[w], now, io, tick));
      case ListStep(w, io, tick) =>
        RefreshSafe(env, s.disk, s.writers[w], io, tick, s.acked);
        SettleSafe(env, s, w, Refresh(env, s.disk, s.writers[w], io, tick));
      case CloseStep(w) =>
      case CrashStep(left) =>
        CrashSafe(s.disk, left, s.acked);
    }
  }

  lemma SettleSafe(env: Env, s: Sys, w: nat, o: Outcome)
    requires Safe(env, s) && OutcomeSafe(env, s.disk, s.acked, o)
    ensures Safe(env, Settle(s, w, o))
    ensures Settle(s, w, o).acked == s.acked
            || exists e: Event :: e.sequence !in s.acked && Settle(s, w, o).acked == s.acked[e.sequence := e]
  {
    var s' := Settle(s, w, o);
    forall v | v in s'.writers
      ensures CacheSafe(env, s'.disk, s'.writers[v])
    {
      if v != w || o.cache.None? {
        LaterKeepsCache(env, s.disk, s'.disk, s.writers[v]);
      }
    }
  }

  lemma {:induction false} RunSafe(env: Env, s: Sys, steps: seq<Step>)
    requires Safe(env, s) && Run(env, s, steps)
    ensures Safe(env, Last(env, s, steps))
    ensures forall q :: q in s.acked ==>
              q in Last(env, s, steps).acked && Last(env, s, steps).acked[q] == s.acked[q]
    decreases |steps|
  {
    if steps != [] {
      StepSafe(env, s, steps[0]);
      RunSafe(env, Next(env, s, steps[0]), steps[1..]);
    }
  }

  /** Start from any directory whatever that is not being written to, and let any
      number of writers open, append, compact, list, fail and die, and the machine
      crash, in any order. Every event ever acknowledged is then still in the
      journal a crash at this moment would leave, and in the journal every
      process sees: unaltered, at index sequence - prunedThrough - 1, unless
      retention pruned it. */
  lemma AcknowledgedEventsSurvive(env: Env, d: Disk, steps: seq<Step>)
    requires FilesSafe(d) && Run(env, Sys(d, map[], map[]), steps)
    ensures var s := Last(env, Sys(d, map[], map[]), steps);
            s.acked != map[] ==>
              && s.disk.entry.Some? && s.disk.entry.value in s.disk.files
              && s.disk.durableEntry.Some? && s.disk.durableEntry.value in s.disk.files
              && Replay(s.disk.files[s.disk.durableEntry.value].durable.lines, "").Some?
              && Holds(s.acked, Replay(s.disk.files[s.disk.durableEntry.value].durable.lines, "").value)
              && Replay(s.disk.files[s.disk.entry.value].visible.lines, "").Some?
              && Holds(s.acked, Replay(s.disk.files[s.disk.entry.value].visible.lines, "").value)
  {
    var start := Sys(d, map[], map[]);
    RunSafe(env, start, steps);
    var s := Last(env, start, steps);
    if s.acked != map[] {
      var f := s.disk.files[s.disk.entry.value];
      DirectorySyncSafe(s.disk, s.acked);
      ReplayExtends(f.durable.lines, f.visible.lines, f.visible.lines, "");
      ReplayIsContiguous(f.durable.lines, "");
      HoldsContinues(s.acked, Replay(f.durable.lines, "").value, Replay(f.visible.lines, "").value);
    }
  }
}
