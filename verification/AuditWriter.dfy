/** The writer as it runs: fields updated in place, loops over records, one system
    call after another (internal/audit/writer.go, internal/audit/journal.go,
    internal/audit/compaction.go). Every method is proved to do what the operation
    of the same name in AuditOps says, so what AuditSafety, AuditLive and AuditInit
    prove of the operations holds of the methods. */
module AuditWriter {
  import opened Wrappers
  import opened AuditJournal
  import opened AuditReplay
  import opened AuditCompaction
  import opened AuditMetadata
  import opened AuditDisk
  import opened AuditOps
  import opened AuditSafety
  import opened AuditAppend

  // ------------------------------------------------------- loops over records

  /** The recovery loop over the complete records of a journal. */
  method RecoverAuditLog(lines: seq<Record>, expected: string) returns (result: Option<State>)
    ensures result == Replay(lines, expected)
  {
    var scan := Start(expected);
    var i := 0;
    while i < |lines|
      invariant i <= |lines| && ScanLines(Start(expected), lines[..i]) == Some(scan)
    {
      assert lines[..i + 1][..i] == lines[..i];
      var next := ScanLine(scan, lines[i]);
      if next.None? {
        FailureStays(Start(expected), lines, i + 1);
        return None;
      }
      scan := next.value;
      i := i + 1;
    }
    assert lines[..i] == lines;
    if scan.progress.Filling? { return None; }
    ScanLinesSound(expected, lines);
    if scan.lineNumber > 0 && !scan.state.header && !scan.state.compacted { return None; }
    result := Some(scan.state);
  }

  lemma FailureStays(s: Scan, lines: seq<Record>, i: nat)
    requires i <= |lines| && ScanLines(s, lines[..i]).None?
    ensures ScanLines(s, lines).None?
  {
    ScanConcat(s, lines[..i], lines[i..]);
    assert lines == lines[..i] + lines[i..];
  }

  method StateContinues(previous: State, next: State) returns (ok: bool)
    ensures ok <==> Continues(previous, next)
  {
    if previous.storeId == "" || next.storeId != previous.storeId { return false; }
    if next.generation < previous.generation { return false; }
    if next.lastSequence < previous.lastSequence || next.prunedThrough < previous.prunedThrough { return false; }
    var i := 0;
    while i < |previous.events|
      invariant i <= |previous.events|
      invariant forall k :: 0 <= k < i && previous.events[k].event.sequence > next.prunedThrough
                            ==> Retained(previous.events[k], next)
    {
      if previous.events[i].event.sequence > next.prunedThrough && !Retained(previous.events[i], next) { return false; }
      i := i + 1;
    }
    return true;
  }

  method AuditStatesSemanticallyEqual(source: State, checkpoint: State) returns (ok: bool)
    ensures ok <==> SemanticallyEqual(source, checkpoint)
  {
    if checkpoint.storeId != source.storeId || checkpoint.generation != source.generation + 1
       || checkpoint.lastSequence != source.lastSequence || checkpoint.prunedThrough != source.prunedThrough
       || |checkpoint.events| != |source.events| {
      return false;
    }
    var i := 0;
    while i < |source.events|
      invariant i <= |source.events| && checkpoint.events[..i] == source.events[..i]
    {
      if source.events[i] != checkpoint.events[i] {
        assert checkpoint.events != source.events;
        return false;
      }
      i := i + 1;
    }
    assert checkpoint.events[..i] == checkpoint.events && source.events[..i] == source.events;
    return true;
  }

  /** Write snapshot_begin, every retained event and snapshot_end, hashing all but the last. */
  method WriteAuditCheckpoint(source: State, t: Time) returns (lines: seq<Record>)
    requires source.generation < MAX_UINT64 && |source.events| <= MAX_UINT64
    ensures lines == Checkpoint(source, t)
  {
    var boundary := Opening(source);
    lines := [BoundaryRecord(SnapshotBegin, t, boundary)];
    var hashed := lines;
    var i := 0;
    while i < |source.events|
      invariant i <= |source.events| && hashed == lines == CheckpointBody(source, t)[..i + 1]
    {
      var line := SnapshotRecord(source.events[i]);
      assert CheckpointBody(source, t)[i + 1] == line;
      lines := lines + [line];
      hashed := hashed + [line];
      i := i + 1;
    }
    assert hashed == CheckpointBody(source, t);
    lines := lines + [BoundaryRecord(SnapshotEnd, t, boundary.(digest := Sum(hashed)))];
  }

  /** The size a checkpoint would have, with a placeholder for its digest; None if it overflows. */
  method EncodedCheckpointSize(env: Env, s: State, t: Time) returns (size: Option<nat>)
    requires s.generation < MAX_UINT64 && |s.events| <= MAX_UINT64
    ensures size == if CheckpointBytes(env, s, t) > MAX_INT64 then None else Some(CheckpointBytes(env, s, t))
  {
    var boundary := Opening(s);
    var begin := BoundaryRecord(SnapshotBegin, t, boundary);
    var total := LineBytes(env, begin);
    var i := 0;
    while i < |s.events|
      invariant i <= |s.events| && total == Bytes(env, CheckpointBody(s, t)[..i + 1])
    {
      ghost var body := CheckpointBody(s, t);
      assert body[..i + 2][..i + 1] == body[..i + 1] && body[..i + 2][i + 1] == SnapshotRecord(s.events[i]);
      var line := LineBytes(env, SnapshotRecord(s.events[i]));
      if total + line > MAX_INT64 {
        BytesStrictlyGrow(env, body[..i + 2], body);
        return None;
      }
      total := total + line;
      i := i + 1;
    }
    assert CheckpointBody(s, t)[..i + 1] == CheckpointBody(s, t);
    var end := LineBytes(env, BoundaryRecord(SnapshotEnd, t, boundary.(digest := Placeholder)));
    size := if total + end > MAX_INT64 then None else Some(total + end);
  }

  /** A real digest encodes to as many bytes as the placeholder. */
  predicate DigestsHaveOneWidth(env: Env, s: State, t: Time)
    requires s.generation < MAX_UINT64 && |s.events| <= MAX_UINT64
  {
    env.bodyBytes(BoundaryRecord(SnapshotEnd, t, Opening(s).(digest := Placeholder)))
    == env.bodyBytes(BoundaryRecord(SnapshotEnd, t, Opening(s).(digest := Sum(CheckpointBody(s, t)))))
  }

  /** The estimate is then exact. */
  lemma CheckpointSizeIsExact(env: Env, s: State, t: Time)
    requires s.generation < MAX_UINT64 && |s.events| <= MAX_UINT64 && DigestsHaveOneWidth(env, s, t)
    ensures CheckpointBytes(env, s, t) == Bytes(env, Checkpoint(s, t))
  {
    var lines := Checkpoint(s, t);
    assert lines[..|lines| - 1] == CheckpointBody(s, t);
  }

  /** Exactly when an append compacts: the journal would reach its boundary, part of it is obsolete, and the
      checkpoint that would replace it is smaller by at least one byte and an eighth of the threshold, rounded
      down. It is an error when that checkpoint cannot be numbered or measured. */
  lemma CompactsIff(env: Env, c: Cache, next: State, projected: nat, t: Time)
    requires next.generation < MAX_UINT64 && |next.events| <= MAX_UINT64 ==> DigestsHaveOneWidth(env, next, t)
    ensures var worthwhile := projected >= c.boundary && next.hasObsoleteHistory;
            var fits := next.generation < MAX_UINT64 && |next.events| <= MAX_UINT64 &&
                        Bytes(env, Checkpoint(next, t)) <= MAX_INT64;
            && (ShouldCompact(env, c, next, projected, t).None? <==> worthwhile && !fits)
            && (ShouldCompact(env, c, next, projected, t) == Some(true) <==>
                  && worthwhile && fits && Bytes(env, Checkpoint(next, t)) < projected
                  && 8 * (projected - Bytes(env, Checkpoint(next, t))) + 7 >= env.options.threshold)
  {
    if next.generation < MAX_UINT64 && |next.events| <= MAX_UINT64 { CheckpointSizeIsExact(env, next, t); }
  }

  /** The boundary is the next multiple of the threshold after the journal's size, as long as that can be counted. */
  lemma BoundaryIsNextMultiple(o: Options, bytes: nat)
    requires o.threshold > 0
    ensures var next := (bytes / o.threshold + 1) * o.threshold;
            && bytes < next <= bytes + o.threshold
            && NextBoundary(o, bytes) == if next <= MAX_INT64 then next else MAX_INT64
  {
    var q, r := bytes / o.threshold, bytes % o.threshold;
    assert bytes == q * o.threshold + r;
    assert (q + 1) * o.threshold == q * o.threshold + o.threshold;
  }

  /** Recomputing the boundary after an append that stayed below it changes nothing,
      so it does not matter that the writer then skips it. */
  lemma BoundaryMovesOnlyWhenCrossed(o: Options, before: nat, after: nat)
    requires before <= after < NextBoundary(o, before)
    ensures NextBoundary(o, after) == NextBoundary(o, before)
  {
    if o.threshold > 0 {
      SameBlock(before, after, o.threshold);
    }
  }

  lemma SameBlock(a: nat, b: nat, m: nat)
    requires m > 0 && a <= b < a + m - a % m
    ensures b - b % m == a - a % m
  {
    SameQuotient(a / m, a % m, b / m, b % m, m);
  }

  lemma SameQuotient(q: int, r: int, q': int, r': int, m: int)
    requires 0 <= r < m && 0 <= r' < m
    requires q * m + r <= q' * m + r' < q * m + m
    ensures q' == q
  {
    Times(q' - q, m);
    assert (q' - q) * m == q' * m - q * m;
  }

  lemma Times(x: int, m: int)
    requires m > 0
    ensures x >= 1 ==> x * m >= m
    ensures x <= -1 ==> x * m <= -m
  {
    if x >= 1 {
      assert x * m == (x - 1) * m + m;
    } else if x <= -1 {
      assert x * m == (x + 1) * m - m;
    }
  }

  // ------------------------------------------------------- the writer

  /** The directory shared by every writer. */
  class Store {
    var disk: Disk

    constructor (disk: Disk)
      ensures this.disk == disk
    {
      this.disk := disk;
    }

    /** Recover inode `i`, truncating an unfinished tail. */
    method Recover(i: nat, expected: string, io: RepairIO, tick: int) returns (s: Option<State>)
      requires i in disk.files
      modifies this
      ensures var (f, recovered) := RecoverFile(old(disk).files[i], expected, io, tick);
              disk == old(disk).(files := old(disk).files[i := f]) && s == recovered
    {
      var f := disk.files[i];
      s := RecoverAuditLog(f.visible.lines, expected);
      assert old(disk).files[i := f] == old(disk).files;
      if s.None? { return; }
      if f.visible.tail != Clean {
        if io.TruncateFails? { return None; }
        var clean := Content(f.visible.lines, Clean);
        disk := disk.(files := disk.files[i := Inode(clean, f.durable, tick)]);
        if io.RepairSyncFails? { return None; }
        disk := disk.(files := disk.files[i := Inode(clean, clean, tick)]);
      }
      if f.visible.lines == [] && expected != "" { return None; }
    }

    /** Overwrite the slot that does not hold the latest metadata, sync, and sync the directory. */
    method WriteLockMetadata(m: Metadata, io: SlotIO) returns (ok: bool)
      modifies this
      ensures (disk, ok) == WriteMetadata(old(disk), m, io)
    {
      var now := ReadLock(disk.lock);
      if !Writable(now) || !ValidMetadata(m) { return false; }
      var target := if now.Legacy? || (now.Current? && now.slot == 0) then 1 else 0;
      var revision := RevisionOf(now) + 1;
      var slot := Slot(revision, m, SumOf(revision, m));
      if io.SlotTorn? {
        disk := disk.(lock := Put(disk.lock, target, TornSlot(At(disk.lock, target), slot, io.left)));
        return false;
      }
      disk := disk.(lock := Put(disk.lock, target, slot));
      if io.SlotNoSync? { return false; }
      disk := disk.(durableLock := disk.lock);
      if io.SlotNoDirSync? { return false; }
      disk := SyncDirectory(disk);
      return true;
    }
  }

  class Writer {
    const env: Env
    const store: Store
    var inode: nat
    var state: State
    var bytes: nat
    var modTime: int
    var nextCompactionBytes: nat
    var unavailable: bool

    constructor (env: Env, store: Store, c: Cache)
      ensures this.env == env && this.store == store && View() == Some(c)
    {
      this.env := env;
      this.store := store;
      inode, state, bytes, modTime, nextCompactionBytes := c.inode, c.state, c.bytes, c.modTime, c.boundary;
      unavailable := false;
    }

    function Held(): Cache
      reads this
    {
      Cache(inode, state, bytes, modTime, nextCompactionBytes)
    }

    function View(): Option<Cache>
      reads this
    {
      if unavailable then None else Some(Held())
    }

    method Adopt(i: nat, s: State)
      requires i in store.disk.files
      modifies this
      ensures Held() == CacheOf(env, i, s, store.disk.files[i]) && unavailable == old(unavailable)
    {
      inode, state := i, s;
      bytes, modTime := FileBytes(env, store.disk.files[i].visible), store.disk.files[i].modTime;
      ResetCompactionBoundary();
    }

    method ResetCompactionBoundary()
      modifies this`nextCompactionBytes
      ensures nextCompactionBytes == NextBoundary(env.options, bytes)
    {
      var threshold := env.options.threshold;
      if threshold == 0 {
        nextCompactionBytes := MAX_INT64;
        return;
      }
      var delta := threshold - bytes % threshold;
      nextCompactionBytes := if bytes + delta > MAX_INT64 then MAX_INT64 else bytes + delta;
    }

    /** Adopt what other writers did, or find the cache still exact. */
    method RefreshLocked(io: RepairIO, tick: int) returns (ok: bool)
      requires !unavailable
      modifies this, store
      ensures unavailable == old(unavailable)
      ensures var o := Refresh(env, old(store.disk), old(Held()), io, tick);
              store.disk == o.disk && ok == o.cache.Some? && (ok ==> o.cache == Some(Held())) && o.ack.None?
    {
      var metadata := LockedMetadata(store.disk.lock);
      if metadata.None? { return false; }
      var m := metadata.value;
      if m.storeId != state.storeId || m.retention != PolicyOf(env.options) { return false; }
      if store.disk.entry.None? || store.disk.entry.value !in store.disk.files { return false; }
      var i := store.disk.entry.value;
      if i == inode && Matches(env, Held(), store.disk.files[inode]) {
        return Covers(state, m);
      }
      var recovered := store.Recover(i, state.storeId, io, tick);
      if recovered.None? { return false; }
      var continues := StateContinues(state, recovered.value);
      if !continues { return false; }
      if i == inode {
        if recovered.value.generation != state.generation { return false; }
      } else {
        if !recovered.value.compacted || recovered.value.generation <= state.generation { return false; }
      }
      if !Covers(recovered.value, m) { return false; }
      Adopt(i, recovered.value);
      return true;
    }

    /** Install a checkpoint of `source`. */
    method CompactStateLocked(source: State, t: Time, io: CompactIO, tick: int) returns (ok: bool)
      requires !unavailable && store.disk.entry.Some?
      modifies this, store
      ensures unavailable == old(unavailable)
      ensures var o := CompactState(env, old(store.disk), old(Held()), source, t, io, tick);
              store.disk == o.disk && ok == o.cache.Some? && (ok ==> o.cache == Some(Held())) && o.ack.None?
    {
      if source.storeId == "" || source.generation == MAX_UINT64 || |source.events| > MAX_UINT64 { return false; }
      if io.CompactCancelled? && !io.synced { return true; }
      var lines := WriteAuditCheckpoint(source, t);
      var recovered := RecoverAuditLog(lines, source.storeId);
      if recovered.None? { return false; }
      var equal := AuditStatesSemanticallyEqual(source, recovered.value);
      if !equal { return false; }
      match io {
        case CompactCancelled(_) =>
          store.disk := SyncDirectory(store.disk.(temp := None));
          return true;
        case TempFails(temp, synced) =>
          store.disk := WithDirectory(store.disk.(temp := temp), synced);
          return false;
        case _ =>
      }
      store.disk := SyncDirectory(store.disk);
      var superseded, installed := store.disk.entry.value, store.disk.next;
      var whole := Content(lines, Clean);
      store.disk := store.disk.(files := store.disk.files[installed := Inode(whole, whole, tick)],
      entry := Some(installed), temp := None, next := installed + 1);
      if io.RenameNoSync? { return false; }
      store.disk := SyncDirectory(store.disk);
      var f := store.disk.files[installed];
      var none := Content([], Clean);
      store.disk := store.disk.(files := store.disk.files[superseded := Inode(none, none, tick)]);
      inode, state := installed, recovered.value;
      bytes, modTime := FileBytes(env, f.visible), f.modTime;
      ResetCompactionBoundary();
      return true;
    }

    /** Persist the watermarks and unlock. */
    method Finish(e: Option<Event>, slot: SlotIO, unlocked: bool) returns (ack: Option<Event>)
      requires !unavailable
      modifies this`unavailable, store
      ensures Outcome(store.disk, View(), ack)
           == Conclude(env, Outcome(old(store.disk), Some(Held()), None), e, slot, unlocked)
    {
      var ok := store.WriteLockMetadata(MetadataOf(state, env.options), slot);
      if !ok || !unlocked {
        unavailable := true;
        return None;
      }
      ack := e;
    }

    method ShouldCompactBeforeAppend(prospective: State, projected: nat, t: Time) returns (compact: Option<bool>)
      ensures compact == ShouldCompact(env, Held(), prospective, projected, t)
    {
      if projected < nextCompactionBytes { return Some(false); }
      if !prospective.hasObsoleteHistory { return Some(false); }
      if prospective.generation == MAX_UINT64 || |prospective.events| > MAX_UINT64 { return None; }
      var checkpointBytes := EncodedCheckpointSize(env, prospective, t);
      if checkpointBytes.None? { return None; }
      compact := Some(projected - checkpointBytes.value >= MinimumSavings(env.options));
    }

    /** Store record `r`, whose replay is `prospective`. */
    method StoreRecord(r: Record, prospective: State, t: Time, io: AppendIO, tick: int) returns (ack: Option<Event>)
      requires !unavailable && r.event.Some?
      requires store.disk.entry.Some? && store.disk.entry.value in store.disk.files
      modifies this, store
      ensures Outcome(store.disk, View(), ack)
           == AppendPrepared(env, old(store.disk), old(Held()), r, prospective, t, io, tick)
    {
      ack := None;
      var projected := bytes + LineBytes(env, r);
      if projected > MAX_INT64 { unavailable := true; return; }
      var compact := ShouldCompactBeforeAppend(prospective, projected, t);
      if compact.None? { unavailable := true; return; }
      if compact.value {
        var ok := CompactStateLocked(prospective, t, io.compact, tick);
        if !ok { unavailable := true; return; }
        if io.compact.CompactCancelled? { return; }
        ack := Finish(r.event, io.slot, io.unlocked);
        return;
      }
      var i := store.disk.entry.value;
      var stored := AppendLine(store, r, io.write, tick);
      if !stored { unavailable := true; return; }
      Adopt(i, prospective);
      ack := Finish(r.event, io.slot, io.unlocked);
    }

    /** Append one event; the result is the acknowledged event, if there is one. */
    method AppendContext(draft: Draft, now: Time, io: AppendIO, tick: int) returns (ack: Option<Event>)
      modifies this, store
      ensures old(unavailable) ==> unavailable && ack.None? && store.disk == old(store.disk)
      ensures !old(unavailable) ==>
                Outcome(store.disk, View(), ack) == Append(env, old(store.disk), old(Held()), draft, now, io, tick)
      ensures ack.Some? ==>
                var refreshed := Refresh(env, old(store.disk), old(Held()), io.repair, tick).cache;
                && refreshed.Some? && ack.value.sequence == refreshed.value.state.lastSequence + 1
                && exists t :: LaterOf(t, now, refreshed.value.state.lastRecordedAt) && Carries(draft, ack.value, t)
      ensures ack.Some? && FilesSafe(old(store.disk)) && CacheSafe(env, old(store.disk), old(Held())) ==>
                && Committed(store.disk, state) && state.events != []
                && var last := state.events[|state.events| - 1];
                && last.event == ack.value && Carries(draft, ack.value, last.recordedAt)
                && LaterOf(last.recordedAt, now,
                     Refresh(env, old(store.disk), old(Held()), io.repair, tick).cache.value.state.lastRecordedAt)
    {
      ack := None;
      if unavailable || draft.kind == "" { return; }
      var refreshed := RefreshLocked(io.repair, tick);
      if !refreshed { unavailable := true; return; }
      if io.cancelled { return; }
      if now == ZERO_TIME || state.lastSequence == MAX_UINT64 { unavailable := true; return; }
      if store.disk.entry.None? || store.disk.entry.value !in store.disk.files { unavailable := true; return; }
      var t := CommitTime(state, now);
      var persisted := Persisted(state, draft, t);
      var preview := ApplyRetentionPolicy(Push(state, persisted, t), t, env.options);
      if preview.None? { unavailable := true; return; }
      var r := EventRecord(persisted, t, preview.value.prunedThrough);
      var prospective := ApplyEvent(state, r);
      if prospective.None? { unavailable := true; return; }
      ack := StoreRecord(r, prospective.value, t, io, tick);
      if ack.Some? { AppendedIsSubmitted(env, old(store.disk), old(Held()), draft, now, io, tick); }
    }

    /** Apply retention and rewrite the live suffix as one sealed generation. */
    method CompactNow(now: Time, io: CompactionIO, tick: int)
      requires !unavailable
      modifies this, store
      ensures Outcome(store.disk, View(), None) == Compact(env, old(store.disk), old(Held()), now, io, tick)
    {
      var ok := RefreshLocked(io.repair, tick);
      if !ok || now == ZERO_TIME || store.disk.entry.None? { unavailable := true; return; }
      var t := CommitTime(state, now);
      var prospective := ApplyRetentionPolicy(state, t, env.options);
      if prospective.None? { unavailable := true; return; }
      if !prospective.value.hasObsoleteHistory && prospective.value.compacted {
        unavailable := !io.unlocked;
        return;
      }
      ok := CompactStateLocked(prospective.value, t, io.compact, tick);
      if !ok { unavailable := true; return; }
      if io.compact.CompactCancelled? { return; }
      var ack := Finish(None, io.slot, io.unlocked);
    }
  }

  /** Append record `r` to the canonical file, sync the file, sync the directory. */
  method AppendLine(store: Store, r: Record, io: WriteIO, tick: int) returns (ok: bool)
    requires store.disk.entry.Some? && store.disk.entry.value in store.disk.files
    modifies store
    ensures (store.disk, ok) == WriteRecord(old(store.disk), r, io, tick)
  {
    var i := store.disk.entry.value;
    var f := store.disk.files[i];
    if io.WriteTorn? {
      store.disk := store.disk.(files := store.disk.files[i := Inode(f.visible.(tail := io.tail), f.durable, tick)]);
      return false;
    }
    var grown := Content(f.visible.lines + [r], Clean);
    store.disk := store.disk.(files := store.disk.files[i := Inode(grown, f.durable, tick)]);
    if io.WriteNoSync? { return false; }
    store.disk := store.disk.(files := store.disk.files[i := Inode(grown, grown, tick)]);
    assert store.disk.files == old(store.disk).files[i := Inode(grown, grown, tick)];
    if io.WriteNoDirSync? { return false; }
    store.disk := SyncDirectory(store.disk);
    return true;
  }

  /** Fix the identity of a store without a journal, then write and verify its header. */
  method InitialiseStore(env: Env, store: Store, r: Reading, s: State, now: Time, io: OpenIO, tick: int)
    returns (result: Option<State>)
    requires r == ReadLock(store.disk.lock)
    requires store.disk.entry.Some? && store.disk.entry.value in store.disk.files
    modifies store
    ensures var (d, ok) := Initialise(env, old(store.disk), r, s, now, io, tick);
            && store.disk == d
            && result == if ok then Replay(d.files[old(store.disk).entry.value].visible.lines, s.storeId) else None
  {
    var i := store.disk.entry.value;
    var m := MetadataOf(s, env.options);
    if r.TornInitial? {
      if !ValidMetadata(m) { return None; }
      var slot := InitialSlot(m);
      if io.first.SlotTorn? {
        var torn := TornSlot(store.disk.lock.first, slot, io.first.left);
        store.disk := store.disk.(lock := store.disk.lock.(first := torn));
        return None;
      }
      store.disk := store.disk.(lock := store.disk.lock.(first := slot));
      if io.first.SlotNoSync? { return None; }
      store.disk := store.disk.(durableLock := store.disk.lock);
      if io.first.SlotNoDirSync? { return None; }
      store.disk := SyncDirectory(store.disk);
    } else if MetadataOrBlank(r) != m {
      var ok := store.WriteLockMetadata(m, io.first);
      if !ok { return None; }
    }
    var stored := AppendLine(store, HeaderRecord(now, s.storeId), io.header, tick);
    if !stored { return None; }
    result := RecoverAuditLog(store.disk.files[i].visible.lines, s.storeId);
  }

  /** Create the journal's entry if it is new. */
  method LocateJournal(store: Store, r: Reading, io: OpenIO, tick: int) returns (ok: bool)
    modifies store
    ensures (store.disk, ok) == Locate(old(store.disk), r, io, tick)
  {
    if store.disk.entry.Some? { return store.disk.entry.value in store.disk.files; }
    if MetadataOrBlank(r).storeId != "" || r.TornInitial? { return false; }
    var created, none := store.disk.next, Content([], Clean);
    store.disk := store.disk.(files := store.disk.files[created := Inode(none, none, tick)],
    entry := Some(created), next := created + 1);
    if !io.created { return false; }
    store.disk := SyncDirectory(store.disk);
    return true;
  }

  /** Check the journal against the watermarks and bring them up to date. */
  method AdmitJournal(env: Env, store: Store, m: Metadata, s: State, io: OpenIO) returns (w: Writer?)
    requires store.disk.entry.Some? && store.disk.entry.value in store.disk.files
    modifies store
    ensures var o := Admit(env, old(store.disk), m, s, io);
            && store.disk == o.disk && (w == null <==> o.cache.None?)
            && (w != null ==> fresh(w) && w.env == env && w.store == store && w.View() == o.cache)
  {
    if !Covers(s, m) { return null; }
    var cache := CacheOf(env, store.disk.entry.value, s, store.disk.files[store.disk.entry.value]);
    if m != MetadataOf(s, env.options) {
      var ok := store.WriteLockMetadata(MetadataOf(s, env.options), io.slot);
      if !ok { return null; }
    }
    if !io.unlocked { return null; }
    w := new Writer(env, store, cache);
  }

  /** Recover the located journal, and initialise it if it is still empty. */
  method OpenJournal(env: Env, store: Store, r: Reading, newId: string, now: Time, io: OpenIO, tick: int)
    returns (w: Writer?)
    requires r == ReadLock(store.disk.lock) && store.disk.entry.Some? && store.disk.entry.value in store.disk.files
    modifies store
    ensures var o := OpenLocated(env, old(store.disk), r, newId, now, io, tick);
            && store.disk == o.disk && (w == null <==> o.cache.None?)
            && (w != null ==> fresh(w) && w.env == env && w.store == store && w.View() == o.cache)
  {
    var i, m := store.disk.entry.value, MetadataOrBlank(r);
    var shape := Classify(store.disk.files[i].visible);
    if !ShapeAdmitted(r, shape) { return null; }
    var recovered := store.Recover(i, ExpectedStore(r, shape), io.repair, tick);
    if recovered.None? { return null; }
    var s := recovered.value;
    if store.disk.files[i].visible.lines != [] {
      if m.storeId == "" { return null; }
      w := AdmitJournal(env, store, m, s, io);
      return;
    }
    if m.storeId != "" && !(r.Current? && Pristine(m)) { return null; }
    s := s.(storeId := if m.storeId != "" then m.storeId else newId);
    recovered := InitialiseStore(env, store, r, s, now, io, tick);
    if recovered.None? { return null; }
    w := AdmitJournal(env, store, MetadataOrBlank(ReadLock(store.disk.lock)), recovered.value, io);
  }

  /** Open the store, or initialise it; null means that opening failed. */
  method OpenWithOptions(env: Env, store: Store, newId: string, now: Time, io: OpenIO, tick: int) returns (w: Writer?)
    modifies store
    ensures var o := Open(env, old(store.disk), newId, now, io, tick);
            && store.disk == o.disk && (w == null <==> o.cache.None?)
            && (w != null ==> fresh(w) && w.env == env && w.store == store && w.View() == o.cache)
  {
    if store.disk.lockEntry.NoLockFile? {
      store.disk := store.disk.(lock := EMPTY_LOCK, durableLock := EMPTY_LOCK, lockEntry := Unsynced);
      if !io.linked { return null; }
      store.disk := SyncDirectory(store.disk);
    }
    var r := ReadLock(store.disk.lock);
    var m := MetadataOrBlank(r);
    if r.Corrupt? { return null; }
    if m.retention.Some? && m.retention != PolicyOf(env.options) { return null; }
    if io.cleanup.CleanupFails? { return null; }
    var stale := store.disk.temp.Some?;
    store.disk := store.disk.(temp := None);
    if io.cleanup.RemovedNoSync? { return null; }
    if stale { store.disk := SyncDirectory(store.disk); }
    var ok := LocateJournal(store, r, io, tick);
    if !ok { return null; }
    w := OpenJournal(env, store, r, newId, now, io, tick);
  }
}
