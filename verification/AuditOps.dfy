/** The writer's operations as functions of the directory and the writer's cache
    (internal/audit/writer.go, internal/audit/compaction.go). Each runs under the
    exclusive file lock and takes the outcome of every system call as a parameter,
    so that stopping at any point is one of its arguments. */
module AuditOps {
  import opened Wrappers
  import opened AuditJournal
  import opened AuditCompaction
  import opened AuditMetadata
  import opened AuditHeader
  import opened AuditDisk

  const MAX_INT64: nat := 0x7FFF_FFFF_FFFF_FFFF

  /** A live writer: the inode it holds open, its state, and the size and time of the file it read that state from. */
  datatype Cache = Cache(inode: nat, state: State, bytes: nat, modTime: int, boundary: nat)

  /** What an operation leaves behind; no cache means the writer is unavailable from now on. */
  datatype Outcome = Outcome(disk: Disk, cache: Option<Cache>, ack: Option<Event>)

  /** The next multiple of the compaction threshold. */
  function NextBoundary(o: Options, bytes: nat): nat {
    if o.threshold == 0 then MAX_INT64
    else
      var delta := o.threshold - bytes % o.threshold;
      if bytes + delta > MAX_INT64 then MAX_INT64 else bytes + delta
  }

  function CacheOf(env: Env, inode: nat, s: State, f: Inode): Cache {
    Cache(inode, s, FileBytes(env, f.visible), f.modTime, NextBoundary(env.options, FileBytes(env, f.visible)))
  }

  function LockedMetadata(l: Lock): Option<Metadata> {
    match ReadLock(l)
    case Current(m, _, _) => Some(m)
    case Legacy(m) => Some(m)
    case _ => None
  }

  predicate Matches(env: Env, c: Cache, f: Inode) {
    c.bytes == FileBytes(env, f.visible) && c.modTime == f.modTime
  }

  // ------------------------------------------------------- refresh

  /** Adopt the state recovered from inode `i`, if it is a lawful successor. */
  function Adopt(env: Env, d: Disk, c: Cache, m: Metadata, i: nat, io: RepairIO, tick: int): Outcome
    requires i in d.files
  {
    var (f, recovered) := RecoverFile(d.files[i], c.state.storeId, io, tick);
    var d' := d.(files := d.files[i := f]);
    match recovered
    case None => Outcome(d', None, None)
    case Some(s) =>
      var lawful := if i == c.inode then s.generation == c.state.generation && Continues(c.state, s)
                    else Advances(c.state, s);
      if lawful && Covers(s, m) then Outcome(d', Some(CacheOf(env, i, s, f)), None) else Outcome(d', None, None)
  }

  function Refresh(env: Env, d: Disk, c: Cache, io: RepairIO, tick: int): Outcome {
    match LockedMetadata(d.lock)
    case None => Outcome(d, None, None)
    case Some(m) =>
      if m.storeId != c.state.storeId || m.retention != PolicyOf(env.options) then Outcome(d, None, None)
      else if d.entry.None? || d.entry.value !in d.files then Outcome(d, None, None)
      else if d.entry.value == c.inode && Matches(env, c, d.files[c.inode]) then
        if Covers(c.state, m) then Outcome(d, Some(c), None) else Outcome(d, None, None)
      else Adopt(env, d, c, m, d.entry.value, io, tick)
  }

  // ------------------------------------------------------- compaction

  function CheckpointBytes(env: Env, s: State, t: Time): nat
    requires s.generation < MAX_UINT64 && |s.events| <= MAX_UINT64
  {
    Bytes(env, CheckpointBody(s, t))
    + LineBytes(env, BoundaryRecord(SnapshotEnd, t, Opening(s).(digest := Placeholder)))
  }

  function MinimumSavings(o: Options): nat {
    if o.threshold / 8 < 1 then 1 else o.threshold / 8
  }

  /** None is an error: no further generation is left, or the checkpoint's size overflows. */
  function ShouldCompact(env: Env, c: Cache, prospective: State, projected: nat, t: Time): Option<bool> {
    if projected < c.boundary || !prospective.hasObsoleteHistory then Some(false)
    else if prospective.generation == MAX_UINT64 || |prospective.events| > MAX_UINT64 then None
    else if CheckpointBytes(env, prospective, t) > MAX_INT64 then None
    else Some(projected - CheckpointBytes(env, prospective, t) >= MinimumSavings(env.options))
  }

  /** Where a compaction stopped. `synced` tells whether the directory was synced
      on the way; the rename itself only follows a successful directory sync. A
      cancellation is noticed before anything is done, or later, and then the
      temporary file is removed and the directory synced. */
  datatype CompactIO =
    | CompactCancelled(synced: bool)
    | TempFails(temp: Option<Content>, synced: bool)
    | RenameNoSync
    | CompactDone

  function WithDirectory(d: Disk, synced: bool): Disk {
    if synced then SyncDirectory(d) else d
  }

  /** Write the checkpoint of `source` beside the journal, check it by recovering it, and rename it into place. */
  function CompactState(env: Env, d: Disk, c: Cache, source: State, t: Time, io: CompactIO, tick: int): Outcome
    requires d.entry.Some?
  {
    if source.storeId == "" || source.generation == MAX_UINT64 || |source.events| > MAX_UINT64 then
      Outcome(d, None, None)
    else if io.CompactCancelled? && !io.synced then Outcome(d, Some(c), None)
    else
      var whole := Content(Checkpoint(source, t), Clean);
      match Replay(whole.lines, source.storeId)
      case None => Outcome(d, None, None)
      case Some(s) =>
        if !SemanticallyEqual(source, s) then Outcome(d, None, None)
        else
          var f := Inode(whole, whole, tick);
          var renamed := SyncDirectory(d).(files := d.files[d.next := f], entry := Some(d.next), temp := None,
          next := d.next + 1);
          match io
          case CompactCancelled(_) => Outcome(SyncDirectory(d.(temp := None)), Some(c), None)
          case TempFails(temp, synced) => Outcome(WithDirectory(d.(temp := temp), synced), None, None)
          case RenameNoSync => Outcome(renamed, None, None)
          case CompactDone =>
            var emptied := renamed.files[d.entry.value := Inode(Content([], Clean), Content([], Clean), tick)];
            Outcome(SyncDirectory(renamed.(files := emptied)), Some(CacheOf(env, d.next, s, f)), None)
  }

  /** Persist the watermarks, unlock, acknowledge. */
  function Conclude(env: Env, o: Outcome, e: Option<Event>, slot: SlotIO, unlocked: bool): Outcome
    requires o.cache.Some?
  {
    var (d, ok) := WriteMetadata(o.disk, MetadataOf(o.cache.value.state, env.options), slot);
    if ok && unlocked then Outcome(d, o.cache, e) else Outcome(d, None, None)
  }

  datatype CompactionIO = CompactionIO(repair: RepairIO, compact: CompactIO, slot: SlotIO, unlocked: bool)

  function CompactFrom(env: Env, d: Disk, c: Cache, now: Time, io: CompactionIO, tick: int): Outcome
    requires d.entry.Some?
  {
    var t := CommitTime(c.state, now);
    match ApplyRetention(c.state, t, env.options)
    case None => Outcome(d, None, None)
    case Some(prospective) =>
      if !prospective.hasObsoleteHistory && prospective.compacted then
        Outcome(d, if io.unlocked then Some(c) else None, None)
      else
        var done := CompactState(env, d, c, prospective, t, io.compact, tick);
        if done.cache.None? || io.compact.CompactCancelled? then done
        else Conclude(env, done, None, io.slot, io.unlocked)
  }

  function Compact(env: Env, d: Disk, c: Cache, now: Time, io: CompactionIO, tick: int): Outcome {
    var r := Refresh(env, d, c, io.repair, tick);
    if r.cache.None? || now == ZERO_TIME || r.disk.entry.None? then r.(cache := None)
    else CompactFrom(env, r.disk, r.cache.value, now, io, tick)
  }

  // ------------------------------------------------------- append

  datatype AppendIO = AppendIO(
    repair: RepairIO, cancelled: bool, compact: CompactIO, write: WriteIO, slot: SlotIO, unlocked: bool)

  /** Append record `r`, which leads to state `prospective`, to the canonical file. */
  function AppendRecord(env: Env, d: Disk, c: Cache, r: Record, prospective: State, io: AppendIO, tick: int): Outcome
    requires d.entry.Some? && d.entry.value in d.files && r.event.Some?
  {
    var (written, ok) := WriteRecord(d, r, io.write, tick);
    if !ok then Outcome(written, None, None)
    else
      var f := written.files[d.entry.value];
      var stored := Outcome(written, Some(CacheOf(env, d.entry.value, prospective, f)), None);
      Conclude(env, stored, r.event, io.slot, io.unlocked)
  }

  /** Store record `r`, by compaction if the journal has outgrown its boundary. */
  function AppendPrepared(env: Env, d: Disk, c: Cache, r: Record, prospective: State, t: Time, io: AppendIO,
                          tick: int): Outcome
    requires d.entry.Some? && d.entry.value in d.files && r.event.Some?
  {
    var projected := c.bytes + LineBytes(env, r);
    if projected > MAX_INT64 then Outcome(d, None, None)
    else
      match ShouldCompact(env, c, prospective, projected, t)
      case None => Outcome(d, None, None)
      case Some(true) =>
        var done := CompactState(env, d, c, prospective, t, io.compact, tick);
        if done.cache.None? || io.compact.CompactCancelled? then done
        else Conclude(env, done, r.event, io.slot, io.unlocked)
      case Some(false) => AppendRecord(env, d, c, r, prospective, io, tick)
  }

  function AppendTo(env: Env, d: Disk, c: Cache, draft: Draft, now: Time, io: AppendIO, tick: int): Outcome
    requires d.entry.Some? && d.entry.value in d.files && c.state.lastSequence < MAX_UINT64
  {
    var t := CommitTime(c.state, now);
    match Preview(c.state, draft, t, env.options)
    case None => Outcome(d, None, None)
    case Some(preview) =>
      var r := EventRecord(Persisted(c.state, draft, t), t, preview.prunedThrough);
      match ApplyEvent(c.state, r)
      case None => Outcome(d, None, None)
      case Some(prospective) => AppendPrepared(env, d, c, r, prospective, t, io, tick)
  }

  function Append(env: Env, d: Disk, c: Cache, draft: Draft, now: Time, io: AppendIO, tick: int): Outcome {
    if draft.kind == "" then Outcome(d, Some(c), None)
    else
      var r := Refresh(env, d, c, io.repair, tick);
      if r.cache.None? || io.cancelled then r
      else if now == ZERO_TIME || r.cache.value.state.lastSequence == MAX_UINT64 then r.(cache := None)
      else if r.disk.entry.None? || r.disk.entry.value !in r.disk.files then r.(cache := None)
      else AppendTo(env, r.disk, r.cache.value, draft, now, io, tick)
  }

  // ------------------------------------------------------- open

  /** Removing a stale compaction file, if there is one, and syncing the directory after that. */
  datatype CleanupIO = CleanupFails | RemovedNoSync | CleanupDone

  function Cleanup(d: Disk, io: CleanupIO): (Disk, bool) {
    match io
    case CleanupFails => (d, false)
    case RemovedNoSync => (d.(temp := None), false)
    case CleanupDone => (WithDirectory(d.(temp := None), d.temp.Some?), true)
  }

  datatype OpenIO = OpenIO(
    linked: bool, cleanup: CleanupIO, created: bool, repair: RepairIO, first: SlotIO, header: WriteIO, slot: SlotIO,
    unlocked: bool)

  /** Create the lock file and sync the directory, if there is none yet. This precedes taking the lock. */
  function OpenLockFile(d: Disk, synced: bool): (Disk, bool) {
    if !d.lockEntry.NoLockFile? then (d, true)
    else
      var created := d.(lock := EMPTY_LOCK, durableLock := EMPTY_LOCK, lockEntry := Unsynced);
      (WithDirectory(created, synced), synced)
  }

  datatype Shape = Empty | Partial(text: string) | Envelope | Unreadable

  function Classify(c: Content): Shape {
    if c.lines != [] then if c.lines[0].kind == Unknown then Unreadable else Envelope
    else
      match c.tail
      case Clean => Empty
      case TornFirst(text) => if text == "" then Empty else Partial(text)
      case TornRecord(_) => Unreadable
  }

  function MetadataOrBlank(r: Reading): Metadata {
    if r.Current? || r.Legacy? then r.metadata else Metadata("", 0, 0, 0, None, None)
  }

  /** Whether a journal of this shape may belong to this lock file. */
  predicate ShapeAdmitted(r: Reading, shape: Shape) {
    var m := MetadataOrBlank(r);
    if r.TornInitial? then shape.Empty?
    else if m.storeId == "" then shape.Empty? || (shape.Partial? && IdentifiableLegacyPrefix(shape.text))
    else if r.Current? && Pristine(m) then
      shape.Empty? || shape.Envelope? || (shape.Partial? && PossibleHeaderPrefix(shape.text, m.storeId))
    else shape.Empty? || shape.Envelope?
  }

  /** Create the journal's entry if it is new. */
  function Locate(d: Disk, r: Reading, io: OpenIO, tick: int): (Disk, bool) {
    if d.entry.Some? then (d, d.entry.value in d.files)
    else if MetadataOrBlank(r).storeId != "" || r.TornInitial? then (d, false)
    else
      var none := Content([], Clean);
      var created := d.(files := d.files[d.next := Inode(none, none, tick)], entry := Some(d.next), next := d.next + 1);
      if io.created then (SyncDirectory(created), true) else (created, false)
  }

  function HeaderRecord(t: Time, storeId: string): Record {
    Record(Header, t, storeId, None, 0, None)
  }

  /** Fix the store's identity in the lock file, then write the header. */
  function Initialise(env: Env, d: Disk, r: Reading, s: State, now: Time, io: OpenIO, tick: int): (Disk, bool)
    requires d.entry.Some? && d.entry.value in d.files
  {
    var m := MetadataOf(s, env.options);
    var (fixed, ok) :=
      if r.TornInitial? then if ValidMetadata(m) then WriteSlot(d, 0, InitialSlot(m), io.first) else (d, false)
      else if MetadataOrBlank(r) == m then (d, true)
      else WriteMetadata(d, m, io.first);
    if !ok then (fixed, false) else WriteRecord(fixed, HeaderRecord(now, s.storeId), io.header, tick)
  }

  /** The final checks: the journal covers the watermarks, which are then brought up to date. */
  function Admit(env: Env, d: Disk, m: Metadata, s: State, io: OpenIO): Outcome
    requires d.entry.Some? && d.entry.value in d.files
  {
    var cache := CacheOf(env, d.entry.value, s, d.files[d.entry.value]);
    if !Covers(s, m) then Outcome(d, None, None)
    else
      var (d', ok) := if m == MetadataOf(s, env.options) then (d, true)
                      else WriteMetadata(d, MetadataOf(s, env.options), io.slot);
      if ok && io.unlocked then Outcome(d', Some(cache), None) else Outcome(d', None, None)
  }

  /** Initialise the empty store `s`, and verify the header just written. */
  function Started(env: Env, d: Disk, r: Reading, s: State, now: Time, io: OpenIO, tick: int): Outcome
    requires d.entry.Some? && d.entry.value in d.files
  {
    var (d', ok) := Initialise(env, d, r, s, now, io, tick);
    if !ok then Outcome(d', None, None)
    else
      match Replay(d'.files[d.entry.value].visible.lines, s.storeId)
      case None => Outcome(d', None, None)
      case Some(s') => Admit(env, d', MetadataOrBlank(ReadLock(d'.lock)), s', io)
  }

  /** Continue from the recovered journal, which is empty or replays to `s`. */
  function OpenRecovered(env: Env, d: Disk, r: Reading, s: State, newId: string, now: Time, io: OpenIO,
                         tick: int): Outcome
    requires d.entry.Some? && d.entry.value in d.files
  {
    var m := MetadataOrBlank(r);
    if d.files[d.entry.value].visible.lines != [] then
      if m.storeId == "" then Outcome(d, None, None) else Admit(env, d, m, s, io)
    else if m.storeId != "" && !(r.Current? && Pristine(m)) then Outcome(d, None, None)
    else Started(env, d, r, s.(storeId := if m.storeId != "" then m.storeId else newId), now, io, tick)
  }

  /** In the initialisation window the pristine lock file, not the journal, names the store. */
  function ExpectedStore(r: Reading, shape: Shape): string {
    if r.Current? && Pristine(r.metadata) && !shape.Envelope? then "" else MetadataOrBlank(r).storeId
  }

  function OpenLocated(env: Env, d: Disk, r: Reading, newId: string, now: Time, io: OpenIO, tick: int): Outcome
    requires d.entry.Some? && d.entry.value in d.files
  {
    var i := d.entry.value;
    var shape := Classify(d.files[i].visible);
    if !ShapeAdmitted(r, shape) then Outcome(d, None, None)
    else
      var (f, recovered) := RecoverFile(d.files[i], ExpectedStore(r, shape), io.repair, tick);
      var d' := d.(files := d.files[i := f]);
      match recovered
      case None => Outcome(d', None, None)
      case Some(s) => OpenRecovered(env, d', r, s, newId, now, io, tick)
  }

  function OpenCleaned(env: Env, d: Disk, r: Reading, newId: string, now: Time, io: OpenIO, tick: int): Outcome {
    var (located, ok) := Locate(d, r, io, tick);
    if !ok then Outcome(located, None, None) else OpenLocated(env, located, r, newId, now, io, tick)
  }

  /** Open, once the lock file is held. */
  function OpenLocked(env: Env, d: Disk, newId: string, now: Time, io: OpenIO, tick: int): Outcome {
    var r := ReadLock(d.lock);
    if r.Corrupt? then Outcome(d, None, None)
    else if MetadataOrBlank(r).retention.Some? && MetadataOrBlank(r).retention != PolicyOf(env.options) then
      Outcome(d, None, None)
    else
      var (cleaned, ready) := Cleanup(d, io.cleanup);
      if !ready then Outcome(cleaned, None, None) else OpenCleaned(env, cleaned, r, newId, now, io, tick)
  }

  /** `newId` is the random identity a new store would get. */
  function Open(env: Env, d: Disk, newId: string, now: Time, io: OpenIO, tick: int): Outcome {
    var (linked, ok) := OpenLockFile(d, io.linked);
    if ok then OpenLocked(env, linked, newId, now, io, tick) else Outcome(linked, None, None)
  }
}
