/** The directory holding an audit store: what every process sees, and what a
    machine crash would leave (internal/audit/writer.go, internal/audit/compaction.go).

    A file sync makes a file durable, a directory sync makes its entry durable,
    a rename is atomic, and an interrupted write lands as a prefix. */
module AuditDisk {
  import opened Wrappers
  import opened AuditJournal
  import opened AuditCompaction
  import opened AuditMetadata
  import opened AuditHeader

  /** Residue of an unfinished final record. `TornFirst` keeps the text when there is no complete record. */
  datatype Tail = Clean | TornFirst(text: string) | TornRecord(more: nat)

  datatype Content = Content(lines: seq<Record>, tail: Tail)

  datatype Inode = Inode(visible: Content, durable: Content, modTime: int)

  /** The lock file's own directory entry. */
  datatype LockEntry = NoLockFile | Unsynced | Linked

  /** `entry` is the inode named audit.jsonl; `temp` the compaction file, if there is one. */
  datatype Disk = Disk(
    files: map<nat, Inode>, entry: Option<nat>, durableEntry: Option<nat>, temp: Option<Content>,
    lock: Lock, durableLock: Lock, lockEntry: LockEntry, next: nat)

  /** The shared policy, and the length of each encoded record without its newline. */
  datatype Env = Env(options: Options, bodyBytes: Record -> nat)

  function LineBytes(env: Env, r: Record): nat {
    env.bodyBytes(r) + 1
  }

  function Bytes(env: Env, lines: seq<Record>): nat {
    if lines == [] then 0 else Bytes(env, lines[..|lines| - 1]) + LineBytes(env, lines[|lines| - 1])
  }

  function TailBytes(t: Tail): nat {
    match t
    case Clean => 0
    case TornFirst(text) => |text|
    case TornRecord(more) => more + 1
  }

  function FileBytes(env: Env, c: Content): nat {
    Bytes(env, c.lines) + TailBytes(c.tail)
  }

  lemma {:induction false} BytesStrictlyGrow(env: Env, shorter: seq<Record>, longer: seq<Record>)
    requires shorter <= longer
    ensures Bytes(env, shorter) <= Bytes(env, longer)
    ensures Bytes(env, shorter) == Bytes(env, longer) ==> shorter == longer
    decreases |longer|
  {
    if |shorter| == |longer| {
      assert shorter == longer;
    } else {
      BytesStrictlyGrow(env, shorter, longer[..|longer| - 1]);
    }
  }

  // ------------------------------------------------------- file primitives

  /** Syncing the directory makes every entry in it durable. */
  function SyncDirectory(d: Disk): Disk {
    d.(durableEntry := d.entry, lockEntry := if d.lockEntry.Unsynced? then Linked else d.lockEntry)
  }

  datatype RepairIO = TruncateFails | RepairSyncFails | RepairDone

  /** Truncate an unfinished tail and sync the file; nothing happens to a clean one. */
  function Repair(f: Inode, io: RepairIO, tick: int): (Inode, bool) {
    if f.visible.tail == Clean then (f, true)
    else
      var clean := Content(f.visible.lines, Clean);
      match io
      case TruncateFails => (f, false)
      case RepairSyncFails => (Inode(clean, f.durable, tick), false)
      case RepairDone => (Inode(clean, clean, tick), true)
  }

  /** Recovery of an open file: replay its complete records, then repair the tail. */
  function RecoverFile(f: Inode, expected: string, io: RepairIO, tick: int): (Inode, Option<State>) {
    match Replay(f.visible.lines, expected)
    case None => (f, None)
    case Some(s) =>
      var (repaired, ok) := Repair(f, io, tick);
      if !ok || (f.visible.lines == [] && expected != "") then (repaired, None) else (repaired, Some(s))
  }

  datatype WriteIO = WriteTorn(tail: Tail) | WriteNoSync | WriteNoDirSync | WriteDone

  /** The residue an interrupted write of `r` may leave. */
  ghost predicate TearOf(r: Record, tail: Tail) {
    match tail
    case Clean => true
    case TornFirst(text) => r.kind == Header && TornHeader(text, r.storeId)
    case TornRecord(_) => r.kind != Header
  }

  /** Append one record to the canonical file and sync the file and the directory. */
  function WriteRecord(d: Disk, r: Record, io: WriteIO, tick: int): (Disk, bool)
    requires d.entry.Some? && d.entry.value in d.files
  {
    var i := d.entry.value;
    var f := d.files[i];
    var grown := Content(f.visible.lines + [r], Clean);
    match io
    case WriteTorn(tail) => (d.(files := d.files[i := Inode(f.visible.(tail := tail), f.durable, tick)]), false)
    case WriteNoSync => (d.(files := d.files[i := Inode(grown, f.durable, tick)]), false)
    case WriteNoDirSync => (d.(files := d.files[i := Inode(grown, grown, tick)]), false)
    case WriteDone => (SyncDirectory(d.(files := d.files[i := Inode(grown, grown, tick)])), true)
  }

  datatype SlotIO = SlotTorn(left: Region) | SlotNoSync | SlotNoDirSync | SlotDone

  /** What an interrupted slot write leaves: `left` if a tear can leave that, else noise. */
  function TornSlot(before: Region, after: Region, left: Region): (r: Region)
    ensures Tear(before, after, r)
  {
    if Tear(before, after, left) then left else Noise
  }

  /** Write one metadata slot, sync the lock file, then the directory. */
  function WriteSlot(d: Disk, slot: nat, r: Region, io: SlotIO): (Disk, bool) {
    var written := Put(d.lock, slot, r);
    match io
    case SlotTorn(left) => (d.(lock := Put(d.lock, slot, TornSlot(At(d.lock, slot), r, left))), false)
    case SlotNoSync => (d.(lock := written), false)
    case SlotNoDirSync => (d.(lock := written, durableLock := written), false)
    case SlotDone => (SyncDirectory(d.(lock := written, durableLock := written)), true)
  }

  function WriteMetadata(d: Disk, m: Metadata, io: SlotIO): (Disk, bool) {
    var now := ReadLock(d.lock);
    if !Writable(now) || !ValidMetadata(m) then (d, false)
    else WriteSlot(d, Target(now), NextSlot(now, m), io)
  }

  // ------------------------------------------------------- machine crashes

  /** What is left of an unfinished record when its last bytes are lost. */
  predicate ShorterTail(t: Tail, whole: Tail) {
    match t
    case Clean => true
    case TornFirst(text) => whole.TornFirst? && text != "" && text <= whole.text
    case TornRecord(more) => whole.TornRecord? && more <= whole.more
  }

  /** What a crash may leave of a file: at least what was synced, at most what was
      written, and any residue of what comes next there. */
  ghost predicate CrashContent(f: Inode, c: Content) {
    && f.durable.lines <= c.lines <= f.visible.lines
    && (|| (c.lines == f.visible.lines && ShorterTail(c.tail, f.visible.tail))
        || (c.lines == f.durable.lines && ShorterTail(c.tail, f.durable.tail))
        || (|c.lines| < |f.visible.lines| && TearOf(f.visible.lines[|c.lines|], c.tail)))
  }

  /** What a crash may leave of the directory, apart from the lock file. */
  ghost predicate CrashJournal(d: Disk, d': Disk) {
    && d'.entry == d'.durableEntry && (d'.entry == d.entry || d'.entry == d.durableEntry)
    && d'.next == d.next
    && match d'.entry
       case None => d'.files == map[]
       case Some(i) =>
         && i in d.files && d'.files.Keys == {i}
         && d'.files[i].durable == d'.files[i].visible && CrashContent(d.files[i], d'.files[i].visible)
  }

  /** What a crash may leave of the lock file: nothing, as long as its entry is not durable. */
  predicate CrashLockFile(d: Disk, d': Disk) {
    && d'.durableLock == d'.lock
    && match d'.lockEntry
       case NoLockFile => !d.lockEntry.Linked? && d'.lock == EMPTY_LOCK
       case Unsynced => false
       case Linked => !d.lockEntry.NoLockFile? && CrashLock(d.durableLock, d.lock, d'.lock)
  }

  ghost predicate Crash(d: Disk, d': Disk) {
    CrashJournal(d, d') && CrashLockFile(d, d')
  }

  /** Every complete record and the journal's entry are durable. */
  predicate JournalSettled(d: Disk) {
    d.entry == d.durableEntry
    && (d.entry.Some? && d.entry.value in d.files ==>
          d.files[d.entry.value].visible.lines == d.files[d.entry.value].durable.lines)
  }

  predicate Settled(d: Disk) {
    JournalSettled(d) && d.lock == d.durableLock && !d.lockEntry.Unsynced?
  }
}
