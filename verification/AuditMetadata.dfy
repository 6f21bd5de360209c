/** The two-slot lock metadata that fixes a store's watermarks (internal/audit/metadata.go).

    A 512-byte region is modelled by what it decodes to. SHA-256 is taken to be
    collision free, so a slot's digest is the revision and metadata it covers. */
module AuditMetadata {
  import opened Wrappers
  import opened AuditJournal
  import opened AuditCompaction

  datatype Policy = Policy(maxEvents: nat, retention: nat)

  datatype Metadata = Metadata(
    storeId: string, generation: U64, lastSequence: U64, prunedThrough: U64, lastRecordedAt: Option<Time>,
    retention: Option<Policy>)

  predicate ValidMetadata(m: Metadata) {
    ValidStoreId(m.storeId) && m.prunedThrough <= m.lastSequence && m.lastRecordedAt != Some(ZERO_TIME)
  }

  function PolicyOf(o: Options): Option<Policy> {
    if o.maxEvents == 0 && o.retention == 0 then None else Some(Policy(o.maxEvents, o.retention))
  }

  function MetadataOf(s: State, o: Options): Metadata {
    Metadata(s.storeId, s.generation, s.lastSequence, s.prunedThrough,
             if s.lastRecordedAt == ZERO_TIME then None else Some(s.lastRecordedAt), PolicyOf(o))
  }

  predicate Pristine(m: Metadata) {
    m.storeId != "" && m.generation == 0 && m.lastSequence == 0 && m.prunedThrough == 0 && m.lastRecordedAt.None?
  }

  /** The journal is at or past every fixed watermark. */
  predicate Covers(s: State, m: Metadata) {
    && m.storeId != "" && s.storeId == m.storeId
    && m.generation <= s.generation && m.lastSequence <= s.lastSequence && m.prunedThrough <= s.prunedThrough
    && (m.lastRecordedAt.Some? ==> m.lastRecordedAt.value <= s.lastRecordedAt)
  }

  // ------------------------------------------------------- reading

  datatype SlotSum = SumOf(revision: U64, metadata: Metadata) | Damaged

  /** One 512-byte region. `LegacyLine` is a complete one-line record followed by zero bytes only. */
  datatype Region =
    | Missing
    | Noise
    | LegacyLine(legacy: Metadata)
    | Slot(revision: U64, metadata: Metadata, sum: SlotSum)

  datatype Lock = Lock(first: Region, second: Region)

  const EMPTY_LOCK := Lock(Missing, Missing)

  datatype Reading =
    | Unset
    | Current(metadata: Metadata, revision: U64, slot: nat)
    | Legacy(metadata: Metadata)
    | TornInitial
    | Corrupt

  predicate Valid(r: Region) {
    r.Slot? && r.revision != 0 && ValidMetadata(r.metadata) && r.sum == SumOf(r.revision, r.metadata)
  }

  function SlotReading(r: Region, slot: nat): Reading
    requires Valid(r)
  {
    Current(r.metadata, r.revision, slot)
  }

  function ReadLock(l: Lock): Reading {
    if l == EMPTY_LOCK then Unset
    else if l.second.Missing? && l.first.LegacyLine? && ValidMetadata(l.first.legacy) then Legacy(l.first.legacy)
    else if Valid(l.first) && Valid(l.second) then
      if l.second.revision == l.first.revision then
        if l.second.metadata == l.first.metadata then SlotReading(l.first, 0) else Corrupt
      else if l.second.revision > l.first.revision then SlotReading(l.second, 1)
      else SlotReading(l.first, 0)
    else if Valid(l.first) then SlotReading(l.first, 0)
    else if Valid(l.second) then SlotReading(l.second, 1)
    else if l.first.LegacyLine? && ValidMetadata(l.first.legacy) then Legacy(l.first.legacy)
    else if l.second.Missing? then TornInitial
    else Corrupt
  }

  // ------------------------------------------------------- writing

  function RevisionOf(r: Reading): U64 {
    if r.Current? then r.revision else 0
  }

  function Target(r: Reading): nat {
    if r.Legacy? || (r.Current? && r.slot == 0) then 1 else 0
  }

  predicate Writable(r: Reading) {
    (r.Unset? || r.Current? || r.Legacy?) && RevisionOf(r) < MAX_UINT64
  }

  function NextSlot(r: Reading, m: Metadata): Region
    requires Writable(r)
  {
    Slot(RevisionOf(r) + 1, m, SumOf(RevisionOf(r) + 1, m))
  }

  function At(l: Lock, slot: nat): Region {
    if slot == 0 then l.first else l.second
  }

  function Put(l: Lock, slot: nat, r: Region): Lock {
    if slot == 0 then l.(first := r) else l.(second := r)
  }

  /** What a write of `after` over `before` that stopped part way may leave: any
      mixture of fields, except that no digest is completed by accident. A
      mixture over a legacy line may still look like some legacy line. */
  predicate Tear(before: Region, after: Region, r: Region) {
    || r == before || r == after || r == Noise
    || (before.LegacyLine? && r.LegacyLine?)
    || (r.Slot? && (r.sum == Damaged || (Valid(before) && r.sum == before.sum) || (after.Slot? && r.sum == after.sum)))
  }

  // ------------------------------------------------------- torn writes

  /** The latest valid slot is never the one overwritten. */
  lemma TargetSparesLatest(l: Lock)
    requires ReadLock(l).Current?
    ensures Target(ReadLock(l)) != ReadLock(l).slot
    ensures At(l, ReadLock(l).slot) ==
            Slot(ReadLock(l).revision, ReadLock(l).metadata, SumOf(ReadLock(l).revision, ReadLock(l).metadata))
  {
  }

  /** However a metadata write tears, a read returns the previous metadata or the
      new; the very first write may leave the recognisable torn initial slot.
      This includes the migration away from a legacy line. */
  lemma TornWriteReads(l: Lock, m: Metadata, r: Region)
    requires Writable(ReadLock(l)) && ValidMetadata(m)
    requires Tear(At(l, Target(ReadLock(l))), NextSlot(ReadLock(l), m), r)
    ensures var before, after := ReadLock(l), ReadLock(Put(l, Target(ReadLock(l)), r));
            || after == before
            || after == Current(m, RevisionOf(before) + 1, Target(before))
            || (before.Unset? && after.TornInitial?)
  {
  }

  /** A completed write is read back as written. */
  lemma WriteReadsBack(l: Lock, m: Metadata)
    requires Writable(ReadLock(l)) && ValidMetadata(m)
    ensures ReadLock(Put(l, Target(ReadLock(l)), NextSlot(ReadLock(l), m)))
            == Current(m, RevisionOf(ReadLock(l)) + 1, Target(ReadLock(l)))
  {
    TornWriteReads(l, m, NextSlot(ReadLock(l), m));
  }

  /** The torn initial slot is replaced by revision 1 in slot 0; that write may tear again. */
  function InitialSlot(m: Metadata): Region {
    Slot(1, m, SumOf(1, m))
  }

  lemma TornInitialReplaced(l: Lock, m: Metadata, r: Region)
    requires ReadLock(l).TornInitial? && ValidMetadata(m) && Tear(l.first, InitialSlot(m), r)
    ensures var after := ReadLock(l.(first := r));
            after.TornInitial? || after == Current(m, 1, 0)
            || (l.first.LegacyLine? && r.LegacyLine? && after.Legacy?)
  {
  }

  // ------------------------------------------------------- every history of writes

  /** One metadata write and what it left behind. */
  datatype Write = Write(metadata: Metadata, left: Region)

  predicate Distinct(l: Lock) {
    Valid(l.first) && Valid(l.second) ==> l.first.revision != l.second.revision
  }

  predicate WriteAllowed(l: Lock, w: Write) {
    && ValidMetadata(w.metadata)
    && match ReadLock(l)
       case TornInitial => Tear(l.first, InitialSlot(w.metadata), w.left)
       case Corrupt => false
       case before => Writable(before) && Tear(At(l, Target(before)), NextSlot(before, w.metadata), w.left)
  }

  function AfterWrite(l: Lock, w: Write): Lock {
    if ReadLock(l).TornInitial? then l.(first := w.left) else Put(l, Target(ReadLock(l)), w.left)
  }

  predicate History(l: Lock, writes: seq<Write>)
    decreases |writes|
  {
    writes != [] ==> WriteAllowed(l, writes[0]) && History(AfterWrite(l, writes[0]), writes[1..])
  }

  function Final(l: Lock, writes: seq<Write>): Lock
    decreases |writes|
  {
    if writes == [] then l else Final(AfterWrite(l, writes[0]), writes[1..])
  }

  /** Reachable lock files: never corrupt, distinct revisions, and a torn start is not legacy. */
  predicate Sane(l: Lock) {
    && Distinct(l) && !ReadLock(l).Corrupt?
    && (ReadLock(l).TornInitial? ==> !l.first.LegacyLine?)
  }

  lemma WriteKeepsSane(l: Lock, w: Write)
    requires Sane(l) && WriteAllowed(l, w)
    ensures Sane(AfterWrite(l, w))
    ensures RevisionOf(ReadLock(l)) <= RevisionOf(ReadLock(AfterWrite(l, w)))
  {
  }

  /** Over every history of writes, each torn in any way, starting from an empty or
      a legacy lock file: two valid slots never share a revision, the file stays
      readable, revisions never go back, and a read returns the metadata of one of
      the writes, or the legacy metadata it started from. */
  lemma {:induction false} HistoryStaysReadable(l: Lock, writes: seq<Write>)
    requires Sane(l) && History(l, writes)
    ensures Sane(Final(l, writes))
    ensures RevisionOf(ReadLock(l)) <= RevisionOf(ReadLock(Final(l, writes)))
    ensures var after := ReadLock(Final(l, writes));
            || after == ReadLock(l) || (after.TornInitial? && ReadLock(l).Unset?)
            || (after.Current? && exists i :: 0 <= i < |writes| && after.metadata == writes[i].metadata)
    decreases |writes|
  {
    if writes != [] {
      var w := writes[0];
      WriteKeepsSane(l, w);
      HistoryStaysReadable(AfterWrite(l, w), writes[1..]);
      if !ReadLock(l).TornInitial? {
        TornWriteReads(l, w.metadata, w.left);
      } else {
        TornInitialReplaced(l, w.metadata, w.left);
      }
      assert ReadLock(Final(l, writes)) == ReadLock(Final(AfterWrite(l, w), writes[1..]));
      if exists i :: 0 <= i < |writes[1..]| && ReadLock(Final(l, writes)).Current?
                     && ReadLock(Final(l, writes)).metadata == writes[1..][i].metadata {
        var i :| 0 <= i < |writes[1..]| && ReadLock(Final(l, writes)).metadata == writes[1..][i].metadata;
        assert writes[i + 1] == writes[1..][i];
      }
    }
  }

  // ------------------------------------------------------- crashes before a sync

  /** What a machine crash may leave of a region: what was synced, what was written since, or a tear. */
  predicate CrashRegion(durable: Region, visible: Region, r: Region) {
    r == durable || r == visible || (durable != visible && Tear(durable, visible, r))
  }

  predicate CrashLock(durable: Lock, visible: Lock, l: Lock) {
    CrashRegion(durable.first, visible.first, l.first) && CrashRegion(durable.second, visible.second, l.second)
  }

  /** Overwriting a slot is crash-safe exactly when the slot that stays, the one
      holding the metadata just read, is itself already synced: otherwise one
      crash may tear both slots at once. */
  lemma OverwriteCrashSafeIff(durable: Lock, visible: Lock, m: Metadata)
    requires ReadLock(visible).Current? && Writable(ReadLock(visible)) && ValidMetadata(m)
    requires var now := ReadLock(visible);
             Valid(At(durable, Target(now))) ==> At(durable, Target(now)).revision < now.revision
    ensures var now := ReadLock(visible);
            (forall l :: CrashLock(durable, Put(visible, Target(now), NextSlot(now, m)), l)
                         ==> ReadLock(l) == now || ReadLock(l) == Current(m, now.revision + 1, Target(now)))
            <==> At(durable, now.slot) == At(visible, now.slot)
  {
    var now := ReadLock(visible);
    var written := Put(visible, Target(now), NextSlot(now, m));
    if At(durable, now.slot) != At(visible, now.slot) {
      var l := Lock(Noise, Noise);
      assert CrashLock(durable, written, l);
      assert ReadLock(l).Corrupt?;
    }
  }
}
