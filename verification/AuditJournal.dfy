/** The audit journal's records, its replay and its sealed checkpoints
    (internal/audit/journal.go, internal/audit/compaction.go).

    A journal is a sequence of decoded records. The JSON encoder is taken to be
    injective, so a line is its record; SHA-256 is taken to be collision free,
    so a digest is the sequence of records it was computed over. */
module AuditJournal {
  import opened Wrappers

  const MAX_UINT64: nat := 0xFFFF_FFFF_FFFF_FFFF

  type U64 = n: nat | n <= MAX_UINT64

  /** Nanoseconds; zero is Go's zero time. */
  type Time = int

  const ZERO_TIME: Time := 0

  /** `rest` is the JSON text of the remaining fields. */
  datatype Event = Event(sequence: U64, timestamp: Time, kind: string, rest: string)

  /** `Unknown` is any other kind, and a line that does not decode. */
  datatype Kind = Header | Appended | Prune | SnapshotBegin | SnapshotEvent | SnapshotEnd | Unknown

  datatype Digest = NoDigest | Placeholder | Sum(hashed: seq<Record>)

  datatype Boundary = Boundary(
    storeId: string, generation: U64, lastSequence: U64, prunedThrough: U64, eventCount: U64, digest: Digest)

  datatype Record = Record(
    kind: Kind, recordedAt: Time, storeId: string, event: Option<Event>, prunedThrough: U64,
    checkpoint: Option<Boundary>)

  datatype Stored = Stored(event: Event, recordedAt: Time)

  datatype State = State(
    storeId: string, generation: U64, header: bool, compacted: bool, lastSequence: U64, prunedThrough: U64,
    lastRecordedAt: Time, events: seq<Stored>, hasObsoleteHistory: bool)

  function Fresh(storeId: string): State {
    State(storeId, 0, false, false, 0, 0, ZERO_TIME, [], false)
  }

  predicate HexDigit(c: char) {
    '0' <= c <= '9' || 'a' <= c <= 'f' || 'A' <= c <= 'F'
  }

  predicate ValidStoreId(id: string) {
    |id| == 32 && forall i :: 0 <= i < |id| ==> HexDigit(id[i])
  }

  predicate ValidEvent(e: Event) {
    e.sequence != 0 && e.timestamp != ZERO_TIME && e.kind != ""
  }

  // ---------------------------------------------------------------- records

  function ApplyHeader(s: State, r: Record): Option<State> {
    if r.storeId == "" || r.event.Some? || r.checkpoint.Some? then None
    else if r.prunedThrough != 0 || r.recordedAt == ZERO_TIME then None
    else if !ValidStoreId(r.storeId) then None
    else if s.storeId != "" && s.storeId != r.storeId then None
    else Some(s.(storeId := r.storeId, header := true))
  }

  /** 64-bit addition and subtraction wrap around. */
  function Next64(n: U64): U64 {
    if n == MAX_UINT64 then 0 else n + 1
  }

  function Minus64(a: U64, b: U64): U64 {
    if b <= a then a - b else a + MAX_UINT64 + 1 - b
  }

  function AdvancePrune(s: State, through: U64): Option<State> {
    if through == s.prunedThrough then Some(s)
    else
      var drop := Minus64(through, s.prunedThrough);
      if drop > |s.events| then None
      else Some(s.(events := s.events[drop..], prunedThrough := through, hasObsoleteHistory := true))
  }

  predicate TimeMovesBackward(s: State, r: Record) {
    s.lastRecordedAt != ZERO_TIME && r.recordedAt < s.lastRecordedAt
  }

  function ApplyEvent(s: State, r: Record): Option<State> {
    if r.storeId != "" || r.event.None? || r.checkpoint.Some? then None
    else if r.recordedAt == ZERO_TIME || TimeMovesBackward(s, r) then None
    else if !ValidEvent(r.event.value) || r.event.value.sequence != Next64(s.lastSequence) then None
    else if r.prunedThrough < s.prunedThrough || r.prunedThrough >= r.event.value.sequence then None
    else AdvancePrune(
           s.(events := s.events + [Stored(r.event.value, r.recordedAt)],
              lastSequence := r.event.value.sequence,
              lastRecordedAt := r.recordedAt),
           r.prunedThrough)
  }

  function ApplyPrune(s: State, r: Record): Option<State> {
    if r.storeId != "" || r.event.Some? || r.checkpoint.Some? then None
    else if r.recordedAt == ZERO_TIME || TimeMovesBackward(s, r) then None
    else if r.prunedThrough <= s.prunedThrough || r.prunedThrough > s.lastSequence then None
    else AdvancePrune(s.(lastRecordedAt := r.recordedAt), r.prunedThrough)
  }

  // ------------------------------------------------------------ checkpoints

  /** Progress through a leading checkpoint. */
  datatype Progress =
    | Absent
    | Filling(boundary: Boundary, recordedAt: Time, hashed: seq<Record>, seen: U64)
    | Sealed

  predicate BoundaryFields(r: Record) {
    r.storeId == "" && r.checkpoint.Some? && r.event.None? && r.prunedThrough == 0 && r.recordedAt != ZERO_TIME
  }

  predicate BeginAccepted(s: State, r: Record) {
    && BoundaryFields(r)
    && var b := r.checkpoint.value;
    && b.storeId != "" && b.generation != 0 && b.prunedThrough <= b.lastSequence
    && b.eventCount == b.lastSequence - b.prunedThrough
    && b.digest == NoDigest
    && (s.storeId != "" ==> s.storeId == b.storeId)
  }

  function BeginState(s: State, r: Record): State
    requires r.checkpoint.Some?
  {
    var b := r.checkpoint.value;
    s.(storeId := b.storeId, generation := b.generation, compacted := true, prunedThrough := b.prunedThrough,
    lastRecordedAt := r.recordedAt)
  }

  predicate SnapshotEventAccepted(p: Progress, s: State, r: Record)
    requires p.Filling?
  {
    && p.seen < p.boundary.eventCount
    && r.storeId == "" && r.event.Some? && r.checkpoint.None? && r.prunedThrough == 0 && r.recordedAt != ZERO_TIME
    && ValidEvent(r.event.value)
    && r.event.value.sequence == p.boundary.prunedThrough + p.seen + 1
    && (p.seen != 0 && s.events != [] ==> s.events[|s.events| - 1].recordedAt <= r.recordedAt)
  }

  predicate SnapshotEndAccepted(p: Progress, r: Record)
    requires p.Filling?
  {
    && BoundaryFields(r)
    && r.recordedAt == p.recordedAt
    && p.seen == p.boundary.eventCount
    && r.checkpoint.value == p.boundary.(digest := Sum(p.hashed))
  }

  // ----------------------------------------------------------------- replay

  datatype Scan = Scan(state: State, lineNumber: nat, progress: Progress)

  function ScanCheckpoint(s: Scan, r: Record): Option<Scan>
    requires s.progress.Filling?
  {
    var p := s.progress;
    match r.kind
    case SnapshotEvent =>
      if !SnapshotEventAccepted(p, s.state, r) then None
      else Some(Scan(s.state.(events := s.state.events + [Stored(r.event.value, r.recordedAt)]), s.lineNumber + 1,
                     p.(seen := p.seen + 1, hashed := p.hashed + [r])))
    case SnapshotEnd =>
      if !SnapshotEndAccepted(p, r) then None
      else Some(Scan(s.state.(lastSequence := p.boundary.lastSequence), s.lineNumber + 1, Sealed))
    case _ => None
  }

  /** One turn of the recovery loop. */
  function ScanLine(s: Scan, r: Record): Option<Scan> {
    if s.progress.Filling? then ScanCheckpoint(s, r)
    else
      match r.kind
      case Header =>
        if s.lineNumber != 0 then None
        else
          var next :- ApplyHeader(s.state, r);
          Some(s.(state := next, lineNumber := 1))
      case SnapshotBegin =>
        if s.lineNumber != 0 || s.state.lastSequence != 0 || s.progress != Absent then None
        else if !BeginAccepted(s.state, r) then None
        else Some(Scan(BeginState(s.state, r), 1, Filling(r.checkpoint.value, r.recordedAt, [r], 0)))
      case Appended =>
        var next :- ApplyEvent(s.state, r);
        Some(s.(state := next, lineNumber := s.lineNumber + 1))
      case Prune =>
        var next :- ApplyPrune(s.state, r);
        Some(s.(state := next, lineNumber := s.lineNumber + 1))
      case _ => None
  }

  function ScanLines(s: Scan, lines: seq<Record>): Option<Scan> {
    if lines == [] then Some(s)
    else
      var before :- ScanLines(s, lines[..|lines| - 1]);
      ScanLine(before, lines[|lines| - 1])
  }

  function Start(expected: string): Scan {
    Scan(Fresh(expected), 0, Absent)
  }

  /** What a scan of the whole journal amounts to: no open checkpoint, and a header or a checkpoint in front. */
  predicate Complete(s: Scan) {
    !s.progress.Filling? && (s.lineNumber > 0 ==> s.state.header || s.state.compacted)
  }

  /** Full replay of a journal's complete records. */
  function Replay(lines: seq<Record>, expected: string): Option<State> {
    var s :- ScanLines(Start(expected), lines);
    if Complete(s) then Some(s.state) else None
  }

  // ------------------------------------------------------------ good states

  /** The retained events are exactly prunedThrough+1 .. lastSequence, in order. */
  predicate Contiguous(s: State) {
    && s.prunedThrough <= s.lastSequence
    && |s.events| == s.lastSequence - s.prunedThrough
    && forall i :: 0 <= i < |s.events| ==> s.events[i].event.sequence == s.prunedThrough + i + 1
  }

  predicate Ascending(events: seq<Stored>) {
    forall i, j :: 0 <= i < j < |events| ==> events[i].recordedAt <= events[j].recordedAt
  }

  /** Commit times never decrease, and none is later than the state's own. */
  predicate TimeOrdered(s: State) {
    && Ascending(s.events)
    && (forall i :: 0 <= i < |s.events| ==> ZERO_TIME != s.events[i].recordedAt <= s.lastRecordedAt)
    && (s.lastRecordedAt == ZERO_TIME ==> s.lastSequence == 0 && !s.compacted)
  }

  /** A contiguous, time-ordered window of valid events of an initialised store. */
  predicate Good(s: State) {
    && ValidStoreId(s.storeId)
    && (s.header || s.compacted)
    && Contiguous(s)
    && TimeOrdered(s)
    && forall i :: 0 <= i < |s.events| ==> ValidEvent(s.events[i].event)
  }

  // ----------------------------------------------------------------- lineage

  predicate Retained(e: Stored, s: State) {
    var index := e.event.sequence - s.prunedThrough - 1;
    0 <= index < |s.events| && s.events[index] == e
  }

  predicate Continues(before: State, after: State) {
    && before.storeId != "" && after.storeId == before.storeId
    && before.generation <= after.generation
    && before.lastSequence <= after.lastSequence
    && before.prunedThrough <= after.prunedThrough
    && forall i :: 0 <= i < |before.events| && before.events[i].event.sequence > after.prunedThrough
                   ==> Retained(before.events[i], after)
  }

  predicate Advances(before: State, after: State) {
    Continues(before, after) && after.compacted && before.generation < after.generation
  }

  lemma ContinuesReflexive(s: State)
    requires s.storeId != "" && Contiguous(s)
    ensures Continues(s, s)
  {
  }

  lemma ContinuesTransitive(a: State, b: State, c: State)
    requires Continues(a, b) && Continues(b, c)
    ensures Continues(a, c)
  {
    forall i | 0 <= i < |a.events| && a.events[i].event.sequence > c.prunedThrough
      ensures Retained(a.events[i], c)
    {
      assert Retained(a.events[i], b);
      var k := a.events[i].event.sequence - b.prunedThrough - 1;
      assert b.events[k] == a.events[i];
      assert Retained(b.events[k], c);
    }
  }
}
