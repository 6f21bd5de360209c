/** Sealed checkpoints and retention (internal/audit/compaction.go). */
module AuditCompaction {
  import opened Wrappers
  import opened AuditJournal
  import opened AuditReplay

  // ------------------------------------------------------- good states stay good

  lemma AdvancePruneGood(s: State, through: U64)
    requires Good(s) && s.prunedThrough <= through <= s.lastSequence
    ensures AdvancePrune(s, through).Some? && Good(AdvancePrune(s, through).value)
  {
    AdvancePruneContinues(s, through);
    if through != s.prunedThrough {
      SuffixOrdered(s.events, through - s.prunedThrough, s.lastRecordedAt);
    }
  }

  lemma SuffixOrdered(events: seq<Stored>, drop: nat, latest: Time)
    requires drop <= |events| && Ascending(events)
    requires forall i :: 0 <= i < |events| ==>
               ZERO_TIME != events[i].recordedAt <= latest &&
               ValidEvent(events[i].event)
    ensures Ascending(events[drop..])
    ensures forall i :: 0 <= i < |events[drop..]| ==>
              ZERO_TIME != events[drop..][i].recordedAt <= latest && ValidEvent(events[drop..][i].event)
  {
    assert forall i :: 0 <= i < |events[drop..]| ==> events[drop..][i] == events[i + drop];
  }

  function Push(s: State, e: Event, t: Time): State {
    s.(events := s.events + [Stored(e, t)], lastSequence := e.sequence, lastRecordedAt := t)
  }

  lemma PushGood(s: State, e: Event, t: Time)
    requires Good(s) && ValidEvent(e) && e.sequence == s.lastSequence + 1
    requires t != ZERO_TIME && (s.lastRecordedAt == ZERO_TIME || s.lastRecordedAt <= t)
    ensures Good(Push(s, e, t))
  {
  }

  // ------------------------------------------------------- checkpoints

  function Opening(s: State): Boundary
    requires s.generation < MAX_UINT64 && |s.events| <= MAX_UINT64
  {
    Boundary(s.storeId, s.generation + 1, s.lastSequence, s.prunedThrough, |s.events|, NoDigest)
  }

  function BoundaryRecord(kind: Kind, t: Time, b: Boundary): Record {
    Record(kind, t, "", None, 0, Some(b))
  }

  function SnapshotRecord(e: Stored): Record {
    Record(SnapshotEvent, e.recordedAt, "", Some(e.event), 0, None)
  }

  function SnapshotRecords(events: seq<Stored>): (r: seq<Record>) {
    seq(|events|, i requires 0 <= i < |events| => SnapshotRecord(events[i]))
  }

  /** The records hashed by the digest: snapshot_begin and the events. */
  function CheckpointBody(s: State, t: Time): seq<Record>
    requires s.generation < MAX_UINT64 && |s.events| <= MAX_UINT64
  {
    [BoundaryRecord(SnapshotBegin, t, Opening(s))] + SnapshotRecords(s.events)
  }

  function Checkpoint(s: State, t: Time): seq<Record>
    requires s.generation < MAX_UINT64 && |s.events| <= MAX_UINT64
  {
    CheckpointBody(s, t)
    + [BoundaryRecord(SnapshotEnd, t, Opening(s).(digest := Sum(CheckpointBody(s, t))))]
  }

  /** What a checkpoint of `s` recovers to. */
  function Compacted(s: State, t: Time): State
    requires s.generation < MAX_UINT64
  {
    State(s.storeId, s.generation + 1, false, true, s.lastSequence, s.prunedThrough, t, s.events, false)
  }

  predicate SemanticallyEqual(source: State, checkpoint: State) {
    && checkpoint.storeId == source.storeId
    && checkpoint.generation == source.generation + 1
    && checkpoint.lastSequence == source.lastSequence
    && checkpoint.prunedThrough == source.prunedThrough
    && checkpoint.events == source.events
  }

  /** What a checkpoint can hold: a store's contiguous window of valid events in the order of their times. */
  predicate Sealable(s: State) {
    && s.storeId != "" && Contiguous(s) && Ascending(s.events)
    && forall i :: 0 <= i < |s.events| ==> ValidEvent(s.events[i].event) && s.events[i].recordedAt != ZERO_TIME
  }

  /** The scan after a checkpoint's first line and `n` of its events. */
  function Filled(s: State, t: Time, n: nat): Scan
    requires s.generation < MAX_UINT64 && n <= |s.events| <= MAX_UINT64
  {
    Scan(Fresh(s.storeId).(generation := s.generation + 1, compacted := true, prunedThrough := s.prunedThrough,
                           lastRecordedAt := t, events := s.events[..n]),
         n + 1, Filling(Opening(s), t, CheckpointBody(s, t)[..n + 1], n))
  }

  lemma FilledStarts(s: State, t: Time)
    requires Sealable(s) && s.generation < MAX_UINT64 && t != ZERO_TIME
    ensures ScanLine(Start(s.storeId), CheckpointBody(s, t)[0]) == Some(Filled(s, t, 0))
  {
    assert s.events[..0] == [];
    assert CheckpointBody(s, t)[..1] == [CheckpointBody(s, t)[0]];
  }

  lemma FilledGrows(s: State, t: Time, n: nat)
    requires Sealable(s) && s.generation < MAX_UINT64 && n < |s.events|
    ensures ScanLine(Filled(s, t, n), CheckpointBody(s, t)[n + 1]) == Some(Filled(s, t, n + 1))
  {
    var body := CheckpointBody(s, t);
    assert body[n + 1] == SnapshotRecord(s.events[n]);
    assert body[..n + 1] + [body[n + 1]] == body[..n + 2];
    assert s.events[..n] + [s.events[n]] == s.events[..n + 1];
  }

  lemma ScanSnoc(s: Scan, lines: seq<Record>, n: nat)
    requires n < |lines|
    ensures ScanLines(s, lines[..n + 1]) ==
            match ScanLines(s, lines[..n]) case None => None case Some(before) => ScanLine(before, lines[n])
  {
    assert lines[..n + 1][..n] == lines[..n];
  }

  lemma {:induction false} CheckpointBodyScans(s: State, t: Time, n: nat)
    requires Sealable(s) && s.generation < MAX_UINT64 && t != ZERO_TIME && n <= |s.events|
    ensures ScanLines(Start(s.storeId), CheckpointBody(s, t)[..n + 1]) == Some(Filled(s, t, n))
    decreases n
  {
    var body := CheckpointBody(s, t);
    ScanSnoc(Start(s.storeId), body, n);
    if n == 0 {
      assert body[..0] == [];
      FilledStarts(s, t);
    } else {
      CheckpointBodyScans(s, t, n - 1);
      FilledGrows(s, t, n - 1);
    }
  }

  /** Recovering a written checkpoint gives back the store, the watermarks and every event, one generation later. */
  lemma CheckpointRecovers(s: State, t: Time)
    requires Good(s) && s.generation < MAX_UINT64 && t != ZERO_TIME
    ensures Replay(Checkpoint(s, t), s.storeId) == Some(Compacted(s, t))
    ensures SemanticallyEqual(s, Compacted(s, t))
    ensures Advances(s, Compacted(s, t))
    ensures (s.lastRecordedAt == ZERO_TIME || s.lastRecordedAt <= t) ==> Good(Compacted(s, t))
  {
    CheckpointReplays(s, t);
    SemanticallyEqualAdvances(s, Compacted(s, t));
  }

  lemma FilledSeals(s: State, t: Time)
    requires Sealable(s) && s.generation < MAX_UINT64 && t != ZERO_TIME
    ensures ScanLine(Filled(s, t, |s.events|), Checkpoint(s, t)[|s.events| + 1])
         == Some(Scan(Compacted(s, t), |s.events| + 2, Sealed))
  {
    assert s.events[..|s.events|] == s.events;
    assert CheckpointBody(s, t)[..|s.events| + 1] == CheckpointBody(s, t);
  }

  lemma CheckpointReplays(s: State, t: Time)
    requires Sealable(s) && s.generation < MAX_UINT64 && t != ZERO_TIME
    ensures Replay(Checkpoint(s, t), s.storeId) == Some(Compacted(s, t))
  {
    var n, lines := |s.events|, Checkpoint(s, t);
    CheckpointBodyScans(s, t, n);
    assert lines[..n + 1] == CheckpointBody(s, t)[..n + 1] && lines[..n + 2] == lines;
    ScanSnoc(Start(s.storeId), lines, n + 1);
    FilledSeals(s, t);
  }

  /** A recovered checkpoint that passes the writer's own comparison really is a later generation of its source. */
  lemma SemanticallyEqualAdvances(source: State, checkpoint: State)
    requires Contiguous(source) && source.storeId != "" && checkpoint.compacted
    requires SemanticallyEqual(source, checkpoint)
    ensures Advances(source, checkpoint)
  {
    ContinuesReflexive(source);
  }

  lemma CheckpointStarts(s: Scan, r: Record)
    requires !s.progress.Filling? && r.kind == SnapshotBegin && ScanLine(s, r).Some?
    ensures ScanLine(s, r).value.state.compacted
  {
  }

  lemma CompactedKept(s: Scan, r: Record)
    requires s.state.compacted && ScanLine(s, r).Some?
    ensures ScanLine(s, r).value.state.compacted
  {
  }

  /** A journal that opens with a checkpoint replays to a compacted state. */
  lemma {:induction false} CheckpointFirst(lines: seq<Record>, expected: string)
    requires lines != [] && lines[0].kind == SnapshotBegin && ScanLines(Start(expected), lines).Some?
    ensures ScanLines(Start(expected), lines).value.state.compacted
    decreases |lines|
  {
    var init := lines[..|lines| - 1];
    if init == [] {
      assert ScanLines(Start(expected), init) == Some(Start(expected));
      CheckpointStarts(Start(expected), lines[0]);
    } else {
      CheckpointFirst(init, expected);
      CompactedKept(ScanLines(Start(expected), init).value, lines[|lines| - 1]);
    }
  }

  // ------------------------------------------------------- compaction preserves meaning

  predicate SameMeaning(a: State, b: State) {
    && a.storeId == b.storeId && a.lastSequence == b.lastSequence && a.prunedThrough == b.prunedThrough
    && a.events == b.events
  }

  /** `a` scans a journal, `b` its compacted form as of `t`. */
  predicate Alike(a: Scan, b: Scan, t: Time) {
    && a.lineNumber > 0 && b.lineNumber > 0 && !a.progress.Filling? && !b.progress.Filling?
    && AlikeStates(a.state, b.state, t)
  }

  predicate AlikeStates(a: State, b: State, t: Time) {
    && SameMeaning(a, b)
    && (a.lastRecordedAt == b.lastRecordedAt
        || (b.lastRecordedAt == t && (a.lastRecordedAt == ZERO_TIME || a.lastRecordedAt <= t)))
  }

  lemma AlikeEvent(a: State, b: State, t: Time, r: Record)
    requires AlikeStates(a, b, t) && t <= r.recordedAt
    ensures ApplyEvent(a, r).Some? <==> ApplyEvent(b, r).Some?
    ensures ApplyEvent(a, r).Some? ==>
              SameMeaning(ApplyEvent(a, r).value, ApplyEvent(b, r).value)
              && ApplyEvent(a, r).value.lastRecordedAt == ApplyEvent(b, r).value.lastRecordedAt
  {
  }

  lemma AlikePrune(a: State, b: State, t: Time, r: Record)
    requires AlikeStates(a, b, t) && t <= r.recordedAt
    ensures ApplyPrune(a, r).Some? <==> ApplyPrune(b, r).Some?
    ensures ApplyPrune(a, r).Some? ==>
              SameMeaning(ApplyPrune(a, r).value, ApplyPrune(b, r).value)
              && ApplyPrune(a, r).value.lastRecordedAt == ApplyPrune(b, r).value.lastRecordedAt
  {
  }

  lemma AlikeStep(a: Scan, b: Scan, t: Time, r: Record)
    requires Alike(a, b, t) && t <= r.recordedAt
    ensures ScanLine(a, r).Some? <==> ScanLine(b, r).Some?
    ensures ScanLine(a, r).Some? ==>
              && Alike(ScanLine(a, r).value, ScanLine(b, r).value, t)
              && ScanLine(a, r).value.state.lastRecordedAt == ScanLine(b, r).value.state.lastRecordedAt
  {
    AlikeEvent(a.state, b.state, t, r);
    AlikePrune(a.state, b.state, t, r);
  }

  lemma {:induction false} AlikeLines(a: Scan, b: Scan, t: Time, more: seq<Record>)
    requires Alike(a, b, t) && forall i :: 0 <= i < |more| ==> t <= more[i].recordedAt
    ensures ScanLines(a, more).Some? <==> ScanLines(b, more).Some?
    ensures ScanLines(a, more).Some? ==> Alike(ScanLines(a, more).value, ScanLines(b, more).value, t)
    decreases |more|
  {
    if more != [] {
      var init := more[..|more| - 1];
      AlikeLines(a, b, t, init);
      if ScanLines(a, init).Some? {
        AlikeStep(ScanLines(a, init).value, ScanLines(b, init).value, t, more[|more| - 1]);
      }
    }
  }

  /** Compaction preserves meaning: records appended later (no earlier than the
      checkpoint) are accepted after the checkpoint exactly when they would be
      accepted after the journal it replaced, and leave the same events and watermarks. */
  lemma CompactionPreservesMeaning(lines: seq<Record>, s: State, t: Time, more: seq<Record>)
    requires lines != [] && Replay(lines, s.storeId) == Some(s) && Good(s) && s.generation < MAX_UINT64
    requires t != ZERO_TIME && (s.lastRecordedAt == ZERO_TIME || s.lastRecordedAt <= t)
    requires forall i :: 0 <= i < |more| ==> t <= more[i].recordedAt
    ensures var plain := Replay(lines + more, s.storeId);
            var compacted := Replay(Checkpoint(s, t) + more, s.storeId);
            && (plain.Some? <==> compacted.Some?)
            && (plain.Some? ==> SameMeaning(plain.value, compacted.value)
                                && compacted.value.generation == plain.value.generation + 1)
  {
    var id := s.storeId;
    var checkpoint := Checkpoint(s, t);
    CheckpointRecovers(s, t);
    ScanConcat(Start(id), lines, more);
    ScanConcat(Start(id), checkpoint, more);
    ScanLinesSound(id, lines);
    ScanLinesSound(id, checkpoint);
    var a, b := ScanLines(Start(id), lines).value, ScanLines(Start(id), checkpoint).value;
    AlikeLines(a, b, t, more);
    if ScanLines(a, more).Some? {
      ScanLinesContinue(a, more);
      ScanLinesContinue(b, more);
    }
  }

  // ------------------------------------------------------- retention

  /** Zero disables a bound; `threshold` is the compaction threshold in bytes. */
  datatype Options = Options(maxEvents: nat, retention: nat, threshold: nat)

  function OldPrefix(events: seq<Stored>, cutoff: Time): (n: nat)
    ensures n <= |events|
    ensures forall i :: 0 <= i < n ==> events[i].recordedAt < cutoff
    ensures n < |events| ==> cutoff <= events[n].recordedAt
  {
    if events == [] || events[0].recordedAt >= cutoff then 0 else 1 + OldPrefix(events[1..], cutoff)
  }

  function Excess(s: State, o: Options): nat {
    if o.maxEvents > 0 && |s.events| > o.maxEvents then |s.events| - o.maxEvents else 0
  }

  function Expired(s: State, now: Time, o: Options): nat {
    if o.retention > 0 then OldPrefix(s.events, now - o.retention) else 0
  }

  function DropCount(s: State, now: Time, o: Options): (n: nat)
    ensures n <= |s.events|
  {
    if Expired(s, now, o) > Excess(s, o) then Expired(s, now, o) else Excess(s, o)
  }

  function ApplyRetention(s: State, now: Time, o: Options): Option<State> {
    var drop := DropCount(s, now, o);
    if drop == 0 then Some(s) else AdvancePrune(s, s.events[drop - 1].event.sequence)
  }

  /** The policy as the writer runs it. */
  method ApplyRetentionPolicy(s: State, now: Time, o: Options) returns (result: Option<State>)
    ensures result == ApplyRetention(s, now, o)
  {
    var drop := 0;
    if o.maxEvents > 0 && |s.events| > o.maxEvents {
      drop := |s.events| - o.maxEvents;
    }
    if o.retention > 0 {
      var cutoff := now - o.retention;
      var timeDrop := 0;
      while timeDrop < |s.events| && s.events[timeDrop].recordedAt < cutoff
        invariant timeDrop <= |s.events|
        invariant forall i :: 0 <= i < timeDrop ==> s.events[i].recordedAt < cutoff
      {
        timeDrop := timeDrop + 1;
      }
      if timeDrop > drop {
        drop := timeDrop;
      }
    }
    if drop == 0 {
      return Some(s);
    }
    result := AdvancePrune(s, s.events[drop - 1].event.sequence);
  }

  /** Whether the policy keeps the event at `i`. */
  predicate Kept(s: State, i: nat, now: Time, o: Options)
    requires i < |s.events|
  {
    && (o.maxEvents > 0 ==> |s.events| - i <= o.maxEvents)
    && (o.retention > 0 ==> now - o.retention <= s.events[i].recordedAt)
  }

  /** Retention drops that many events from the front of the window. */
  lemma RetainedIs(s: State, now: Time, o: Options)
    requires Good(s)
    ensures ApplyRetention(s, now, o).Some?
    ensures var drop, t := DropCount(s, now, o), ApplyRetention(s, now, o).value;
            && Good(t) && Continues(s, t)
            && t == s.(events := s.events[drop..], prunedThrough := s.prunedThrough + drop,
                       hasObsoleteHistory := s.hasObsoleteHistory || drop > 0)
  {
    var drop := DropCount(s, now, o);
    assert s.events[0..] == s.events;
    if drop == 0 {
      ContinuesReflexive(s);
    } else {
      AdvancePruneGood(s, s.events[drop - 1].event.sequence);
      AdvancePruneContinues(s, s.events[drop - 1].event.sequence);
    }
  }

  lemma DropIsExact(s: State, now: Time, o: Options)
    requires Good(s)
    ensures forall i :: 0 <= i < |s.events| ==> (Kept(s, i, now, o) <==> DropCount(s, now, o) <= i)
  {
  }

  lemma RetainedFits(s: State, now: Time, o: Options)
    requires Good(s)
    ensures var drop := DropCount(s, now, o);
            && (o.maxEvents > 0 ==> |s.events[drop..]| <= o.maxEvents)
            && (o.retention > 0 ==>
                  forall i :: 0 <= i < |s.events[drop..]| ==> now - o.retention <= s.events[drop..][i].recordedAt)
            && (forall i :: 0 <= i < |s.events| ==>
                  (Kept(s, i, now, o) <==> s.events[i].event.sequence > s.prunedThrough + drop))
  {
    var drop := DropCount(s, now, o);
    DropIsExact(s, now, o);
    forall i | 0 <= i < |s.events[drop..]|
      ensures o.retention > 0 ==> now - o.retention <= s.events[drop..][i].recordedAt
    {
      assert s.events[drop..][i] == s.events[drop + i] && Kept(s, drop + i, now, o);
    }
    if o.maxEvents > 0 && drop < |s.events| { assert Kept(s, drop, now, o); }
  }

  /** Retention drops exactly the events outside a bound: afterwards both bounds
      hold, and no event inside both bounds was dropped. */
  lemma RetentionIsExact(s: State, now: Time, o: Options)
    requires Good(s)
    ensures ApplyRetention(s, now, o).Some?
    ensures var t := ApplyRetention(s, now, o).value;
            && Good(t) && Continues(s, t)
            && t.lastSequence == s.lastSequence && t.lastRecordedAt == s.lastRecordedAt && t.storeId == s.storeId
            && t.generation == s.generation && t.compacted == s.compacted && t.header == s.header
            && (o.maxEvents > 0 ==> |t.events| <= o.maxEvents)
            && (o.retention > 0 ==> forall i :: 0 <= i < |t.events| ==> now - o.retention <= t.events[i].recordedAt)
            && (forall i :: 0 <= i < |s.events| ==>
                              (Kept(s, i, now, o) <==> s.events[i].event.sequence > t.prunedThrough))
  {
    RetainedIs(s, now, o);
    RetainedFits(s, now, o);
  }

  /** Even on a window of unknown times, retention only moves the prune watermark forward. */
  lemma RetentionContinues(s: State, now: Time, o: Options)
    requires Contiguous(s)
    ensures ApplyRetention(s, now, o).Some?
    ensures var t := ApplyRetention(s, now, o).value;
            Contiguous(t) && t.storeId == s.storeId && (s.storeId != "" ==> Continues(s, t))
  {
    var drop := DropCount(s, now, o);
    if drop == 0 {
      if s.storeId != "" { ContinuesReflexive(s); }
    } else {
      AdvancePruneContinues(s, s.events[drop - 1].event.sequence);
    }
  }

  // ------------------------------------------------------- the appended record

  /** An event as the caller hands it over, already validated and redacted. */
  datatype Draft = Draft(timestamp: Time, kind: string, rest: string)

  function CommitTime(s: State, now: Time): Time {
    if s.lastRecordedAt != ZERO_TIME && now < s.lastRecordedAt then s.lastRecordedAt else now
  }

  function Persisted(s: State, d: Draft, t: Time): Event
    requires s.lastSequence < MAX_UINT64
  {
    Event(s.lastSequence + 1, if d.timestamp == ZERO_TIME then t else d.timestamp, d.kind, d.rest)
  }

  function Preview(s: State, d: Draft, t: Time, o: Options): Option<State>
    requires s.lastSequence < MAX_UINT64
  {
    ApplyRetention(Push(s, Persisted(s, d, t), t), t, o)
  }

  function EventRecord(e: Event, t: Time, prunedThrough: U64): Record {
    Record(Appended, t, "", Some(e), prunedThrough, None)
  }

  /** Whatever the state, an accepted record leaves its event last and unpruned. */
  lemma AppliedEventIsLast(s: State, r: Record)
    requires Contiguous(s) && ApplyEvent(s, r).Some?
    ensures var t := ApplyEvent(s, r).value;
            && t.lastSequence == r.event.value.sequence == s.lastSequence + 1 && t.prunedThrough < t.lastSequence
            && t.events != [] && t.events[|t.events| - 1] == Stored(r.event.value, r.recordedAt)
            && t.storeId == s.storeId
  {
    ApplyEventContinues(s, r);
  }

  /** Retention during an append never prunes the new event, and replaying the
      record the writer encodes gives exactly the state it previewed. */
  lemma PreviewIsReplay(s: State, d: Draft, now: Time, o: Options)
    requires Good(s) && s.lastSequence < MAX_UINT64 && now != ZERO_TIME && d.kind != ""
    ensures var t := CommitTime(s, now);
            var e := Persisted(s, d, t);
            var p := Preview(s, d, t, o);
            && p.Some? && Good(p.value) && Continues(s, p.value)
            && p.value.events != [] && p.value.events[|p.value.events| - 1] == Stored(e, t)
            && p.value.lastSequence == s.lastSequence + 1
            && (o.maxEvents > 0 ==> |p.value.events| <= o.maxEvents)
            && (o.retention > 0 ==>
                  forall i :: 0 <= i < |p.value.events| ==> t - o.retention <= p.value.events[i].recordedAt)
            && ApplyEvent(s, EventRecord(e, t, p.value.prunedThrough)) == p
  {
    PreviewIsGood(s, d, CommitTime(s, now), o);
    RecordReplays(s, d, CommitTime(s, now), o);
  }

  lemma PushedIsGood(s: State, e: Event, t: Time)
    requires Good(s) && ValidEvent(e) && e.sequence == s.lastSequence + 1
    requires t != ZERO_TIME && (s.lastRecordedAt == ZERO_TIME || s.lastRecordedAt <= t)
    ensures var pushed := Push(s, e, t);
            && Good(pushed) && Continues(s, pushed) && pushed.prunedThrough == s.prunedThrough
            && pushed.events != [] && pushed.events[|pushed.events| - 1] == Stored(e, t)
            && pushed.lastRecordedAt == t && pushed.lastSequence == s.lastSequence + 1
  {
    PushGood(s, e, t);
    PushContinues(s, Stored(e, t));
  }

  lemma PushedRetains(s: State, e: Event, t: Time, o: Options)
    requires Good(s) && ValidEvent(e) && e.sequence == s.lastSequence + 1
    requires t != ZERO_TIME && (s.lastRecordedAt == ZERO_TIME || s.lastRecordedAt <= t)
    ensures var p := ApplyRetention(Push(s, e, t), t, o);
            && p.Some? && Good(p.value) && Continues(s, p.value)
            && p.value.events != [] && p.value.events[|p.value.events| - 1] == Stored(e, t)
            && p.value.lastSequence == s.lastSequence + 1
            && s.prunedThrough <= p.value.prunedThrough <= s.lastSequence
            && (o.maxEvents > 0 ==> |p.value.events| <= o.maxEvents)
            && (o.retention > 0 ==>
                  forall i :: 0 <= i < |p.value.events| ==> t - o.retention <= p.value.events[i].recordedAt)
  {
    var pushed := Push(s, e, t);
    PushedIsGood(s, e, t);
    RetentionIsExact(pushed, t, o);
    var p := ApplyRetention(pushed, t, o).value;
    NewestKept(pushed, p, t, o);
    ContinuesTransitive(s, pushed, p);
  }

  lemma PreviewIsGood(s: State, d: Draft, t: Time, o: Options)
    requires Good(s) && s.lastSequence < MAX_UINT64 && d.kind != ""
    requires t != ZERO_TIME && (s.lastRecordedAt == ZERO_TIME || s.lastRecordedAt <= t)
    ensures var e := Persisted(s, d, t);
            var p := Preview(s, d, t, o);
            && p.Some? && Good(p.value) && Continues(s, p.value)
            && p.value.events != [] && p.value.events[|p.value.events| - 1] == Stored(e, t)
            && p.value.lastSequence == s.lastSequence + 1
            && s.prunedThrough <= p.value.prunedThrough <= s.lastSequence
            && (o.maxEvents > 0 ==> |p.value.events| <= o.maxEvents)
            && (o.retention > 0 ==>
                  forall i :: 0 <= i < |p.value.events| ==> t - o.retention <= p.value.events[i].recordedAt)
  {
    PushedRetains(s, Persisted(s, d, t), t, o);
  }

  lemma RetentionAdvances(s: State, t: Time, o: Options)
    requires ApplyRetention(s, t, o).Some?
    ensures ApplyRetention(s, t, o) == AdvancePrune(s, ApplyRetention(s, t, o).value.prunedThrough)
  {
  }

  lemma RecordReplays(s: State, d: Draft, t: Time, o: Options)
    requires Good(s) && s.lastSequence < MAX_UINT64 && d.kind != ""
    requires t != ZERO_TIME && (s.lastRecordedAt == ZERO_TIME || s.lastRecordedAt <= t)
    ensures Preview(s, d, t, o).Some?
    ensures ApplyEvent(s, EventRecord(Persisted(s, d, t), t, Preview(s, d, t, o).value.prunedThrough))
            == Preview(s, d, t, o)
  {
    PreviewIsGood(s, d, t, o);
    RetentionAdvances(Push(s, Persisted(s, d, t), t), t, o);
    RecordApplies(s, Persisted(s, d, t), t, Preview(s, d, t, o).value.prunedThrough);
  }

  lemma RecordApplies(s: State, e: Event, t: Time, through: U64)
    requires ValidEvent(e) && s.lastSequence < MAX_UINT64 && e.sequence == s.lastSequence + 1
    requires t != ZERO_TIME && (s.lastRecordedAt == ZERO_TIME || s.lastRecordedAt <= t)
    requires s.prunedThrough <= through < e.sequence
    ensures ApplyEvent(s, EventRecord(e, t, through)) == AdvancePrune(Push(s, e, t), through)
  {
  }

  lemma NewestKept(s: State, p: State, t: Time, o: Options)
    requires Good(s) && s.events != [] && s.events[|s.events| - 1].recordedAt == t
    requires ApplyRetention(s, t, o) == Some(p)
    ensures p.prunedThrough < s.lastSequence
    ensures p.events != [] && p.events[|p.events| - 1] == s.events[|s.events| - 1]
  {
    RetentionIsExact(s, t, o);
    NewestRetained(s, p, t, o, |s.events| - 1);
  }

  lemma NewestRetained(s: State, p: State, t: Time, o: Options, last: nat)
    requires Contiguous(s) && Contiguous(p) && Continues(s, p) && p.lastSequence == s.lastSequence
    requires last + 1 == |s.events| && s.events[last].recordedAt == t
    requires Kept(s, last, t, o) <==> s.events[last].event.sequence > p.prunedThrough
    ensures p.prunedThrough < s.lastSequence
    ensures p.events != [] && p.events[|p.events| - 1] == s.events[last]
  {
    assert Retained(s.events[last], p);
  }
}
