/** When nothing fails: exactly which appends and compactions succeed, and what they leave in the journal
    (internal/audit/writer.go, internal/audit/compaction.go). */
module AuditSuccess {
  import opened Wrappers
  import opened AuditJournal
  import opened AuditReplay
  import opened AuditCompaction
  import opened AuditMetadata
  import opened AuditDisk
  import opened AuditOps
  import opened AuditSafety
  import opened AuditLive
  import opened AuditCrash
  import opened AuditRuns

  function Lines(d: Disk): seq<Record>
    requires d.entry.Some? && d.entry.value in d.files
  {
    d.files[d.entry.value].visible.lines
  }

  /** Persisting watermarks with nothing failing succeeds if and only if the lock file has room for a revision. */
  lemma ConcludeSucceedsIff(env: Env, o: Outcome, e: Option<Event>)
    requires o.cache.Some? && Good(o.cache.value.state)
    ensures var r := Conclude(env, o, e, SlotDone, true);
            && (if Writable(ReadLock(o.disk.lock)) then r.cache == o.cache && r.ack == e
                else r.cache.None? && r.ack.None?)
            && r.disk.files == o.disk.files && r.disk.entry == o.disk.entry
  {
    OwnMetadataFixes(env, o.cache.value.state);
  }

  /** An undisturbed compaction of `source` installs its checkpoint. */
  lemma CompactStateInstalls(env: Env, d: Disk, s: State, c: Cache, source: State, t: Time, tick: int)
    requires Live(env, d, s) && Exact(env, d, c) && c.state == s
    requires Good(source) && Continues(s, source) && t != ZERO_TIME && source.generation < MAX_UINT64
    requires source.lastRecordedAt == ZERO_TIME || source.lastRecordedAt <= t
    requires s.lastRecordedAt == ZERO_TIME || s.lastRecordedAt <= t
    ensures var o := CompactState(env, d, c, source, t, CompactDone, tick);
            && o.cache.Some? && o.cache.value.state == Compacted(source, t) && Good(o.cache.value.state)
            && o.disk.entry.Some? && o.disk.entry.value in o.disk.files && Lines(o.disk) == Checkpoint(source, t)
            && o.disk.lock == d.lock
  {
    CompactedFollows(s, source, t);
  }

  // ------------------------------------------------------- append

  /** What the record does to the journal: it is appended, or it is part of the checkpoint that replaces it. */
  predicate Written(env: Env, d: Disk, c: Cache, r: Record, next: State, d': Disk)
    requires d.entry.Some? && d.entry.value in d.files
  {
    && d'.entry.Some? && d'.entry.value in d'.files
    && if ShouldCompact(env, c, next, c.bytes + LineBytes(env, r), r.recordedAt) == Some(true) then
         next.generation < MAX_UINT64 && Lines(d') == Checkpoint(next, r.recordedAt)
       else d'.entry == d.entry && Lines(d') == Lines(d) + [r]
  }

  lemma AppendRecordSucceedsIff(env: Env, d: Disk, c: Cache, r: Record, next: State, tick: int)
    requires FilesSafe(d) && d.entry.Some? && r.event.Some? && Good(next)
    ensures var o := AppendRecord(env, d, c, r, next, NOTHING_FAILS, tick);
            && (o.ack == if Writable(ReadLock(d.lock)) then r.event else None)
            && o.disk.entry == d.entry && d.entry.value in o.disk.files && Lines(o.disk) == Lines(d) + [r]
  {
    var written := WriteRecord(d, r, WriteDone, tick).0;
    var stored := Outcome(written, Some(CacheOf(env, d.entry.value, next, written.files[d.entry.value])), None);
    ConcludeSucceedsIff(env, stored, r.event);
  }

  lemma PreparedSucceedsIff(env: Env, d: Disk, s: State, c: Cache, r: Record, next: State, tick: int)
    requires Live(env, d, s) && Exact(env, d, c) && c.state == s && r.recordedAt != ZERO_TIME
    requires r.kind == Appended && ApplyEvent(s, r) == Some(next) && Follows(s, next)
    requires next.lastRecordedAt == r.recordedAt
    ensures var o := AppendPrepared(env, d, c, r, next, r.recordedAt, NOTHING_FAILS, tick);
            && (o.ack == if HasRoom(env, d.lock, c, r, next, r.recordedAt) then r.event else None)
            && (o.ack.Some? ==> Written(env, d, c, r, next, o.disk))
  {
    var t, projected := r.recordedAt, c.bytes + LineBytes(env, r);
    AppendPreparedIs(env, d, c, r, next, t, NOTHING_FAILS, tick);
    if projected <= MAX_INT64 && ShouldCompact(env, c, next, projected, t) == Some(true) {
      CompactStateInstalls(env, d, s, c, next, t, tick);
      ConcludeSucceedsIff(env, CompactState(env, d, c, next, t, CompactDone, tick), r.event);
    } else if projected <= MAX_INT64 && ShouldCompact(env, c, next, projected, t) == Some(false) {
      AppendRecordSucceedsIff(env, d, c, r, next, tick);
    }
  }

  lemma AppliedAt(s: State, r: Record, next: State)
    requires Good(s) && r.kind == Appended && ApplyEvent(s, r) == Some(next)
    ensures next.lastRecordedAt == r.recordedAt
  {
  }

  /** Exactly which appends succeed: from a healthy store, with nothing failing, an event is acknowledged if and only
      if it has a kind, the clock works, and there is room for one more number, byte, generation and revision. Then
      one record with that event ends the journal, or is part of the checkpoint that replaces it. */
  lemma AppendSucceedsIff(env: Env, d: Disk, s: State, c: Cache, draft: Draft, now: Time, tick: int)
    returns (r: Record, next: State)
    requires Live(env, d, s) && CacheLive(env, d, s, c)
    ensures var refreshed := Refresh(env, d, c, RepairDone, tick);
            var o := Append(env, d, c, draft, now, NOTHING_FAILS, tick);
            && refreshed.cache.Some? && refreshed.cache.value.state == s
            && (o.ack.Some? <==> Stores(env, d.lock, refreshed.cache.value, draft, now))
            && (o.ack.Some? ==>
                  && r.kind == Appended && r.event == o.ack && ApplyEvent(s, r) == Some(next)
                  && d.entry.Some? && d.entry.value in d.files
                  && Written(env, d, refreshed.cache.value, r, next, o.disk))
  {
    r, next := EventRecord(Event(0, 0, "", ""), 0, 0), s;
    RefreshSucceeds(env, d, s, c, RepairDone, tick);
    var m := Refresh(env, d, c, RepairDone, tick);
    if draft.kind != "" {
      AppendAfterRefresh(env, d, s, c, draft, now, NOTHING_FAILS, tick);
      if !AppendRefused(m, s, now, NOTHING_FAILS) {
        r, next := AppendToIs(env, m.disk, s, m.cache.value, draft, now, NOTHING_FAILS, tick);
        AppliedAt(s, r, next);
        PreparedSucceedsIff(env, m.disk, s, m.cache.value, r, next, tick);
      }
    }
  }

  // ------------------------------------------------------- compaction

  const COMPACTION_DONE := CompactionIO(RepairDone, CompactDone, SlotDone, true)

  /** Nothing to do: the journal is one checkpoint and retention drops nothing. */
  predicate AlreadyCompact(env: Env, s: State, now: Time) {
    match ApplyRetention(s, CommitTime(s, now), env.options)
    case None => false
    case Some(prospective) => !prospective.hasObsoleteHistory && prospective.compacted
  }

  /** A compacted journal one generation later, holding exactly the events of `s` that retention at `t` keeps. */
  predicate Compacts(env: Env, s: State, o: Outcome, t: Time) {
    && o.cache.Some? && o.disk.entry.Some? && o.disk.entry.value in o.disk.files && Lines(o.disk) != []
    && var u := o.cache.value.state;
    && Lines(o.disk)[0].kind == SnapshotBegin && Replay(Lines(o.disk), "") == Some(u)
    && u.compacted && !u.hasObsoleteHistory && u.generation == s.generation + 1
    && u.storeId == s.storeId && u.lastSequence == s.lastSequence
    && (forall e :: e in u.events ==> e in s.events)
    && forall i :: 0 <= i < |s.events| ==> (s.events[i] in u.events <==> AuditCompaction.Kept(s, i, t, env.options))
  }

  /** The events of the state after retention are those kept. */
  lemma RetainedEvents(s: State, u: State, t: Time, o: Options)
    requires Good(s) && ApplyRetention(s, t, o) == Some(u)
    ensures forall e :: e in u.events ==> e in s.events
    ensures forall i :: 0 <= i < |s.events| ==> (s.events[i] in u.events <==> AuditCompaction.Kept(s, i, t, o))
  {
    RetentionIsExact(s, t, o);
    forall i | 0 <= i < |s.events|
      ensures s.events[i] in u.events <==> s.events[i].event.sequence > u.prunedThrough
    {
      if s.events[i].event.sequence > u.prunedThrough { assert Retained(s.events[i], u); }
    }
  }

  lemma CompactFromSucceedsIff(env: Env, d: Disk, s: State, c: Cache, now: Time, tick: int)
    requires Live(env, d, s) && Exact(env, d, c) && c.state == s && now != ZERO_TIME
    ensures var o := CompactFrom(env, d, c, now, COMPACTION_DONE, tick);
            && (o.cache.Some? <==> AlreadyCompact(env, s, now) || Installs(env, d.lock, s, now))
            && (Installs(env, d.lock, s, now) ==> Compacts(env, s, o, CommitTime(s, now)))
  {
    var t := CommitTime(s, now);
    RetentionIsExact(s, t, env.options);
    var prospective := ApplyRetention(s, t, env.options).value;
    if (prospective.hasObsoleteHistory || !prospective.compacted) && prospective.generation < MAX_UINT64 {
      CompactStateInstalls(env, d, s, c, prospective, t, tick);
      CompactedFollows(s, prospective, t);
      ConcludeSucceedsIff(env, CompactState(env, d, c, prospective, t, CompactDone, tick), None);
      RetainedEvents(s, prospective, t, env.options);
    }
  }

  /** Exactly which compactions succeed, and what they leave. */
  lemma CompactSucceedsIff(env: Env, d: Disk, s: State, c: Cache, now: Time, tick: int)
    requires Live(env, d, s) && CacheLive(env, d, s, c)
    ensures var o := Compact(env, d, c, now, COMPACTION_DONE, tick);
            && (o.cache.Some? <==> (now != ZERO_TIME && AlreadyCompact(env, s, now)) || Installs(env, d.lock, s, now))
            && (Installs(env, d.lock, s, now) ==> Compacts(env, s, o, CommitTime(s, now)))
  {
    RefreshSucceeds(env, d, s, c, RepairDone, tick);
    var r := Refresh(env, d, c, RepairDone, tick);
    if now != ZERO_TIME { CompactFromSucceedsIff(env, r.disk, s, r.cache.value, now, tick); }
  }
}
