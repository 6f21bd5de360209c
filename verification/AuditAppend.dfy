/** What an append stores and acknowledges is what the caller submitted
    (internal/audit/writer.go). */
module AuditAppend {
  import opened Wrappers
  import opened AuditJournal
  import opened AuditReplay
  import opened AuditCompaction
  import opened AuditMetadata
  import opened AuditDisk
  import opened AuditOps
  import opened AuditSafety

  /** Event `e` is the caller's, field by field; without a time of its own it gets the commit time. */
  predicate Carries(draft: Draft, e: Event, t: Time) {
    && e.kind == draft.kind && e.rest == draft.rest
    && e.timestamp == if draft.timestamp == ZERO_TIME then t else draft.timestamp
  }

  /** The later of the clock and the last commit time, if there is one. */
  predicate LaterOf(t: Time, now: Time, last: Time) {
    && (t == now || t == last) && now <= t && (last != ZERO_TIME ==> last <= t) && (last == ZERO_TIME ==> t == now)
  }

  /** The journal, durable, replays to the writer's own state, and `e`, committed at `t`, is the last event in it. */
  predicate StoredLast(o: Outcome, e: Event, t: Time) {
    && o.cache.Some? && Committed(o.disk, o.cache.value.state)
    && var s := o.cache.value.state;
    s.events != [] && s.events[|s.events| - 1] == Stored(e, t) && s.lastSequence == e.sequence
  }

  // ------------------------------------------------------- what is acknowledged

  lemma PreparedAcknowledges(env: Env, d: Disk, c: Cache, r: Record, prospective: State, t: Time, io: AppendIO,
                             tick: int)
    requires d.entry.Some? && d.entry.value in d.files && r.event.Some?
    ensures var o := AppendPrepared(env, d, c, r, prospective, t, io, tick);
            o.ack.None? || o.ack == r.event
  {
  }

  lemma AppendToAcknowledges(env: Env, d: Disk, c: Cache, draft: Draft, now: Time, io: AppendIO, tick: int)
    returns (t: Time)
    requires d.entry.Some? && d.entry.value in d.files && c.state.lastSequence < MAX_UINT64
    ensures LaterOf(t, now, c.state.lastRecordedAt)
    ensures var o := AppendTo(env, d, c, draft, now, io, tick);
            o.ack.Some? ==> Carries(draft, o.ack.value, t) && o.ack.value.sequence == c.state.lastSequence + 1
  {
    t := CommitTime(c.state, now);
    match Preview(c.state, draft, t, env.options)
    case None =>
    case Some(preview) =>
      var r := EventRecord(Persisted(c.state, draft, t), t, preview.prunedThrough);
      if ApplyEvent(c.state, r).Some? {
        PreparedAcknowledges(env, d, c, r, ApplyEvent(c.state, r).value, t, io, tick);
      }
  }

  lemma RefreshAcknowledgesNothing(env: Env, d: Disk, c: Cache, io: RepairIO, tick: int)
    ensures Refresh(env, d, c, io, tick).ack.None?
  {
  }

  /** Whatever the store, an acknowledged event is the submitted one: its kind and its payload, its own time or
      else the commit time, under the number after the last one of the refreshed state. */
  lemma AcknowledgedIsSubmitted(env: Env, d: Disk, c: Cache, draft: Draft, now: Time, io: AppendIO, tick: int)
    returns (t: Time)
    requires Append(env, d, c, draft, now, io, tick).ack.Some?
    ensures var e := Append(env, d, c, draft, now, io, tick).ack.value;
            var refreshed := Refresh(env, d, c, io.repair, tick).cache;
            && refreshed.Some? && LaterOf(t, now, refreshed.value.state.lastRecordedAt)
            && Carries(draft, e, t) && e.sequence == refreshed.value.state.lastSequence + 1
  {
    RefreshAcknowledgesNothing(env, d, c, io.repair, tick);
    var r := Refresh(env, d, c, io.repair, tick);
    t := AppendToAcknowledges(env, r.disk, r.cache.value, draft, now, io, tick);
  }

  // ------------------------------------------------------- what is stored

  lemma ConcludeStores(env: Env, o: Outcome, e: Event, t: Time, slot: SlotIO, unlocked: bool)
    requires StoredLast(o, e, t) && Conclude(env, o, Some(e), slot, unlocked).ack.Some?
    ensures StoredLast(Conclude(env, o, Some(e), slot, unlocked), e, t)
  {
  }

  lemma RecordStores(env: Env, d: Disk, c: Cache, r: Record, io: AppendIO, tick: int)
    requires FilesSafe(d) && Exact(env, d, c) && r.kind == Appended && ApplyEvent(c.state, r).Some?
    requires AppendRecord(env, d, c, r, ApplyEvent(c.state, r).value, io, tick).ack.Some?
    ensures StoredLast(AppendRecord(env, d, c, r, ApplyEvent(c.state, r).value, io, tick), r.event.value, r.recordedAt)
  {
    var next := ApplyEvent(c.state, r).value;
    var lines := d.files[c.inode].visible.lines;
    ReplayAppend(lines, r, "");
    ReplayIsContiguous(lines, "");
    AppliedEventIsLast(c.state, r);
    var written := WriteRecord(d, r, io.write, tick).0;
    var stored := Outcome(written, Some(CacheOf(env, c.inode, next, written.files[c.inode])), None);
    assert StoredLast(stored, r.event.value, r.recordedAt);
    ConcludeStores(env, stored, r.event.value, r.recordedAt, io.slot, io.unlocked);
  }

  lemma CompactionStores(env: Env, d: Disk, c: Cache, r: Record, t: Time, io: AppendIO, tick: int)
    requires FilesSafe(d) && Exact(env, d, c) && c.state.storeId != ""
    requires r.kind == Appended && ApplyEvent(c.state, r).Some?
    requires var done := CompactState(env, d, c, ApplyEvent(c.state, r).value, t, io.compact, tick);
             && done.cache.Some? && !io.compact.CompactCancelled?
             && Conclude(env, done, r.event, io.slot, io.unlocked).ack.Some?
    ensures var done := CompactState(env, d, c, ApplyEvent(c.state, r).value, t, io.compact, tick);
            StoredLast(Conclude(env, done, r.event, io.slot, io.unlocked), r.event.value, r.recordedAt)
  {
    var next := ApplyEvent(c.state, r).value;
    ReplayIsContiguous(d.files[c.inode].visible.lines, "");
    ApplyEventContinues(c.state, r);
    AppliedEventIsLast(c.state, r);
    CompactStateSafe(env, d, c, next, t, io.compact, tick, map[]);
    var done := CompactState(env, d, c, next, t, io.compact, tick);
    ConcludeStores(env, done, r.event.value, r.recordedAt, io.slot, io.unlocked);
  }

  lemma CompactionAcknowledgesNothing(env: Env, d: Disk, c: Cache, source: State, t: Time, io: CompactIO, tick: int)
    requires d.entry.Some?
    ensures CompactState(env, d, c, source, t, io, tick).ack.None?
  {
  }

  lemma PreparedStores(env: Env, d: Disk, c: Cache, r: Record, t: Time, io: AppendIO, tick: int)
    requires FilesSafe(d) && Exact(env, d, c) && c.state.storeId != ""
    requires r.kind == Appended && ApplyEvent(c.state, r).Some?
    requires AppendPrepared(env, d, c, r, ApplyEvent(c.state, r).value, t, io, tick).ack.Some?
    ensures StoredLast(AppendPrepared(env, d, c, r, ApplyEvent(c.state, r).value, t, io, tick), r.event.value,
            r.recordedAt)
  {
    var next := ApplyEvent(c.state, r).value;
    var projected := c.bytes + LineBytes(env, r);
    CompactionAcknowledgesNothing(env, d, c, next, t, io.compact, tick);
    if ShouldCompact(env, c, next, projected, t) == Some(true) {
      CompactionStores(env, d, c, r, t, io, tick);
    } else {
      RecordStores(env, d, c, r, io, tick);
    }
  }

  lemma AppendToStores(env: Env, d: Disk, c: Cache, draft: Draft, now: Time, io: AppendIO, tick: int)
    returns (t: Time)
    requires FilesSafe(d) && Exact(env, d, c) && c.state.storeId != "" && c.state.lastSequence < MAX_UINT64
    requires AppendTo(env, d, c, draft, now, io, tick).ack.Some?
    ensures var o := AppendTo(env, d, c, draft, now, io, tick);
            LaterOf(t, now, c.state.lastRecordedAt) && Carries(draft, o.ack.value, t) && StoredLast(o, o.ack.value, t)
  {
    t := CommitTime(c.state, now);
    var preview := Preview(c.state, draft, t, env.options).value;
    var r := EventRecord(Persisted(c.state, draft, t), t, preview.prunedThrough);
    PreparedAcknowledges(env, d, c, r, ApplyEvent(c.state, r).value, t, io, tick);
    PreparedStores(env, d, c, r, t, io, tick);
  }

  /** In every run: once acknowledged, the submitted event is the last one of the durable journal, stored at the
      commit time, whether it was appended or written by a compaction. */
  lemma AcknowledgedIsStored(env: Env, d: Disk, c: Cache, draft: Draft, now: Time, io: AppendIO, tick: int)
    returns (t: Time)
    requires FilesSafe(d) && CacheSafe(env, d, c) && Append(env, d, c, draft, now, io, tick).ack.Some?
    ensures var o := Append(env, d, c, draft, now, io, tick);
            && Refresh(env, d, c, io.repair, tick).cache.Some?
            && LaterOf(t, now, Refresh(env, d, c, io.repair, tick).cache.value.state.lastRecordedAt)
            && Carries(draft, o.ack.value, t) && StoredLast(o, o.ack.value, t)
  {
    RefreshSafe(env, d, c, io.repair, tick, map[]);
    var r := Refresh(env, d, c, io.repair, tick);
    t := AppendToStores(env, r.disk, r.cache.value, draft, now, io, tick);
  }

  /** Both, for the writer's own method. */
  lemma AppendedIsSubmitted(env: Env, d: Disk, c: Cache, draft: Draft, now: Time, io: AppendIO, tick: int)
    requires Append(env, d, c, draft, now, io, tick).ack.Some?
    ensures var o := Append(env, d, c, draft, now, io, tick);
            var refreshed := Refresh(env, d, c, io.repair, tick).cache;
            && refreshed.Some? && o.ack.value.sequence == refreshed.value.state.lastSequence + 1
            && (exists t :: LaterOf(t, now, refreshed.value.state.lastRecordedAt) && Carries(draft, o.ack.value, t))
            && (FilesSafe(d) && CacheSafe(env, d, c) ==>
                  && o.cache.Some? && Committed(o.disk, o.cache.value.state) && o.cache.value.state.events != []
                  && var last := o.cache.value.state.events[|o.cache.value.state.events| - 1];
                  && last.event == o.ack.value && Carries(draft, o.ack.value, last.recordedAt)
                  && LaterOf(last.recordedAt, now, refreshed.value.state.lastRecordedAt))
  {
    var t := AcknowledgedIsSubmitted(env, d, c, draft, now, io, tick);
    if FilesSafe(d) && CacheSafe(env, d, c) { var u := AcknowledgedIsStored(env, d, c, draft, now, io, tick); }
  }
}
