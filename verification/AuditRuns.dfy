/** Calls, process deaths and machine crashes in any order: exactly which calls are
    crash safe, and what every run of such calls keeps. */
module AuditRuns {
  import opened Wrappers
  import opened AuditJournal
  import opened AuditReplay
  import opened AuditCompaction
  import opened AuditMetadata
  import opened AuditDisk
  import opened AuditOps
  import opened AuditSafety
  import opened AuditLive
  import opened AuditInit
  import opened AuditCrash
  import opened AuditReopen
  import opened AuditStart

  /** A sturdy store and writers that follow it. */
  ghost predicate SturdySys(env: Env, s: Sys, b: State, state: State) {
    Sturdy(env, s.disk, b, state) && LiveSys(env, s, state)
  }

  // ------------------------------------------------------- one call

  lemma RefreshSturdy(env: Env, d: Disk, b: State, s: State, c: Cache, io: RepairIO, tick: int)
    requires Sturdy(env, d, b, s) && CacheLive(env, d, s, c)
    ensures var r := Refresh(env, d, c, io, tick);
            Sturdy(env, r.disk, b, s) && Refreshed(env, d, s, r) && r.ack.None?
  {
    SturdyIsLive(env, d, b, s);
    RefreshSucceeds(env, d, s, c, io, tick);
    RefreshSpan(env, d, b, s, c, io, tick);
    HeaderLockKept(env, d, Refresh(env, d, c, io, tick).disk, b, b);
    RefreshSafe(env, d, c, io, tick, map[]);
  }

  lemma AppendSturdy(env: Env, d: Disk, b: State, s: State, c: Cache, draft: Draft, now: Time, io: AppendIO, tick: int)
    requires Sturdy(env, d, b, s) && CacheLive(env, d, s, c) && draft.kind != ""
    requires Guarded(d, Append(env, d, c, draft, now, io, tick).disk)
    ensures Lasts(env, b, s, Append(env, d, c, draft, now, io, tick).disk,
            AppendTarget(env, d, c, s, draft, now, io, tick))
  {
    RefreshSturdy(env, d, b, s, c, io.repair, tick);
    AppendAfterRefresh(env, d, s, c, draft, now, io, tick);
    var r := Refresh(env, d, c, io.repair, tick);
    if !AppendRefused(r, s, now, io) {
      AppendToSturdy(env, r.disk, b, s, r.cache.value, draft, now, io, tick);
    }
  }

  lemma CompactSturdy(env: Env, d: Disk, b: State, s: State, c: Cache, now: Time, io: CompactionIO, tick: int)
    requires Sturdy(env, d, b, s) && CacheLive(env, d, s, c)
    requires Guarded(d, Compact(env, d, c, now, io, tick).disk)
    ensures Lasts(env, b, s, Compact(env, d, c, now, io, tick).disk, CompactionResult(env, s, now))
  {
    RefreshSturdy(env, d, b, s, c, io.repair, tick);
    var r := Refresh(env, d, c, io.repair, tick);
    if r.cache.Some? && now != ZERO_TIME {
      CompactFromSturdy(env, r.disk, b, s, r.cache.value, now, io, tick);
    }
  }

  /** An append, a compaction, a list or a close. */
  predicate Ordinary(step: Step) {
    step.AppendStep? || step.CompactStep? || step.ListStep? || step.CloseStep?
  }

  /** A call that writes no watermarks, or writes them beside a synced slot, keeps the store sturdy. */
  lemma StepSturdy(env: Env, s: Sys, b: State, state: State, step: Step)
    requires SturdySys(env, s, b, state) && Enabled(s, step) && Ordinary(step) &&
             Guarded(s.disk, Next(env, s, step).disk)
    ensures Lasts(env, b, state, Next(env, s, step).disk, StepTarget(env, s, state, step))
  {
    match step
    case AppendStep(w, draft, now, io, tick) =>
      if draft.kind != "" { AppendSturdy(env, s.disk, b, state, s.writers[w], draft, now, io, tick); }
    case CompactStep(w, now, io, tick) => CompactSturdy(env, s.disk, b, state, s.writers[w], now, io, tick);
    case ListStep(w, io, tick) => RefreshSturdy(env, s.disk, b, state, s.writers[w], io, tick);
    case CloseStep(_) =>
  }

  // ------------------------------------------------------- which calls write watermarks

  /** The same call meeting another fate. */
  predicate SameCall(a: Step, b: Step) {
    match a
    case AppendStep(w, draft, now, _, _) => b.AppendStep? && b.w == w && b.draft == draft && b.now == now
    case CompactStep(w, now, _, _) => b.CompactStep? && b.w == w && b.now == now
    case ListStep(w, _, _) => b.ListStep? && b.w == w
    case _ => a == b
  }

  /** An append to a store whose lock file is `l`, from a refreshed cache, gets as far as the watermarks
      if nothing fails: there is room for one more number, byte, generation and revision. */
  predicate Stores(env: Env, l: Lock, c: Cache, draft: Draft, now: Time) {
    && draft.kind != "" && now != ZERO_TIME && c.state.lastSequence < MAX_UINT64 && Writable(ReadLock(l))
    && var t := CommitTime(c.state, now);
    match Preview(c.state, draft, t, env.options)
    case None => false
    case Some(preview) =>
      var projected := c.bytes + LineBytes(env, EventRecord(Persisted(c.state, draft, t), t, preview.prunedThrough));
      projected <= MAX_INT64 && ShouldCompact(env, c, preview, projected, t).Some?
  }

  predicate Installs(env: Env, l: Lock, s: State, now: Time) {
    && now != ZERO_TIME && Writable(ReadLock(l))
    && match ApplyRetention(s, CommitTime(s, now), env.options)
       case None => false
       case Some(prospective) =>
         (prospective.hasObsoleteHistory || !prospective.compacted) && prospective.generation < MAX_UINT64
  }

  /** Whether the call, undisturbed, writes watermarks: known from the store and the call alone. */
  predicate Persists(env: Env, s: Sys, state: State, step: Step)
    requires Ordinary(step) && step.w in s.writers
  {
    match step
    case AppendStep(w, draft, now, _, _) =>
      var r := Refresh(env, s.disk, s.writers[w], RepairDone, 0);
      r.cache.Some? && Stores(env, s.disk.lock, r.cache.value, draft, now)
    case CompactStep(_, now, _, _) => Installs(env, s.disk.lock, state, now)
    case _ => false
  }

  /** Every fate of a refresh that succeeds ends with the same cache, but for the file's time. */
  lemma RefreshAgrees(env: Env, d: Disk, c: Cache, io: RepairIO, tick: int, other: int)
    requires Refresh(env, d, c, io, tick).cache.Some?
    ensures var a, z := Refresh(env, d, c, io, tick).cache.value, Refresh(env, d, c, RepairDone, other);
            z.cache.Some? && z.cache.value == a.(modTime := z.cache.value.modTime)
  {
  }

  const NOTHING_FAILS := AppendIO(RepairDone, false, CompactDone, WriteDone, SlotDone, true)

  /** What the watermark write of a disk `d` that becomes `d'` may lead to, cut short or left unsynced. */
  ghost predicate SlotEffect(d: Disk, d': Disk, slot: SlotIO) {
    && (slot == SlotTorn(Noise) && !LatestSynced(d) ==> CrashLock(d'.durableLock, d'.lock, RUINED))
    && (slot == SlotNoSync && d.lock == d.durableLock ==> !LatestSynced(d'))
  }

  lemma ConcludeLock(env: Env, o: Outcome, e: Option<Event>, slot: SlotIO, unlocked: bool)
    requires o.cache.Some? && Good(o.cache.value.state)
    ensures var d' := Conclude(env, o, e, slot, unlocked).disk;
            && (!Writable(ReadLock(o.disk.lock)) ==> d'.lock == o.disk.lock)
            && (Writable(ReadLock(o.disk.lock)) ==> SlotEffect(o.disk, d', slot))
            && d'.files == o.disk.files && d'.entry == o.disk.entry && d'.next == o.disk.next
  {
    OwnMetadataFixes(env, o.cache.value.state);
    if Writable(ReadLock(o.disk.lock)) {
      if !LatestSynced(o.disk) { UnsyncedLatestRuins(o.disk, MetadataOf(o.cache.value.state, env.options)); }
      WriteReadsBack(o.disk.lock, MetadataOf(o.cache.value.state, env.options));
    }
  }

  /** A compaction leaves the lock file alone, and undisturbed it installs its checkpoint. */
  lemma CompactStateLock(env: Env, d: Disk, s: State, c: Cache, source: State, t: Time, io: CompactIO, tick: int)
    requires Live(env, d, s) && Exact(env, d, c) && c.state == s
    requires Good(source) && Continues(s, source) && t != ZERO_TIME
    requires source.lastRecordedAt == ZERO_TIME || source.lastRecordedAt <= t
    requires s.lastRecordedAt == ZERO_TIME || s.lastRecordedAt <= t
    ensures var o := CompactState(env, d, c, source, t, io, tick);
            && o.disk.lock == d.lock && o.disk.durableLock == d.durableLock
            && (o.cache.Some? ==> Good(o.cache.value.state))
            && (source.generation == MAX_UINT64 ==> o.cache.None?)
            && (source.generation < MAX_UINT64 && io.CompactDone? ==> o.cache.Some?)
  {
    if source.generation < MAX_UINT64 {
      CompactedFollows(s, source, t);
    }
  }

  lemma CompactAndConcludeLock(env: Env, d: Disk, s: State, c: Cache, source: State, t: Time, io: CompactIO,
                               e: Option<Event>, slot: SlotIO, unlocked: bool, tick: int)
    requires Live(env, d, s) && Exact(env, d, c) && c.state == s
    requires Good(source) && Continues(s, source) && t != ZERO_TIME
    requires source.lastRecordedAt == ZERO_TIME || source.lastRecordedAt <= t
    requires s.lastRecordedAt == ZERO_TIME || s.lastRecordedAt <= t
    ensures var done := CompactState(env, d, c, source, t, io, tick);
            var d' := Concluded(env, done, io, e, slot, unlocked).disk;
            && (d'.lock == d.lock || (source.generation < MAX_UINT64 && Writable(ReadLock(d.lock))))
            && (source.generation < MAX_UINT64 && Writable(ReadLock(d.lock)) && io.CompactDone? ==>
                SlotEffect(d, d', slot))
  {
    CompactStateLock(env, d, s, c, source, t, io, tick);
    var done := CompactState(env, d, c, source, t, io, tick);
    if done.cache.Some? { ConcludeLock(env, done, e, slot, unlocked); }
  }

  lemma AppendRecordLock(env: Env, d: Disk, c: Cache, r: Record, next: State, io: AppendIO, tick: int)
    requires FilesSafe(d) && d.entry.Some? && r.event.Some? && Good(next)
    ensures var d' := AppendRecord(env, d, c, r, next, io, tick).disk;
            && (d'.lock == d.lock || Writable(ReadLock(d.lock)))
            && (Writable(ReadLock(d.lock)) && io.write.WriteDone? ==> SlotEffect(d, d', io.slot))
  {
    var written := WriteRecord(d, r, io.write, tick).0;
    var stored := Outcome(written, Some(CacheOf(env, d.entry.value, next, written.files[d.entry.value])), None);
    ConcludeLock(env, stored, r.event, io.slot, io.unlocked);
  }

  /** The fate that lets a crash ruin the lock file. */
  const TORN := NOTHING_FAILS.(slot := SlotTorn(Noise))

  /** Whether a record leading to `next` gets stored: the store has room for it. */
  predicate HasRoom(env: Env, l: Lock, c: Cache, r: Record, next: State, t: Time) {
    var projected := c.bytes + LineBytes(env, r);
    Writable(ReadLock(l)) && projected <= MAX_INT64 && ShouldCompact(env, c, next, projected, t).Some?
  }

  lemma AppendPreparedIs(env: Env, d: Disk, c: Cache, r: Record, next: State, t: Time, io: AppendIO, tick: int)
    requires d.entry.Some? && d.entry.value in d.files && r.event.Some?
    ensures var o := AppendPrepared(env, d, c, r, next, t, io, tick);
            var projected := c.bytes + LineBytes(env, r);
            if projected > MAX_INT64 || ShouldCompact(env, c, next, projected, t).None? then o == Outcome(d, None, None)
            else if ShouldCompact(env, c, next, projected, t).value then
              o == Concluded(env, CompactState(env, d, c, next, t, io.compact, tick), io.compact, r.event, io.slot,
                io.unlocked)
            else o == AppendRecord(env, d, c, r, next, io, tick)
  {
  }

  lemma AppendPreparedLock(env: Env, d: Disk, s: State, c: Cache, r: Record, next: State, t: Time, io: AppendIO,
                           tick: int)
    requires Live(env, d, s) && Exact(env, d, c) && c.state == s && t != ZERO_TIME
    requires r.kind == Appended && ApplyEvent(s, r) == Some(next) && Follows(s, next) && next.lastRecordedAt == t
    ensures var d' := AppendPrepared(env, d, c, r, next, t, io, tick).disk;
            && (d'.lock == d.lock || HasRoom(env, d.lock, c, r, next, t))
            && (HasRoom(env, d.lock, c, r, next, t) && io.compact.CompactDone? && io.write.WriteDone? ==>
                  SlotEffect(d, d', io.slot))
  {
    AppendPreparedIs(env, d, c, r, next, t, io, tick);
    var projected := c.bytes + LineBytes(env, r);
    if projected <= MAX_INT64 && ShouldCompact(env, c, next, projected, t) == Some(true) {
      CompactAndConcludeLock(env, d, s, c, next, t, io.compact, r.event, io.slot, io.unlocked, tick);
    } else if projected <= MAX_INT64 && ShouldCompact(env, c, next, projected, t) == Some(false) {
      AppendRecordLock(env, d, c, r, next, io, tick);
    }
  }

  /** The record an append of `draft` writes, and the state it leads to. */
  lemma AppendToIs(env: Env, d: Disk, s: State, c: Cache, draft: Draft, now: Time, io: AppendIO, tick: int)
    returns (r: Record, next: State)
    requires Live(env, d, s) && c.state == s
    requires s.lastSequence < MAX_UINT64 && now != ZERO_TIME && draft.kind != ""
    ensures var t := CommitTime(s, now);
            && t != ZERO_TIME && r.kind == Appended && ApplyEvent(s, r) == Some(next) && Follows(s, next)
            && next.lastRecordedAt == t && r.event.Some?
            && AppendTo(env, d, c, draft, now, io, tick) == AppendPrepared(env, d, c, r, next, t, io, tick)
            && (forall l :: Stores(env, l, c, draft, now) <==> HasRoom(env, l, c, r, next, t))
  {
    var t := CommitTime(s, now);
    PreviewIsReplay(s, draft, now, env.options);
    PreviewTimes(s, draft, t, env.options);
    next := Preview(s, draft, t, env.options).value;
    r := EventRecord(Persisted(s, draft, t), t, next.prunedThrough);
  }

  lemma AppendToLock(env: Env, d: Disk, s: State, c: Cache, draft: Draft, now: Time, io: AppendIO, tick: int)
    requires Live(env, d, s) && Exact(env, d, c) && c.state == s
    requires s.lastSequence < MAX_UINT64 && now != ZERO_TIME && draft.kind != ""
    ensures var d' := AppendTo(env, d, c, draft, now, io, tick).disk;
            && (d'.lock == d.lock || Stores(env, d.lock, c, draft, now))
            && (Stores(env, d.lock, c, draft, now) && io == NOTHING_FAILS.(slot := io.slot) ==>
                  SlotEffect(d, d', io.slot))
  {
    var r, next := AppendToIs(env, d, s, c, draft, now, io, tick);
    AppendPreparedLock(env, d, s, c, r, next, CommitTime(s, now), io, tick);
  }

  lemma AppendLock(env: Env, d: Disk, b: State, s: State, c: Cache, draft: Draft, now: Time, io: AppendIO, tick: int)
    requires Sturdy(env, d, b, s) && CacheLive(env, d, s, c)
    ensures var d' := Append(env, d, c, draft, now, io, tick).disk;
            var r := Refresh(env, d, c, RepairDone, 0);
            var stores := r.cache.Some? && Stores(env, d.lock, r.cache.value, draft, now);
            && (d'.lock == d.lock || stores)
            && (stores && io == NOTHING_FAILS.(slot := io.slot) ==> SlotEffect(d, d', io.slot))
  {
    if draft.kind != "" {
      RefreshSturdy(env, d, b, s, c, io.repair, tick);
      AppendAfterRefresh(env, d, s, c, draft, now, io, tick);
      var r := Refresh(env, d, c, io.repair, tick);
      SturdyIsLive(env, d, b, s);
      RefreshSucceeds(env, d, s, c, RepairDone, tick);
      RefreshSucceeds(env, d, s, c, RepairDone, 0);
      if r.cache.Some? { RefreshAgrees(env, d, c, io.repair, tick, 0); }
      if !AppendRefused(r, s, now, io) {
        AppendToLock(env, r.disk, s, r.cache.value, draft, now, io, tick);
      }
    }
  }

  const TORN_COMPACTION := CompactionIO(RepairDone, CompactDone, SlotTorn(Noise), true)

  lemma CompactLock(env: Env, d: Disk, b: State, s: State, c: Cache, now: Time, io: CompactionIO, tick: int)
    requires Sturdy(env, d, b, s) && CacheLive(env, d, s, c)
    ensures var d' := Compact(env, d, c, now, io, tick).disk;
            && (d'.lock == d.lock || Installs(env, d.lock, s, now))
            && (Installs(env, d.lock, s, now) && io == TORN_COMPACTION ==> SlotEffect(d, d', io.slot))
  {
    RefreshSturdy(env, d, b, s, c, io.repair, tick);
    SturdyIsLive(env, d, b, s);
    RefreshSucceeds(env, d, s, c, io.repair, tick);
    var r := Refresh(env, d, c, io.repair, tick);
    if r.cache.Some? && now != ZERO_TIME {
      CompactFromLock(env, r.disk, s, r.cache.value, now, io, tick);
    }
  }

  lemma CompactFromLock(env: Env, d: Disk, s: State, c: Cache, now: Time, io: CompactionIO, tick: int)
    requires Live(env, d, s) && Exact(env, d, c) && c.state == s && now != ZERO_TIME
    ensures var d' := CompactFrom(env, d, c, now, io, tick).disk;
            && (d'.lock == d.lock || Installs(env, d.lock, s, now))
            && (Installs(env, d.lock, s, now) && io == TORN_COMPACTION ==> SlotEffect(d, d', io.slot))
  {
    var t := CommitTime(s, now);
    RetentionIsExact(s, t, env.options);
    var prospective := ApplyRetention(s, t, env.options).value;
    if prospective.hasObsoleteHistory || !prospective.compacted {
      CompactAndConcludeLock(env, d, s, c, prospective, t, io.compact, None, io.slot, io.unlocked, tick);
    }
  }

  lemma StepLock(env: Env, s: Sys, b: State, state: State, step: Step)
    requires SturdySys(env, s, b, state) && Enabled(s, step) && Ordinary(step)
    ensures Next(env, s, step).disk.lock == s.disk.lock || Persists(env, s, state, step)
  {
    match step
    case AppendStep(w, draft, now, io, tick) => AppendLock(env, s.disk, b, state, s.writers[w], draft, now, io, tick);
    case CompactStep(w, now, io, tick) => CompactLock(env, s.disk, b, state, s.writers[w], now, io, tick);
    case ListStep(w, io, tick) => RefreshSturdy(env, s.disk, b, state, s.writers[w], io, tick);
    case CloseStep(_) =>
  }

  // ------------------------------------------------------- exactly the crash safe calls

  /** At or after what was durable, and no further than the call leads. */
  predicate Between(b: State, u: State, s: State, t: State) {
    Follows(b, u) && (Follows(u, s) || Follows(u, t))
  }

  /** However the call goes, and whatever a crash then leaves: a healthy store between what was durable and the
      call's target. */
  ghost predicate CallIsCrashSafe(env: Env, s: Sys, b: State, state: State, step: Step)
    requires Ordinary(step) && step.w in s.writers
  {
    forall again, left :: SameCall(step, again) && Crash(Next(env, s, again).disk, left) ==>
      exists u :: Holding(env, left, u) && Between(b, u, state, StepTarget(env, s, state, again))
  }

  lemma LastsCrashes(env: Env, b: State, s: State, d: Disk, t: State, left: Disk) returns (u: State)
    requires Lasts(env, b, s, d, t) && Crash(d, left) && Good(b) && (Sturdy(env, d, t, t) ==> Follows(b, t))
    ensures Holding(env, left, u) && Between(b, u, s, t)
  {
    if Sturdy(env, d, b, s) {
      u := SturdyCrashes(env, d, b, s, left);
    } else if Sturdy(env, d, b, t) {
      u := SturdyCrashes(env, d, b, t, left);
    } else {
      u := SturdyCrashes(env, d, t, t, left);
      FollowsTransitive(b, t, u);
    }
  }

  /** The state a sturdy disk ends in follows the one it started from. */
  lemma TargetFollows(env: Env, s: Sys, b: State, state: State, step: Step)
    requires SturdySys(env, s, b, state) && Enabled(s, step) && Ordinary(step)
    requires var t := StepTarget(env, s, state, step); Sturdy(env, Next(env, s, step).disk, t, t)
    ensures Follows(b, StepTarget(env, s, state, step))
  {
    var t := StepTarget(env, s, state, step);
    var after := StepLive(env, s, state, step);
    SturdyIsLive(env, s.disk, b, state);
    FollowsTransitive(b, state, after);
    assert after == t;
  }

  lemma CallIsCrashSafeWhen(env: Env, s: Sys, b: State, state: State, step: Step, again: Step,
                            left: Disk)
    returns (u: State)
    requires SturdySys(env, s, b, state) && Enabled(s, step) && Ordinary(step)
    requires LatestSynced(s.disk) || !Persists(env, s, state, step)
    requires SameCall(step, again) && Crash(Next(env, s, again).disk, left)
    ensures Holding(env, left, u) && Between(b, u, state, StepTarget(env, s, state, again))
  {
    StepLock(env, s, b, state, again);
    StepSturdy(env, s, b, state, again);
    var d, t := Next(env, s, again).disk, StepTarget(env, s, state, again);
    if Sturdy(env, d, t, t) { TargetFollows(env, s, b, state, again); }
    u := LastsCrashes(env, b, state, d, t, left);
  }

  /** The call at its worst: everything works until the watermarks, whose write is cut short. */
  function Worst(step: Step): Step
    requires Ordinary(step)
  {
    match step
    case AppendStep(w, draft, now, _, _) => AppendStep(w, draft, now, TORN, 0)
    case CompactStep(w, now, _, _) => CompactStep(w, now, TORN_COMPACTION, 0)
    case _ => step
  }

  /** Beside an unsynced slot, a call that writes watermarks can leave a store that no process opens again. */
  lemma UnsyncedSlotStrandsCall(env: Env, s: Sys, b: State, state: State, step: Step) returns (left: Disk)
    requires SturdySys(env, s, b, state) && Enabled(s, step) && Ordinary(step)
    requires !LatestSynced(s.disk) && Persists(env, s, state, step)
    ensures SameCall(step, Worst(step)) && Crash(Next(env, s, Worst(step)).disk, left)
    ensures Stranded(env, left) && !Healthy(env, left)
  {
    var worst := Worst(step);
    match worst {
      case AppendStep(w, draft, now, io, tick) => AppendLock(env, s.disk, b, state, s.writers[w], draft, now, io, tick);
      case CompactStep(w, now, io, tick) => CompactLock(env, s.disk, b, state, s.writers[w], now, io, tick);
      case _ =>
    }
    var after := StepLive(env, s, state, worst);
    var d := Next(env, s, worst).disk;
    var i := d.entry.value;
    left := Restored(d, i, d.files[i].durable.lines, RUINED);
    RestoredIsCrash(d, i, RUINED);
    RuinedIsStranded(env, left);
  }

  /** Exactly when an append, a compaction, a list or a close is crash safe. Take any store that a crash now
      would leave healthy, whatever other processes left unfinished in it. Every crash at any point of the
      call leaves a healthy store, between what was durable and what the call leads to, if and only if the
      call writes no watermarks or the slot it does not overwrite is synced. */
  lemma CallCrashSafeIff(env: Env, s: Sys, b: State, state: State, step: Step)
    requires SturdySys(env, s, b, state) && Enabled(s, step) && Ordinary(step)
    ensures CallIsCrashSafe(env, s, b, state, step) <==> LatestSynced(s.disk) || !Persists(env, s, state, step)
  {
    if LatestSynced(s.disk) || !Persists(env, s, state, step) {
      forall again, left | SameCall(step, again) && Crash(Next(env, s, again).disk, left)
        ensures exists u :: Holding(env, left, u) && Between(b, u, state, StepTarget(env, s, state, again))
      {
        var u := CallIsCrashSafeWhen(env, s, b, state, step, again, left);
      }
    } else {
      var left := UnsyncedSlotStrandsCall(env, s, b, state, step);
    }
  }

  // ------------------------------------------------------- runs

  function StateOf(d: Disk): Option<State> {
    if d.entry.Some? && d.entry.value in d.files then Replay(d.files[d.entry.value].visible.lines, "") else None
  }

  /** A step that the lemmas above and those of AuditReopen and AuditStart call crash safe, or a crash. */
  ghost predicate Prudent(env: Env, s: Sys, step: Step) {
    && Enabled(s, step) && (Initial(env, s.disk) || StateOf(s.disk).Some?)
    && match step
       case OpenStep(_, newId, now, io, _) =>
         if Initial(env, s.disk) then
           SafeToStart(s.disk) && ValidStoreId(newId) && now != ZERO_TIME && HeaderIO(s.disk, newId, io)
         else SafeToOpen(env, s.disk, StateOf(s.disk).value)
       case CrashStep(left) => Crash(s.disk, left)
       case _ => !Initial(env, s.disk) && (LatestSynced(s.disk) || !Persists(env, s, StateOf(s.disk).value, step))
  }

  ghost predicate PrudentRun(env: Env, s: Sys, steps: seq<Step>)
    decreases |steps|
  {
    steps != [] ==> Prudent(env, s, steps[0]) && PrudentRun(env, Next(env, s, steps[0]), steps[1..])
  }

  lemma {:induction false} PrudentRuns(env: Env, s: Sys, steps: seq<Step>)
    requires PrudentRun(env, s, steps)
    ensures Run(env, s, steps)
    decreases |steps|
  {
    if steps != [] { PrudentRuns(env, Next(env, s, steps[0]), steps[1..]); }
  }

  /** No crash loses `b`: nothing while not even the identity is durable, the empty store once that is,
      and then whatever state the journal has reached on durable storage. */
  ghost predicate Founded(env: Env, s: Sys, b: Option<State>) {
    || InWindow(env, s, b)
    || (b.Some? && exists state :: SturdySys(env, s, b.value, state))
  }

  /** Still initialising. */
  ghost predicate InWindow(env: Env, s: Sys, b: Option<State>) {
    && WindowSturdy(env, s.disk) && s.writers == map[] && DiskSafe(s.disk, s.acked)
    && (b.Some? ==> b.value == HeaderState(b.value.storeId) && PristineLock(env, s.disk, b.value.storeId))
  }

  predicate Kept(b: Option<State>, b': Option<State>) {
    b.Some? ==> b'.Some? && Follows(b.value, b'.value)
  }

  lemma WindowOpens(env: Env, s: Sys, b: Option<State>, step: Step) returns (b': Option<State>)
    requires InWindow(env, s, b) && step.OpenStep? && Prudent(env, s, step)
    ensures Founded(env, Next(env, s, step), b') && Kept(b, b')
  {
    var id, s' := Identity(s.disk, step.newId), Next(env, s, step);
    OpenStarts(env, s.disk, step.newId, step.now, step.openIO, step.tick);
    OpenWindow(env, s.disk, step.newId, step.now, step.openIO, step.tick);
    OpenSafe(env, s.disk, step.newId, step.now, step.openIO, step.tick, s.acked);
    var o := Open(env, s.disk, step.newId, step.now, step.openIO, step.tick);
    if b.Some? { BaseIsGood(env, s, b.value); }
    if WindowSturdy(env, o.disk) {
      b' := b;
      assert o.cache.None?;
      assert InWindow(env, s', b');
    } else {
      b' := Some(HeaderState(id));
      SturdyIsLive(env, o.disk, HeaderState(id), HeaderState(id));
      assert SturdySys(env, s', HeaderState(id), HeaderState(id));
    }
  }

  lemma BaseIsGood(env: Env, s: Sys, b: State)
    requires InWindow(env, s, Some(b))
    ensures Follows(b, b)
  {
    assert ValidStoreId(b.storeId);
    FollowsReflexive(b);
  }

  lemma PristineCrash(env: Env, d: Disk, id: string, left: Disk)
    requires PristineLock(env, d, id) && Crash(d, left)
    ensures PristineLock(env, left, id)
  {
    assert left.lock == d.lock;
  }

  lemma WindowCrashes(env: Env, s: Sys, b: Option<State>, left: Disk)
    requires InWindow(env, s, b) && Crash(s.disk, left)
    ensures InWindow(env, Next(env, s, CrashStep(left)), b) && Kept(b, b)
  {
    WindowSturdyCrashes(env, s.disk, left);
    CrashSafe(s.disk, left, s.acked);
    if b.Some? {
      BaseIsGood(env, s, b.value);
      PristineCrash(env, s.disk, b.value.storeId, left);
    }
  }

  lemma LiveIsFounded(env: Env, s: Sys, u: State)
    requires Sturdy(env, s.disk, u, u) && DiskSafe(s.disk, s.acked) && s.writers == map[]
    ensures Founded(env, s, Some(u))
  {
    SturdyIsLive(env, s.disk, u, u);
    assert SturdySys(env, s, u, u);
  }

  lemma LostIsFounded(env: Env, s: Sys, u: State)
    requires Holding(env, s.disk, u) && !Live(env, s.disk, u) && Settled(s.disk) && PristineLock(env, s.disk, u.storeId)
    requires DiskSafe(s.disk, s.acked) && s.writers == map[]
    ensures Founded(env, s, Some(u))
  {
    SettledWindowIsSturdy(env, s.disk);
    assert InWindow(env, s, Some(u));
  }

  lemma SturdySysCrashes(env: Env, s: Sys, b: State, state: State, left: Disk) returns (b': Option<State>)
    requires SturdySys(env, s, b, state) && Crash(s.disk, left)
    ensures Founded(env, Next(env, s, CrashStep(left)), b') && Kept(Some(b), b')
  {
    var u := SturdyCrashes(env, s.disk, b, state, left);
    CrashSafe(s.disk, left, s.acked);
    b' := Some(u);
    if Live(env, left, u) {
      LiveIsFounded(env, Next(env, s, CrashStep(left)), u);
    } else {
      LostIsFounded(env, Next(env, s, CrashStep(left)), u);
    }
  }

  /** Two sturdy views of one disk agree on its state. */
  lemma SturdyStateIs(env: Env, d: Disk, b: State, s: State, t: State)
    requires Sturdy(env, d, b, s) && JournalIs(d, t)
    ensures s == t
  {
  }

  lemma OpenStepSturdy(env: Env, s: Sys, b: State, state: State, step: Step) returns (b': State)
    requires SturdySys(env, s, b, state) && step.OpenStep? && Prudent(env, s, step)
    ensures SturdySys(env, Next(env, s, step), b', state) && Follows(b, b')
  {
    SturdyIsLive(env, s.disk, b, state);
    OpenSturdy(env, s.disk, b, state, step.newId, step.now, step.openIO, step.tick);
    var after := StepLive(env, s, state, step);
    var d := Next(env, s, step).disk;
    FollowsReflexive(b);
    b' := if Sturdy(env, d, b, state) then b else state;
    SturdyStateIs(env, d, b', state, after);
  }

  lemma OrdinaryStepSturdy(env: Env, s: Sys, b: State, state: State, step: Step) returns (b': State, after: State)
    requires SturdySys(env, s, b, state) && Ordinary(step) && Prudent(env, s, step)
    ensures SturdySys(env, Next(env, s, step), b', after) && Follows(b, b')
  {
    StepLock(env, s, b, state, step);
    StepSturdy(env, s, b, state, step);
    after := StepLive(env, s, state, step);
    var d, t := Next(env, s, step).disk, StepTarget(env, s, state, step);
    FollowsReflexive(b);
    b' := if Sturdy(env, d, b, state) || Sturdy(env, d, b, t) then b else t;
    if b' == t { TargetFollowsOr(env, s, b, state, step); }
    SturdyStateIs(env, d, b', if Sturdy(env, d, b, state) then state else t, after);
  }

  lemma TargetFollowsOr(env: Env, s: Sys, b: State, state: State, step: Step)
    requires SturdySys(env, s, b, state) && Enabled(s, step) && Ordinary(step)
    ensures var t := StepTarget(env, s, state, step);
            Sturdy(env, Next(env, s, step).disk, t, t) ==> Follows(b, t)
  {
    var t := StepTarget(env, s, state, step);
    if Sturdy(env, Next(env, s, step).disk, t, t) { TargetFollows(env, s, b, state, step); }
  }

  /** One prudent step of a founded store. */
  lemma StepFounded(env: Env, s: Sys, b: Option<State>, step: Step) returns (b': Option<State>)
    requires Founded(env, s, b) && Prudent(env, s, step)
    ensures Founded(env, Next(env, s, step), b') && Kept(b, b')
  {
    if InWindow(env, s, b) {
      if step.OpenStep? {
        b' := WindowOpens(env, s, b, step);
      } else {
        WindowCrashes(env, s, b, step.left);
        b' := b;
      }
    } else {
      var state :| SturdySys(env, s, b.value, state);
      match step {
        case OpenStep(_, _, _, _, _) =>
          var c := OpenStepSturdy(env, s, b.value, state, step);
          b' := Some(c);
        case CrashStep(left) => b' := SturdySysCrashes(env, s, b.value, state, left);
        case _ =>
          var c, after := OrdinaryStepSturdy(env, s, b.value, state, step);
          b' := Some(c);
      }
    }
  }

  lemma KeptReflexive(env: Env, s: Sys, b: Option<State>)
    requires Founded(env, s, b)
    ensures Kept(b, b)
  {
    if b.Some? {
      if InWindow(env, s, b) { BaseIsGood(env, s, b.value); } else { FollowsReflexive(b.value); }
    }
  }

  lemma KeptTransitive(a: Option<State>, b: Option<State>, c: Option<State>)
    requires Kept(a, b) && Kept(b, c)
    ensures Kept(a, c)
  {
    if a.Some? { FollowsTransitive(a.value, b.value, c.value); }
  }

  lemma {:induction false} RunFounded(env: Env, s: Sys, b: Option<State>, steps: seq<Step>) returns (b': Option<State>)
    requires Founded(env, s, b) && PrudentRun(env, s, steps) && Run(env, s, steps)
    ensures Founded(env, Last(env, s, steps), b') && Kept(b, b')
    decreases |steps|
  {
    if steps == [] {
      b' := b;
      KeptReflexive(env, s, b);
    } else {
      var mid := StepFounded(env, s, b, steps[0]);
      b' := RunFounded(env, Next(env, s, steps[0]), mid, steps[1..]);
      KeptTransitive(b, mid, b');
    }
  }

  /** What a crash leaves of a founded store. */
  ghost predicate LeftOf(env: Env, b: Option<State>, left: Disk) {
    if b.None? then Initial(env, left) || Healthy(env, left)
    else exists u :: Holding(env, left, u) && Follows(b.value, u)
  }

  lemma FoundedCrashes(env: Env, s: Sys, b: Option<State>, left: Disk)
    requires Founded(env, s, b) && Crash(s.disk, left)
    ensures LeftOf(env, b, left)
  {
    if InWindow(env, s, b) {
      WindowCrashes(env, s, b, left);
    } else {
      var state :| SturdySys(env, s, b.value, state);
      var u := SturdyCrashes(env, s.disk, b.value, state, left);
    }
  }

  lemma LeftOfKept(env: Env, b: Option<State>, b': Option<State>, left: Disk)
    requires Kept(b, b') && LeftOf(env, b', left)
    ensures LeftOf(env, b, left)
  {
    if b.Some? {
      var u :| Holding(env, left, u) && Follows(b'.value, u);
      FollowsTransitive(b.value, b'.value, u);
    }
  }

  /** A successful Open in a state that has lost nothing of `b`. */
  predicate Reopens(b: Option<State>, o: Outcome) {
    o.cache.Some? && (b.Some? ==> Follows(b.value, o.cache.value.state))
  }

  lemma LeftOpens(env: Env, b: Option<State>, left: Disk, newId: string, now: Time, tick: int)
    requires LeftOf(env, b, left) && RevisionOf(ReadLock(left.lock)) < MAX_UINT64
    requires ValidStoreId(newId) && now != ZERO_TIME
    ensures Reopens(b, Open(env, left, newId, now, UNDISTURBED, tick))
  {
    if b.None? && Initial(env, left) {
      OpenWindow(env, left, newId, now, UNDISTURBED, tick);
    } else {
      var u :| Holding(env, left, u) && (b.Some? ==> Follows(b.value, u));
      HoldingOpens(env, left, u, newId, now, tick);
    }
  }

  /** A founded store opens, and every writer of it refreshes to the full replay. */
  lemma FoundedServes(env: Env, s: Sys, b: Option<State>, w: nat, newId: string, now: Time, tick: int)
    requires Founded(env, s, b) && ValidStoreId(newId) && now != ZERO_TIME
    ensures RevisionOf(ReadLock(s.disk.lock)) < MAX_UINT64 ==>
              Open(env, s.disk, newId, now, UNDISTURBED, tick).cache.Some?
    ensures w in s.writers ==>
              var r := Refresh(env, s.disk, s.writers[w], RepairDone, tick);
              r.cache.Some? && Some(r.cache.value.state) == StateOf(s.disk)
  {
    if InWindow(env, s, b) {
      OpenWindow(env, s.disk, newId, now, UNDISTURBED, tick);
    } else {
      var state :| SturdySys(env, s, b.value, state);
      SturdyIsLive(env, s.disk, b.value, state);
      if RevisionOf(ReadLock(s.disk.lock)) < MAX_UINT64 { HealthyOpens(env, s.disk, state, newId, now, tick); }
      if w in s.writers { RefreshSucceeds(env, s.disk, state, s.writers[w], RepairDone, tick); }
    }
  }

  /** Opens, appends, compactions, lists and closes by any number of writers, each of them dying anywhere,
      and machine crashes, in any order, from an empty directory or any founded store, as long as no call
      starts that the theorems call unsafe. After that every remaining writer refreshes to the full replay,
      any process can open the store, and after any crash too, with nothing lost of what was durable at the
      start. */
  lemma DeathsAndCrashes(env: Env, s: Sys, b: Option<State>, steps: seq<Step>, left: Disk, w: nat, newId: string,
                         now: Time, tick: int)
    requires Founded(env, s, b) && PrudentRun(env, s, steps) && Run(env, s, steps)
    requires Crash(Last(env, s, steps).disk, left) && ValidStoreId(newId) && now != ZERO_TIME
    ensures RevisionOf(ReadLock(left.lock)) < MAX_UINT64 ==> Reopens(b, Open(env, left, newId, now, UNDISTURBED, tick))
    ensures var last := Last(env, s, steps);
            && (RevisionOf(ReadLock(last.disk.lock)) < MAX_UINT64 ==>
                Open(env, last.disk, newId, now, UNDISTURBED, tick).cache.Some?)
            && (w in last.writers ==>
                  var r := Refresh(env, last.disk, last.writers[w], RepairDone, tick);
                  r.cache.Some? && Some(r.cache.value.state) == StateOf(last.disk))
  {
    var b' := RunFounded(env, s, b, steps);
    var last := Last(env, s, steps);
    FoundedCrashes(env, last, b', left);
    LeftOfKept(env, b, b', left);
    if RevisionOf(ReadLock(left.lock)) < MAX_UINT64 { LeftOpens(env, b, left, newId, now, tick); }
    FoundedServes(env, last, b', w, newId, now, tick);
  }

  /** Nothing yet: an empty directory and no writers. */
  const NO_SYS := Sys(NOTHING, map[], map[])

  lemma NothingIsFounded(env: Env)
    ensures Founded(env, NO_SYS, None)
  {
    NothingIsSturdy(env);
  }

  // ------------------------------------------------------- a run that strands the store

  const LEFT_UNSYNCED := NOTHING_FAILS.(slot := SlotNoSync)

  /** From any healthy settled store: one writer dies between writing its slot and syncing it, the next
      call that writes watermarks dies in the middle of that, and the machine crashes. No process opens
      the store again, although both calls started from a store that every crash would have left healthy. */
  lemma TwoDeathsStrandStore(env: Env, s: Sys, state: State, w: nat, draft: Draft, now: Time, tick: int, next: Step)
    returns (left: Disk)
    requires LiveSys(env, s, state) && Settled(s.disk) && w in s.writers
    requires var first := AppendStep(w, draft, now, LEFT_UNSYNCED, tick);
             Persists(env, s, state, first) && Ordinary(next) && next.w in Next(env, s, first).writers &&
             StateOf(Next(env, s, first).disk).Some? &&
             Persists(env, Next(env, s, first), StateOf(Next(env, s, first).disk).value, next)
    ensures var first := AppendStep(w, draft, now, LEFT_UNSYNCED, tick);
            && Run(env, s, [first, Worst(next)]) && Crash(Next(env, Next(env, s, first), Worst(next)).disk, left)
            && Stranded(env, left)
  {
    var first := AppendStep(w, draft, now, LEFT_UNSYNCED, tick);
    SettledIsSturdy(env, s.disk, state);
    assert Prudent(env, s, first);
    var b, after := OrdinaryStepSturdy(env, s, state, state, first);
    AppendLock(env, s.disk, state, state, s.writers[w], draft, now, LEFT_UNSYNCED, tick);
    var s1 := Next(env, s, first);
    left := UnsyncedSlotStrandsCall(env, s1, b, after, next);
    assert [first, Worst(next)][1..] == [Worst(next)] && [Worst(next)][1..] == [];
    assert Run(env, s1, [Worst(next)]);
  }
}
