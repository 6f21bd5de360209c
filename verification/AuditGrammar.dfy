/** Which journals recovery accepts, and what they mean, without reference to the
    recovery loop (internal/audit/journal.go, internal/audit/compaction.go): a
    header or a sealed checkpoint, then events and prunes, each as the writer
    writes it and each lawful after what came before. */
module AuditGrammar {
  import opened Wrappers
  import opened AuditJournal
  import opened AuditReplay
  import opened AuditCompaction

  // ------------------------------------------------------- the grammar

  function HeaderLine(t: Time, id: string): Record {
    Record(Header, t, id, None, 0, None)
  }

  function PruneLine(t: Time, through: U64): Record {
    Record(Prune, t, "", None, through, None)
  }

  /** A journal of just a header. */
  predicate OnlyHeader(lines: seq<Record>, s: State) {
    |lines| == 1 && lines[0] == HeaderLine(lines[0].recordedAt, lines[0].storeId) &&
    lines[0].recordedAt != ZERO_TIME && ValidStoreId(lines[0].storeId) &&
    s == Fresh(lines[0].storeId).(header := true)
  }

  /** A journal of just a sealed checkpoint, of `source` at `t`. */
  predicate Seals(lines: seq<Record>, s: State, source: State, t: Time) {
    Sealable(source) && source.generation < MAX_UINT64 && t != ZERO_TIME &&
    lines == Checkpoint(source, t) && s == Compacted(source, t)
  }

  ghost predicate OnlyCheckpoint(lines: seq<Record>, s: State) {
    exists source, t :: Seals(lines, s, source, t)
  }

  /** The window of `s` without what lies at or below `through`. */
  predicate Cuts(s: State, through: U64, u: State) {
    && |u.events| <= |s.events| && u.events == s.events[|s.events| - |u.events|..]
    && (forall i :: 0 <= i < |s.events| ==>
          (s.events[i].event.sequence > through <==> |s.events| - |u.events| <= i))
    && u == s.(events := u.events, prunedThrough := through,
               hasObsoleteHistory := s.hasObsoleteHistory || through != s.prunedThrough)
  }

  predicate InTime(s: State, t: Time) {
    t != ZERO_TIME && (s.lastRecordedAt == ZERO_TIME || s.lastRecordedAt <= t)
  }

  /** One more event: the next number, no earlier than the last record, pruning no further than its predecessor. */
  predicate AddsEvent(s: State, r: Record, u: State) {
    && r.event.Some? && r == EventRecord(r.event.value, r.recordedAt, r.prunedThrough)
    && ValidEvent(r.event.value) && r.event.value.sequence == s.lastSequence + 1 && InTime(s, r.recordedAt)
    && s.prunedThrough <= r.prunedThrough <= s.lastSequence
    && Cuts(Push(s, r.event.value, r.recordedAt), r.prunedThrough, u)
  }

  /** A prune: forward, and not past the last event. */
  predicate Prunes(s: State, r: Record, u: State) {
    && r == PruneLine(r.recordedAt, r.prunedThrough) && InTime(s, r.recordedAt)
    && s.prunedThrough < r.prunedThrough <= s.lastSequence
    && Cuts(s.(lastRecordedAt := r.recordedAt), r.prunedThrough, u)
  }

  ghost predicate Journal(lines: seq<Record>, s: State)
    decreases |lines|
  {
    || OnlyHeader(lines, s) || OnlyCheckpoint(lines, s)
    || (&& |lines| > 1
        && var init, last := lines[..|lines| - 1], lines[|lines| - 1];
        exists before :: Journal(init, before) && Goes(before, last, s))
  }

  predicate Goes(s: State, r: Record, u: State) {
    AddsEvent(s, r, u) || Prunes(s, r, u)
  }

  // ------------------------------------------------------- one record

  lemma CutsIff(s: State, through: U64, u: State)
    requires Contiguous(s) && s.prunedThrough <= through <= s.lastSequence
    ensures AdvancePrune(s, through) == Some(u) <==> Cuts(s, through, u)
  {
    var drop := through - s.prunedThrough;
    assert s.events[0..] == s.events;
    if Cuts(s, through, u) { CutLength(s, through, |u.events|); }
  }

  lemma CutLength(s: State, through: U64, left: nat)
    requires Contiguous(s) && s.prunedThrough <= through <= s.lastSequence && left <= |s.events|
    requires forall i :: 0 <= i < |s.events| ==> (s.events[i].event.sequence > through <==> |s.events| - left <= i)
    ensures left == s.lastSequence - through
  {
    var cut := |s.events| - left;
    if cut > 0 { assert s.events[cut - 1].event.sequence <= through; }
    if cut < |s.events| { assert s.events[cut].event.sequence > through; }
  }

  lemma EventIff(s: State, r: Record, u: State)
    requires Contiguous(s) && r.kind == Appended
    ensures ApplyEvent(s, r) == Some(u) <==> AddsEvent(s, r, u)
  {
    if r.event.Some? && ValidEvent(r.event.value) && r.event.value.sequence == s.lastSequence + 1 {
      PushContinues(s, Stored(r.event.value, r.recordedAt));
      if s.prunedThrough <= r.prunedThrough <= s.lastSequence {
        CutsIff(Push(s, r.event.value, r.recordedAt), r.prunedThrough, u);
      }
    }
  }

  lemma PruneIff(s: State, r: Record, u: State)
    requires Contiguous(s) && r.kind == Prune
    ensures ApplyPrune(s, r) == Some(u) <==> Prunes(s, r, u)
  {
    if s.prunedThrough < r.prunedThrough <= s.lastSequence {
      CutsIff(s.(lastRecordedAt := r.recordedAt), r.prunedThrough, u);
    }
  }

  // ------------------------------------------------------- the grammar is accepted

  lemma HeaderAccepted(lines: seq<Record>, s: State)
    requires OnlyHeader(lines, s)
    ensures Replay(lines, "") == Some(s)
  {
    assert lines[..|lines| - 1] == [];
    assert ScanLines(Start(""), lines[..|lines| - 1]) == Some(Start(""));
  }

  lemma CheckpointAccepted(lines: seq<Record>, s: State)
    requires OnlyCheckpoint(lines, s)
    ensures Replay(lines, "") == Some(s)
  {
    var source, t :| Seals(lines, s, source, t);
    CheckpointReplays(source, t);
    ReplayExpecting(lines, source.storeId);
  }

  /** One more record after an accepted journal. */
  lemma OneMore(init: seq<Record>, r: Record, before: State, u: State)
    requires init != [] && Replay(init, "") == Some(before)
    ensures Replay(init + [r], "") == Some(u) <==> Goes(before, r, u)
  {
    var lines := init + [r];
    assert lines[..|lines| - 1] == init;
    ScanLinesSound("", init);
    ReplayIsContiguous(init, "");
    var scan := ScanLines(Start(""), init).value;
    if ScanLine(scan, r).Some? { ScanLineContinues(scan, r); }
    if r.kind == Appended {
      EventIff(before, r, u);
    } else if r.kind == Prune {
      PruneIff(before, r, u);
    }
  }

  lemma JournalSplits(lines: seq<Record>, s: State) returns (before: State)
    requires Journal(lines, s) && !OnlyHeader(lines, s) && !OnlyCheckpoint(lines, s)
    ensures |lines| > 1 && Journal(lines[..|lines| - 1], before) && Goes(before, lines[|lines| - 1], s)
  {
    var init, last := lines[..|lines| - 1], lines[|lines| - 1];
    before :| Journal(init, before) && Goes(before, last, s);
  }

  lemma MoreAccepted(lines: seq<Record>, before: State, s: State)
    requires |lines| > 1 && Replay(lines[..|lines| - 1], "") == Some(before) && Goes(before, lines[|lines| - 1], s)
    ensures Replay(lines, "") == Some(s)
  {
    OneMore(lines[..|lines| - 1], lines[|lines| - 1], before, s);
    assert lines == lines[..|lines| - 1] + [lines[|lines| - 1]];
  }

  lemma {:induction false} JournalAccepted(lines: seq<Record>, s: State)
    requires Journal(lines, s)
    ensures lines != [] && Replay(lines, "") == Some(s)
    decreases |lines|
  {
    if OnlyHeader(lines, s) {
      HeaderAccepted(lines, s);
    } else if OnlyCheckpoint(lines, s) {
      CheckpointAccepted(lines, s);
    } else {
      var before := JournalSplits(lines, s);
      JournalAccepted(lines[..|lines| - 1], before);
      MoreAccepted(lines, before, s);
    }
  }

  // ------------------------------------------------------- only the grammar is accepted

  /** Inside a checkpoint: the lines so far are its opening and the events read, and they are what is hashed. */
  predicate Opened(lines: seq<Record>, scan: Scan) {
    && scan.progress.Filling? && lines != []
    && var p := scan.progress;
    && var b := p.boundary;
    && lines == [BoundaryRecord(SnapshotBegin, p.recordedAt, b)] + SnapshotRecords(scan.state.events)
    && p.hashed == lines && p.seen == |scan.state.events| && p.recordedAt != ZERO_TIME
    && b.storeId != "" && b.generation != 0 && b.digest == NoDigest && b.prunedThrough <= b.lastSequence
    && b.eventCount == b.lastSequence - b.prunedThrough
    && scan.state == Fresh(b.storeId).(generation := b.generation, compacted := true, prunedThrough := b.prunedThrough,
                                       lastRecordedAt := p.recordedAt, events := scan.state.events)
    && (forall i :: 0 <= i < |scan.state.events| ==>
          && scan.state.events[i].event.sequence == b.prunedThrough + i + 1
          && ValidEvent(scan.state.events[i].event) && scan.state.events[i].recordedAt != ZERO_TIME)
    && Ascending(scan.state.events)
  }

  lemma OpensCheckpoint(r: Record)
    requires ScanLine(Start(""), r).Some? && ScanLine(Start(""), r).value.progress.Filling?
    ensures Opened([r], ScanLine(Start(""), r).value)
  {
    var scan := ScanLine(Start(""), r).value;
    assert r == BoundaryRecord(SnapshotBegin, r.recordedAt, r.checkpoint.value);
    assert SnapshotRecords(scan.state.events) == [];
  }

  lemma FillsCheckpoint(lines: seq<Record>, scan: Scan, r: Record)
    requires Opened(lines, scan) && ScanLine(scan, r).Some? && ScanLine(scan, r).value.progress.Filling?
    ensures Opened(lines + [r], ScanLine(scan, r).value)
  {
    var next, e := ScanLine(scan, r).value, Stored(r.event.value, r.recordedAt);
    assert r == SnapshotRecord(e) && next.state.events == scan.state.events + [e];
    assert SnapshotRecords(next.state.events) == SnapshotRecords(scan.state.events) + [r];
    AscendingGrows(scan.state.events, e);
  }

  lemma AscendingGrows(events: seq<Stored>, e: Stored)
    requires Ascending(events) && (events != [] ==> events[|events| - 1].recordedAt <= e.recordedAt)
    ensures Ascending(events + [e])
  {
    var all := events + [e];
    forall i, j | 0 <= i < j < |all|
      ensures all[i].recordedAt <= all[j].recordedAt
    {
      if j == |events| && i < |events| - 1 { assert events[i].recordedAt <= events[|events| - 1].recordedAt; }
    }
  }

  lemma {:induction false} StaysOpened(lines: seq<Record>)
    requires ScanLines(Start(""), lines).Some? && ScanLines(Start(""), lines).value.progress.Filling?
    ensures Opened(lines, ScanLines(Start(""), lines).value)
    decreases |lines|
  {
    var init, r := lines[..|lines| - 1], lines[|lines| - 1];
    assert lines == init + [r];
    var before := ScanLines(Start(""), init).value;
    if init == [] {
      OpensCheckpoint(r);
    } else {
      ScanLinesSound("", init);
      OnlyAtStart(before, r);
      StaysOpened(init);
      FillsCheckpoint(init, before, r);
    }
  }

  /** A checkpoint is only opened by the first line. */
  lemma OnlyAtStart(s: Scan, r: Record)
    requires s.lineNumber > 0 && ScanLine(s, r).Some? && ScanLine(s, r).value.progress.Filling?
    ensures s.progress.Filling?
  {
  }

  /** The line that closes a checkpoint makes it the checkpoint of what was read. */
  lemma ClosesCheckpoint(init: seq<Record>, scan: Scan, r: Record) returns (source: State)
    requires Opened(init, scan) && ScanLine(scan, r).Some? && !ScanLine(scan, r).value.progress.Filling?
    ensures Seals(init + [r], ScanLine(scan, r).value.state, source, scan.progress.recordedAt)
  {
    var p, b := scan.progress, scan.progress.boundary;
    source := State(b.storeId, b.generation - 1, false, false, b.lastSequence, b.prunedThrough, ZERO_TIME,
                    scan.state.events, false);
    assert Opening(source) == b;
    assert CheckpointBody(source, p.recordedAt) == init;
    assert r == BoundaryRecord(SnapshotEnd, p.recordedAt, b.(digest := Sum(init)));
  }

  lemma {:induction false} AcceptedIsJournal(lines: seq<Record>, s: State)
    requires lines != [] && Replay(lines, "") == Some(s)
    ensures Journal(lines, s)
    decreases |lines|
  {
    var init, r := lines[..|lines| - 1], lines[|lines| - 1];
    assert lines == init + [r];
    var before := ScanLines(Start(""), init).value;
    if before.progress.Filling? {
      StaysOpened(init);
      var source := ClosesCheckpoint(init, before, r);
    } else if init == [] {
      FirstIsHeader(r, s);
      assert lines == [r];
    } else {
      InitIsComplete(init, r);
      OneMore(init, r, before.state, s);
      AcceptedIsJournal(init, before.state);
    }
  }

  lemma FirstIsHeader(r: Record, s: State)
    requires Replay([r], "") == Some(s)
    ensures OnlyHeader([r], s)
  {
    assert [r][..0] == [];
    assert ScanLines(Start(""), [r]) == ScanLine(Start(""), r);
  }

  lemma HeadKept(s: Scan, r: Record)
    requires s.lineNumber > 0 && !s.progress.Filling? && ScanLine(s, r).Some?
    ensures var next := ScanLine(s, r).value;
            next.state.header == s.state.header && next.state.compacted == s.state.compacted && next.lineNumber > 0
  {
  }

  /** Outside a checkpoint, what precedes the last line of an accepted journal is accepted itself. */
  lemma InitIsComplete(init: seq<Record>, r: Record)
    requires init != [] && Replay(init + [r], "").Some?
    requires ScanLines(Start(""), init).Some? && !ScanLines(Start(""), init).value.progress.Filling?
    ensures Replay(init, "") == Some(ScanLines(Start(""), init).value.state)
  {
    var lines := init + [r];
    assert lines[..|lines| - 1] == init;
    ScanLinesSound("", init);
    HeadKept(ScanLines(Start(""), init).value, r);
  }

  /** Exactly which journals are accepted, and as which states. */
  lemma ReplayIffJournal(lines: seq<Record>, s: State)
    ensures lines != [] && Replay(lines, "") == Some(s) <==> Journal(lines, s)
  {
    if lines != [] && Replay(lines, "") == Some(s) { AcceptedIsJournal(lines, s); }
    if Journal(lines, s) { JournalAccepted(lines, s); }
  }
}
