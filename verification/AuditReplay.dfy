/** What replay guarantees: every accepted journal is a contiguous window, a
    longer journal continues a shorter one, and a sealed checkpoint means what
    the journal it replaced meant (internal/audit/journal.go, internal/audit/compaction.go). */
module AuditReplay {
  import opened Wrappers
  import opened AuditJournal

  // ------------------------------------------------------- every journal

  lemma {:induction false} ScanConcat(s: Scan, a: seq<Record>, b: seq<Record>)
    ensures ScanLines(s, a + b) ==
            (match ScanLines(s, a)
             case None => None
             case Some(mid) => ScanLines(mid, b))
    decreases |b|
  {
    if b == [] {
      assert a + b == a;
    } else {
      var b' := b[..|b| - 1];
      assert (a + b)[..|a + b| - 1] == a + b';
      ScanConcat(s, a, b');
    }
  }

  /** Holds after every line of every journal, whatever it holds. */
  predicate Sound(s: Scan) {
    && (s.lineNumber == 0 ==> s.state == Fresh(s.state.storeId) && s.progress == Absent)
    && (s.state.header || s.state.compacted ==> s.state.storeId != "")
    && match s.progress
       case Filling(b, _, _, seen) =>
         && s.state.compacted && s.state.prunedThrough == b.prunedThrough && s.state.lastSequence == 0
         && b.prunedThrough <= b.lastSequence && b.eventCount == b.lastSequence - b.prunedThrough
         && |s.state.events| == seen <= b.eventCount
         && (forall i :: 0 <= i < seen ==> s.state.events[i].event.sequence == b.prunedThrough + i + 1)
       case _ => Contiguous(s.state)
  }

  lemma AdvancePruneContinues(s: State, through: U64)
    requires Contiguous(s) && s.prunedThrough <= through <= s.lastSequence
    ensures AdvancePrune(s, through).Some?
    ensures Contiguous(AdvancePrune(s, through).value)
    ensures s.storeId != "" ==> Continues(s, AdvancePrune(s, through).value)
  {
    if through != s.prunedThrough {
      var drop := through - s.prunedThrough;
      var t := AdvancePrune(s, through).value;
      assert t.events == s.events[drop..];
      forall i | 0 <= i < |s.events| && s.events[i].event.sequence > through
        ensures Retained(s.events[i], t)
      {
        assert t.events[i - drop] == s.events[i];
      }
    }
  }

  lemma PushContinues(s: State, e: Stored)
    requires Contiguous(s) && e.event.sequence == s.lastSequence + 1
    ensures var t := s.(events := s.events + [e], lastSequence := e.event.sequence, lastRecordedAt := e.recordedAt);
            Contiguous(t) && (s.storeId != "" ==> Continues(s, t))
  {
  }

  lemma ApplyEventContinues(s: State, r: Record)
    requires Contiguous(s) && ApplyEvent(s, r).Some?
    ensures Contiguous(ApplyEvent(s, r).value)
    ensures s.storeId != "" ==> Continues(s, ApplyEvent(s, r).value)
  {
    var e := Stored(r.event.value, r.recordedAt);
    var t := s.(events := s.events + [e], lastSequence := e.event.sequence, lastRecordedAt := e.recordedAt);
    PushContinues(s, e);
    AdvancePruneContinues(t, r.prunedThrough);
    if s.storeId != "" {
      ContinuesTransitive(s, t, ApplyEvent(s, r).value);
    }
  }

  lemma ApplyPruneContinues(s: State, r: Record)
    requires Contiguous(s) && ApplyPrune(s, r).Some?
    ensures Contiguous(ApplyPrune(s, r).value)
    ensures s.storeId != "" ==> Continues(s, ApplyPrune(s, r).value)
  {
    AdvancePruneContinues(s.(lastRecordedAt := r.recordedAt), r.prunedThrough);
  }

  lemma ScanCheckpointSound(s: Scan, r: Record)
    requires Sound(s) && s.progress.Filling? && ScanCheckpoint(s, r).Some?
    ensures Sound(ScanCheckpoint(s, r).value)
    ensures ScanCheckpoint(s, r).value.lineNumber == s.lineNumber + 1
  {
  }

  lemma ScanHeaderSound(s: Scan, r: Record)
    requires Sound(s) && !s.progress.Filling? && r.kind == Header && ScanLine(s, r).Some?
    ensures Sound(ScanLine(s, r).value)
    ensures ScanLine(s, r).value.lineNumber == s.lineNumber + 1
  {
  }

  lemma ScanBeginSound(s: Scan, r: Record)
    requires Sound(s) && !s.progress.Filling? && r.kind == SnapshotBegin && ScanLine(s, r).Some?
    ensures Sound(ScanLine(s, r).value)
    ensures ScanLine(s, r).value.lineNumber == s.lineNumber + 1
  {
    assert s.state == Fresh(s.state.storeId);
  }

  lemma ScanEventSound(s: Scan, r: Record)
    requires Sound(s) && !s.progress.Filling? && r.kind == Appended && ScanLine(s, r).Some?
    ensures Sound(ScanLine(s, r).value)
    ensures ScanLine(s, r).value.lineNumber == s.lineNumber + 1
  {
    ApplyEventContinues(s.state, r);
  }

  lemma ScanPruneSound(s: Scan, r: Record)
    requires Sound(s) && !s.progress.Filling? && r.kind == Prune && ScanLine(s, r).Some?
    ensures Sound(ScanLine(s, r).value)
    ensures ScanLine(s, r).value.lineNumber == s.lineNumber + 1
  {
    ApplyPruneContinues(s.state, r);
  }

  lemma ScanLineSound(s: Scan, r: Record)
    requires Sound(s) && ScanLine(s, r).Some?
    ensures Sound(ScanLine(s, r).value)
    ensures ScanLine(s, r).value.lineNumber == s.lineNumber + 1
  {
    if s.progress.Filling? {
      ScanCheckpointSound(s, r);
    } else if r.kind == Appended {
      ScanEventSound(s, r);
    } else if r.kind == Prune {
      ScanPruneSound(s, r);
    } else if r.kind == Header {
      ScanHeaderSound(s, r);
    } else {
      ScanBeginSound(s, r);
    }
  }

  lemma {:induction false} ScanLinesSound(expected: string, lines: seq<Record>)
    requires ScanLines(Start(expected), lines).Some?
    ensures Sound(ScanLines(Start(expected), lines).value)
    ensures ScanLines(Start(expected), lines).value.lineNumber == |lines|
    decreases |lines|
  {
    if lines != [] {
      ScanLinesSound(expected, lines[..|lines| - 1]);
      ScanLineSound(ScanLines(Start(expected), lines[..|lines| - 1]).value, lines[|lines| - 1]);
    }
  }

  /** Every journal that replays at all, hostile or not, replays to a contiguous window. */
  lemma ReplayIsContiguous(lines: seq<Record>, expected: string)
    requires Replay(lines, expected).Some?
    ensures Contiguous(Replay(lines, expected).value)
    ensures lines != [] ==> Replay(lines, expected).value.storeId != ""
  {
    ScanLinesSound(expected, lines);
  }

  // ------------------------------------------------------- longer journals

  /** Past its header or its checkpoint, every further line continues the state. */
  lemma ScanLineContinues(s: Scan, r: Record)
    requires Sound(s) && Complete(s) && s.lineNumber > 0 && ScanLine(s, r).Some?
    ensures Complete(ScanLine(s, r).value)
    ensures Continues(s.state, ScanLine(s, r).value.state)
    ensures ScanLine(s, r).value.state.generation == s.state.generation
    ensures ScanLine(s, r).value.state.compacted == s.state.compacted
  {
    if r.kind == Appended {
      ApplyEventContinues(s.state, r);
    } else if r.kind == Prune {
      ApplyPruneContinues(s.state, r);
    }
  }

  lemma {:induction false} ScanLinesContinue(s: Scan, more: seq<Record>)
    requires Sound(s) && Complete(s) && s.lineNumber > 0 && ScanLines(s, more).Some?
    ensures Sound(ScanLines(s, more).value) && Complete(ScanLines(s, more).value)
    ensures ScanLines(s, more).value.lineNumber == s.lineNumber + |more|
    ensures Continues(s.state, ScanLines(s, more).value.state)
    ensures ScanLines(s, more).value.state.generation == s.state.generation
    ensures ScanLines(s, more).value.state.compacted == s.state.compacted
    decreases |more|
  {
    if more == [] {
      ContinuesReflexive(s.state);
    } else {
      var init := more[..|more| - 1];
      ScanLinesContinue(s, init);
      var mid := ScanLines(s, init).value;
      ScanLineSound(mid, more[|more| - 1]);
      ScanLineContinues(mid, more[|more| - 1]);
      ContinuesTransitive(s.state, mid.state, ScanLines(s, more).value.state);
    }
  }

  /** An accepted journal that extends an accepted one continues it, and so does
      every journal in between: nothing an earlier replay saw can be lost by appending. */
  lemma ReplayExtends(shorter: seq<Record>, middle: seq<Record>, longer: seq<Record>, expected: string)
    requires shorter != [] && shorter <= middle <= longer
    requires Replay(shorter, expected).Some? && Replay(longer, expected).Some?
    ensures Replay(middle, expected).Some?
    ensures Continues(Replay(shorter, expected).value, Replay(middle, expected).value)
    ensures Replay(middle, expected).value.generation == Replay(shorter, expected).value.generation
    ensures Replay(middle, expected).value.compacted == Replay(shorter, expected).value.compacted
  {
    assert longer == middle + longer[|middle|..];
    ScanConcat(Start(expected), middle, longer[|middle|..]);
    assert middle == shorter + middle[|shorter|..];
    ScanConcat(Start(expected), shorter, middle[|shorter|..]);
    ScanLinesSound(expected, shorter);
    ScanLinesContinue(ScanLines(Start(expected), shorter).value, middle[|shorter|..]);
  }

  /** Appending one event record to an accepted journal. */
  lemma ReplayAppend(lines: seq<Record>, r: Record, expected: string)
    requires lines != [] && Replay(lines, expected).Some? && r.kind == Appended
    ensures Replay(lines + [r], expected) == ApplyEvent(Replay(lines, expected).value, r)
  {
    assert (lines + [r])[..|lines + [r]| - 1] == lines;
    ScanLinesSound(expected, lines);
    if ApplyEvent(Replay(lines, expected).value, r).Some? {
      ScanLineContinues(ScanLines(Start(expected), lines).value, r);
    }
  }

  // ------------------------------------------------------- the store a journal names

  predicate Headed(lines: seq<Record>) {
    lines != [] && (lines[0].kind == Header || lines[0].kind == SnapshotBegin)
  }

  function FirstStore(lines: seq<Record>): string
    requires lines != []
  {
    if lines[0].kind == Header then lines[0].storeId
    else if lines[0].checkpoint.Some? then lines[0].checkpoint.value.storeId
    else ""
  }

  /** The first line decides the store; expecting that store or none makes no difference. */
  lemma HeadedStart(r: Record, expected: string)
    requires Headed([r])
    ensures var first := ScanLine(Start(expected), r);
            && (first.Some? ==> first == ScanLine(Start(""), r) && first.value.state.storeId == FirstStore([r])
                                && first.value.lineNumber == 1 && (expected == "" || expected == FirstStore([r])))
            && (expected == "" || expected == FirstStore([r]) ==> first == ScanLine(Start(""), r))
  {
  }

  lemma StoreKept(s: Scan, r: Record)
    requires s.lineNumber > 0 && ScanLine(s, r).Some?
    ensures ScanLine(s, r).value.state.storeId == s.state.storeId && ScanLine(s, r).value.lineNumber > 0
  {
  }

  lemma {:induction false} HeadedScan(lines: seq<Record>, expected: string)
    requires Headed(lines)
    ensures ScanLines(Start(expected), lines).Some? ==>
              && ScanLines(Start(expected), lines) == ScanLines(Start(""), lines)
              && ScanLines(Start(expected), lines).value.state.storeId == FirstStore(lines)
              && ScanLines(Start(expected), lines).value.lineNumber > 0
              && (expected == "" || expected == FirstStore(lines))
    ensures expected == "" || expected == FirstStore(lines) ==>
              ScanLines(Start(expected), lines) == ScanLines(Start(""), lines)
    decreases |lines|
  {
    var init, last := lines[..|lines| - 1], lines[|lines| - 1];
    if init == [] {
      assert lines == [last];
      assert ScanLines(Start(expected), init) == Some(Start(expected)) && ScanLines(Start(""), init) == Some(Start(""));
      HeadedStart(last, expected);
    } else {
      HeadedScan(init, expected);
      var before := ScanLines(Start(expected), init);
      if before.Some? && ScanLine(before.value, last).Some? { StoreKept(before.value, last); }
    }
  }

  lemma {:induction false} HeadlessScan(lines: seq<Record>, expected: string)
    requires !Headed(lines) && ScanLines(Start(expected), lines).Some?
    ensures var s := ScanLines(Start(expected), lines).value.state; !s.header && !s.compacted
    ensures !ScanLines(Start(expected), lines).value.progress.Filling?
    ensures ScanLines(Start(expected), lines).value.lineNumber == |lines|
    decreases |lines|
  {
    if lines != [] {
      HeadlessScan(lines[..|lines| - 1], expected);
    }
  }

  /** A reader who expects a store accepts exactly the journals of that store, and
      reads in them what a reader with no expectation reads. */
  lemma ReplayExpecting(lines: seq<Record>, expected: string)
    requires lines != [] && expected != ""
    ensures Replay(lines, expected) ==
            match Replay(lines, "")
            case None => None
            case Some(s) => if s.storeId == expected then Some(s) else None
  {
    if Headed(lines) {
      HeadedScan(lines, expected);
      HeadedScan(lines, "");
    } else {
      if ScanLines(Start(expected), lines).Some? { HeadlessScan(lines, expected); }
      if ScanLines(Start(""), lines).Some? { HeadlessScan(lines, ""); }
    }
  }
}
