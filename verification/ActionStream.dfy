/** The stream validator and the execution reader (internal/actionabi/stream.go, internal/actionabi/codec.go). */
module ActionStream {
  import opened Wrappers
  import opened ActionAbi

  // ------------------------------------------------------- the validator

  datatype Validator = Validator(
    jobId: string, invocationId: string, lastSeq: U64, replay: bool, failed: bool, terminal: bool, finished: bool,
    outcome: Outcome)

  function NewStream(jobId: string, invocationId: string, fromSeq: U64, replay: bool): Option<Validator> {
    if !OpaqueId(jobId) || !OpaqueId(invocationId) then None
    else Some(Validator(jobId, invocationId, fromSeq, replay, false, false, false, Unknown))
  }

  /** Whether a replayed event may follow sequence number `last`. */
  predicate InSequence(last: U64, e: Event) {
    && last != MAX_UINT64
    && if e.kind == "truncated" then
         && e.truncated.Some? && e.seq_ >= last + 1
         && (e.seq_ > last + 1 ==> e.truncated.value.fromSeq <= last + 1 <= e.truncated.value.throughSeq)
       else e.seq_ == last + 1
  }

  predicate Acceptable(codec: Codec, v: Validator, e: Event) {
    && !v.failed && !v.terminal && !v.finished && e.jobId == v.jobId && e.invocationId == v.invocationId
    && if v.replay then EncodeJournalEvent(codec, e).Some? && InSequence(v.lastSeq, e)
       else EncodeExecutorEvent(codec, e).Some?
  }

  function AcceptEvent(codec: Codec, v: Validator, e: Event): Validator {
    if !Acceptable(codec, v, e) then v.(failed := true)
    else
      var moved := if v.replay then v.(lastSeq := e.seq_) else v;
      if Terminal(e) then moved.(terminal := true, outcome := TerminalOutcome(codec, e)) else moved
  }

  function AcceptAll(codec: Codec, v: Validator, es: seq<Event>): Validator {
    if es == [] then v else AcceptEvent(codec, AcceptAll(codec, v, es[..|es| - 1]), es[|es| - 1])
  }

  datatype ExitState = ExitState(
    processExited: bool, streamEOF: bool, forced: bool, exitCode: int, cancelRequested: bool)

  /** None is "unknown outcome". */
  function FinishOutcome(v: Validator, exit: ExitState): Option<Outcome> {
    if v.replay || v.finished || v.failed || !v.terminal then None
    else if !exit.processExited || !exit.streamEOF || exit.forced then None
    else
      match v.outcome
      case Succeeded => if exit.exitCode == 0 then Some(Succeeded) else None
      case Failed => if exit.exitCode > 0 then Some(Failed) else None
      case Cancelled => if exit.cancelRequested && exit.exitCode == 0 then Some(Cancelled) else None
      case Unknown => None
  }

  // ------------------------------------------------------- replay accounting

  /** Failure is permanent, and nothing is accepted after a terminal. */
  lemma {:induction false} FailureIsPermanent(codec: Codec, v: Validator, es: seq<Event>)
    requires v.failed || v.terminal
    ensures es != [] ==> AcceptAll(codec, v, es).failed
    ensures v.failed ==> AcceptAll(codec, v, es).failed
    ensures AcceptAll(codec, v, es).lastSeq == v.lastSeq && AcceptAll(codec, v, es).outcome == v.outcome
    ensures AcceptAll(codec, v, es).terminal == v.terminal
    decreases |es|
  {
    if es != [] {
      FailureIsPermanent(codec, v, es[..|es| - 1]);
    }
  }

  lemma {:induction false} PrefixAccepted(codec: Codec, v: Validator, es: seq<Event>, n: nat)
    requires n <= |es| && !AcceptAll(codec, v, es).failed
    ensures !AcceptAll(codec, v, es[..n]).failed
    ensures AcceptAll(codec, v, es[..n]).replay == v.replay
    decreases |es|
  {
    var init := es[..|es| - (if es == [] then 0 else 1)];
    if n == |es| {
      assert es[..n] == es;
      ModeKept(codec, v, es);
    } else {
      assert init[..n] == es[..n];
      PrefixAccepted(codec, v, init, n);
    }
  }

  lemma {:induction false} ModeKept(codec: Codec, v: Validator, es: seq<Event>)
    ensures AcceptAll(codec, v, es).replay == v.replay
    decreases |es|
  {
    if es != [] { ModeKept(codec, v, es[..|es| - 1]); }
  }

  /** The last sequence number after the first n events. */
  function LastAfter(codec: Codec, v: Validator, es: seq<Event>, n: nat): U64
    requires n <= |es|
  {
    AcceptAll(codec, v, es[..n]).lastSeq
  }

  /** Each accepted event moves the last sequence number strictly forward, to its own. */
  lemma AcceptedAdvances(codec: Codec, v: Validator, es: seq<Event>, i: nat)
    requires v.replay && i < |es| && !AcceptAll(codec, v, es).failed
    ensures LastAfter(codec, v, es, i) < LastAfter(codec, v, es, i + 1) == es[i].seq_
    ensures Validate(codec, es[i]) && InSequence(LastAfter(codec, v, es, i), es[i])
  {
    PrefixAccepted(codec, v, es, i + 1);
    PrefixAccepted(codec, v, es, i);
    assert es[..i + 1][..i] == es[..i];
  }

  lemma {:induction false} LastMonotone(codec: Codec, v: Validator, es: seq<Event>, i: nat, j: nat)
    requires v.replay && i <= j <= |es| && !AcceptAll(codec, v, es).failed
    ensures LastAfter(codec, v, es, i) <= LastAfter(codec, v, es, j)
    decreases j - i
  {
    if i < j {
      AcceptedAdvances(codec, v, es, j - 1);
      LastMonotone(codec, v, es, i, j - 1);
    }
  }

  /** Event i is the one that accounts for sequence number q: it moved the stream past q. */
  predicate AccountsFor(codec: Codec, v: Validator, es: seq<Event>, i: nat, q: nat)
    requires i < |es|
  {
    LastAfter(codec, v, es, i) < q <= LastAfter(codec, v, es, i + 1)
  }

  /** Delivered under its own number, or inside the range a truncation marker declares. */
  predicate CoveredBy(e: Event, q: nat) {
    q == e.seq_ ||
    (e.kind == "truncated" && e.truncated.Some? &&
     e.truncated.value.fromSeq <= q <= e.truncated.value.throughSeq)
  }

  /** The event leaves no gap behind: it moves forward, and covers every number it moves past. */
  ghost predicate LeavesNoGap(last: U64, e: Event) {
    last < e.seq_ && forall q :: last < q <= e.seq_ ==> CoveredBy(e, q)
  }

  /** Exactly which events a replay accepts: those of its invocation that encode and leave no gap. */
  lemma ReplayAcceptsIff(codec: Codec, v: Validator, e: Event)
    requires v.replay && !v.failed && !v.terminal && !v.finished
    ensures !AcceptEvent(codec, v, e).failed <==>
              && e.jobId == v.jobId && e.invocationId == v.invocationId && EncodeJournalEvent(codec, e).Some?
              && LeavesNoGap(v.lastSeq, e)
  {
    if EncodeJournalEvent(codec, e).Some? {
      assert Validate(codec, e);
      if LeavesNoGap(v.lastSeq, e) { assert CoveredBy(e, v.lastSeq + 1); }
    }
  }

  lemma StartsAtItsOwn(codec: Codec, v: Validator, es: seq<Event>)
    ensures LastAfter(codec, v, es, 0) == v.lastSeq
  {
    assert es[..0] == [];
  }

  lemma {:induction false} FindAccount(codec: Codec, v: Validator, es: seq<Event>, n: nat, q: nat) returns (i: nat)
    requires v.replay && n <= |es| && !AcceptAll(codec, v, es).failed && v.lastSeq < q <= LastAfter(codec, v, es, n)
    ensures i < n && AccountsFor(codec, v, es, i, q)
    decreases n
  {
    StartsAtItsOwn(codec, v, es);
    if LastAfter(codec, v, es, n - 1) < q {
      i := n - 1;
    } else {
      i := FindAccount(codec, v, es, n - 1, q);
    }
  }

  lemma AccountIsUnique(codec: Codec, v: Validator, es: seq<Event>, i: nat, j: nat, q: nat)
    requires v.replay && !AcceptAll(codec, v, es).failed && i < |es| && j < |es|
    requires AccountsFor(codec, v, es, i, q) && AccountsFor(codec, v, es, j, q)
    ensures i == j
  {
    if i < j {
      LastMonotone(codec, v, es, i + 1, j);
    } else if j < i {
      LastMonotone(codec, v, es, j + 1, i);
    }
  }

  lemma AccountIsCovered(codec: Codec, v: Validator, es: seq<Event>, i: nat, q: nat)
    requires v.replay && !AcceptAll(codec, v, es).failed && i < |es| && AccountsFor(codec, v, es, i, q)
    ensures CoveredBy(es[i], q)
  {
    AcceptedAdvances(codec, v, es, i);
  }

  /** Every accepted replay accounts for each number in (fromSeq, lastSeq] exactly
      once: there is exactly one event that moved the stream past it, and that
      event delivers the number or declares it truncated. */
  lemma ReplayAccountsForEveryNumber(codec: Codec, v: Validator, es: seq<Event>, q: nat)
    requires v.replay && !AcceptAll(codec, v, es).failed
    requires v.lastSeq < q <= AcceptAll(codec, v, es).lastSeq
    ensures exists i :: 0 <= i < |es| && AccountsFor(codec, v, es, i, q) && CoveredBy(es[i], q)
    ensures forall i, j | 0 <= i < |es| && 0 <= j < |es| ::
              AccountsFor(codec, v, es, i, q) && AccountsFor(codec, v, es, j, q) ==> i == j
  {
    assert es[..|es|] == es;
    var k := FindAccount(codec, v, es, |es|, q);
    AccountIsCovered(codec, v, es, k, q);
    forall i, j | 0 <= i < |es| && 0 <= j < |es| && AccountsFor(codec, v, es, i, q) && AccountsFor(codec, v, es, j, q)
      ensures i == j
    {
      AccountIsUnique(codec, v, es, i, j, q);
    }
  }

  /** The declared ranges themselves may overlap what was already delivered: an
      accepted marker declares a number this replay has already accounted for if
      and only if its range reaches back to the last number or before. */
  lemma MarkerReachesBackIff(codec: Codec, v: Validator, es: seq<Event>, i: nat)
    requires v.replay && i < |es| && !AcceptAll(codec, v, es).failed
    requires es[i].kind == "truncated" && es[i].truncated.Some?
    ensures (exists q :: v.lastSeq < q <= LastAfter(codec, v, es, i) && q != es[i].seq_ && CoveredBy(es[i], q))
            <==> v.lastSeq < LastAfter(codec, v, es, i) && es[i].truncated.value.fromSeq <= LastAfter(codec, v, es, i)
  {
    AcceptedAdvances(codec, v, es, i);
    var last := LastAfter(codec, v, es, i);
    if v.lastSeq < last && es[i].truncated.value.fromSeq <= last {
      assert CoveredBy(es[i], last);
    }
  }

  /** Every number of an accepted replay is delivered or declared truncated by exactly one event. */
  ghost predicate CoveredOnce(codec: Codec, v: Validator, es: seq<Event>) {
    forall q :: v.lastSeq < q <= AcceptAll(codec, v, es).lastSeq ==> OnceIn(es, q)
  }

  ghost predicate OnceIn(es: seq<Event>, q: nat) {
    && (exists i :: 0 <= i < |es| && CoveredBy(es[i], q))
    && (forall i, j :: 0 <= i < |es| && 0 <= j < |es| && CoveredBy(es[i], q) && CoveredBy(es[j], q) ==> i == j)
  }

  /** The marker at `i` declares only numbers this replay has not passed yet. */
  predicate MarkerIsFresh(codec: Codec, v: Validator, es: seq<Event>, i: nat)
    requires i < |es|
  {
    es[i].kind == "truncated" && es[i].truncated.Some? ==>
      es[i].truncated.value.fromSeq > LastAfter(codec, v, es, i) || LastAfter(codec, v, es, i) == v.lastSeq
  }

  /** A number that event `i` covers and this replay was asked for is one it moved the stream past. */
  lemma FreshCoverAccounts(codec: Codec, v: Validator, es: seq<Event>, i: nat, q: nat)
    requires v.replay && i < |es| && !AcceptAll(codec, v, es).failed
    requires MarkerIsFresh(codec, v, es, i) && v.lastSeq < q && CoveredBy(es[i], q)
    ensures AccountsFor(codec, v, es, i, q)
  {
    AcceptedAdvances(codec, v, es, i);
  }

  /** A marker that reaches back covers the last number once more. */
  lemma StaleMarkerRepeats(codec: Codec, v: Validator, es: seq<Event>, i: nat) returns (j: nat)
    requires v.replay && i < |es| && !AcceptAll(codec, v, es).failed && !MarkerIsFresh(codec, v, es, i)
    ensures var q := LastAfter(codec, v, es, i);
            && v.lastSeq < q <= AcceptAll(codec, v, es).lastSeq && j < i
            && CoveredBy(es[i], q) && CoveredBy(es[j], q)
  {
    var q := LastAfter(codec, v, es, i);
    AcceptedAdvances(codec, v, es, i);
    LastMonotone(codec, v, es, 0, i);
    StartsAtItsOwn(codec, v, es);
    LastMonotone(codec, v, es, i, |es|);
    assert es[..|es|] == es;
    j := FindAccount(codec, v, es, i, q);
    AccountIsCovered(codec, v, es, j, q);
  }

  /** An accepted replay covers every number exactly once if and only if every marker in it is fresh. */
  lemma CoveredOnceIffMarkersFresh(codec: Codec, v: Validator, es: seq<Event>)
    requires v.replay && !AcceptAll(codec, v, es).failed
    ensures CoveredOnce(codec, v, es) <==> forall i :: 0 <= i < |es| ==> MarkerIsFresh(codec, v, es, i)
  {
    if i :| 0 <= i < |es| && !MarkerIsFresh(codec, v, es, i) {
      var j := StaleMarkerRepeats(codec, v, es, i);
      assert !OnceIn(es, LastAfter(codec, v, es, i));
    } else {
      forall q: nat | v.lastSeq < q <= AcceptAll(codec, v, es).lastSeq
        ensures OnceIn(es, q)
      {
        ReplayAccountsForEveryNumber(codec, v, es, q);
        forall i, j | 0 <= i < |es| && 0 <= j < |es| && CoveredBy(es[i], q) && CoveredBy(es[j], q)
          ensures i == j
        {
          FreshCoverAccounts(codec, v, es, i, q);
          FreshCoverAccounts(codec, v, es, j, q);
          AccountIsUnique(codec, v, es, i, j, q);
        }
      }
    }
  }
}
