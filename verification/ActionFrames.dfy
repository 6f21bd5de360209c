/** Reading LF-terminated frames to end of file, for any frame decoder and any
    acceptance rule (internal/actionabi/codec.go, internal/actionabi/stream.go). */
module ActionFrames {
  import opened Wrappers
  import opened ActionAbi

  /** How a frame decodes, which events are accepted, and what a terminal event reports. */
  datatype Rules<!E> = Rules(decode: seq<Byte> -> Option<E>, accepts: E -> bool, reports: E -> Option<Outcome>)

  /** The unread input, the decoder's two flags, and the stream's fault and terminal. */
  datatype Intake = Intake(rest: seq<Byte>, failed: bool, eof: bool, faulted: bool, reported: Option<Outcome>)

  function LineEnd(s: seq<Byte>): (n: nat)
    ensures n <= |s| && (n < |s| ==> s[n] == LF)
    ensures forall i :: 0 <= i < n ==> s[i] != LF
  {
    if s == [] || s[0] == LF then 0 else 1 + LineEnd(s[1..])
  }

  /** No complete frame of at most the maximal size is in front. */
  predicate NoFrame(s: seq<Byte>) {
    LineEnd(s) == |s| || LineEnd(s) + 1 > MAX_FRAME_BYTES
  }

  /** What an event does to the stream: it faults once a terminal was accepted. */
  function Accept<E>(rules: Rules<E>, p: Intake, e: E): Intake {
    if p.faulted || p.reported.Some? || !rules.accepts(e) then p.(faulted := true)
    else p.(reported := rules.reports(e))
  }

  /** One read. `broken` says that the input ends in a read error instead of end of file. */
  function Step<E>(rules: Rules<E>, broken: bool, p: Intake): Intake {
    if p.failed || p.eof then p
    else if NoFrame(p.rest) then
      if p.rest == [] && !broken then p.(eof := true) else p.(failed := true)
    else
      var n := LineEnd(p.rest) + 1;
      match rules.decode(p.rest[..n])
      case None => p.(rest := p.rest[n..], failed := true)
      case Some(e) => Accept(rules, p.(rest := p.rest[n..]), e)
  }

  function Steps<E>(rules: Rules<E>, broken: bool, p: Intake, n: nat): Intake
    decreases n
  {
    if n == 0 then p else Steps(rules, broken, Step(rules, broken, p), n - 1)
  }

  // ------------------------------------------------------- complete streams

  function Flatten(frames: seq<seq<Byte>>): seq<Byte> {
    if frames == [] then [] else frames[0] + Flatten(frames[1..])
  }

  /** One line: no LF but the last byte, and within the size limit. */
  predicate IsLine(frame: seq<Byte>) {
    0 < |frame| <= MAX_FRAME_BYTES && LineEnd(frame) == |frame| - 1
  }

  predicate Good<E>(rules: Rules<E>, frame: seq<Byte>) {
    IsLine(frame) && rules.decode(frame).Some? && rules.accepts(rules.decode(frame).value)
  }

  function Reported<E>(rules: Rules<E>, frame: seq<Byte>): Option<Outcome>
    requires Good(rules, frame)
  {
    rules.reports(rules.decode(frame).value)
  }

  /** Good frames, of which the last and only the last is a terminal, reporting `o`. */
  predicate Complete<E>(rules: Rules<E>, frames: seq<seq<Byte>>, o: Outcome) {
    && frames != []
    && (forall i :: 0 <= i < |frames| ==> Good(rules, frames[i]))
    && (forall i :: 0 <= i < |frames| - 1 ==> Reported(rules, frames[i]).None?)
    && Reported(rules, frames[|frames| - 1]) == Some(o)
  }

  predicate Drained(p: Intake, o: Outcome) {
    p.eof && !p.failed && !p.faulted && p.reported == Some(o)
  }

  predicate Reading(p: Intake) {
    !p.failed && !p.eof && !p.faulted
  }

  lemma {:induction false} FaultStays<E>(rules: Rules<E>, broken: bool, p: Intake, n: nat, o: Outcome)
    requires p.failed || p.faulted
    ensures !Drained(Steps(rules, broken, p, n), o)
    decreases n
  {
    if n > 0 { FaultStays(rules, broken, Step(rules, broken, p), n - 1, o); }
  }

  lemma {:induction false} EndStays<E>(rules: Rules<E>, broken: bool, p: Intake, n: nat)
    requires p.eof
    ensures Steps(rules, broken, p, n) == p
    decreases n
  {
    if n > 0 { EndStays(rules, broken, p, n - 1); }
  }

  lemma {:induction false} FrontLine(frame: seq<Byte>, rest: seq<Byte>)
    requires IsLine(frame)
    ensures LineEnd(frame + rest) == |frame| - 1
    ensures (frame + rest)[..|frame|] == frame && (frame + rest)[|frame|..] == rest
  {
    var s := frame + rest;
    assert forall i :: 0 <= i < |frame| - 1 ==> s[i] == frame[i] != LF;
    assert s[|frame| - 1] == LF;
  }

  lemma ReadGood<E>(rules: Rules<E>, broken: bool, p: Intake, frame: seq<Byte>, rest: seq<Byte>)
    requires Reading(p) && p.reported.None? && p.rest == frame + rest && Good(rules, frame)
    ensures Step(rules, broken, p) == p.(rest := rest, reported := Reported(rules, frame))
  {
    FrontLine(frame, rest);
  }

  /** After the terminal only end of file leaves the stream without a fault. */
  lemma AfterTerminal<E>(rules: Rules<E>, broken: bool, p: Intake, n: nat, o: Outcome)
    requires Reading(p) && p.reported.Some?
    ensures Drained(Steps(rules, broken, p, n), o) <==> n > 0 && p.rest == [] && !broken && p.reported == Some(o)
  {
    if n > 0 {
      var q := Step(rules, broken, p);
      if p.rest == [] && !broken {
        EndStays(rules, broken, q, n - 1);
      } else {
        FaultStays(rules, broken, q, n - 1, o);
      }
    }
  }

  lemma CompleteShrinks<E>(rules: Rules<E>, frames: seq<seq<Byte>>, o: Outcome)
    requires Complete(rules, frames, o) && |frames| > 1
    ensures Complete(rules, frames[1..], o) && Reported(rules, frames[0]).None?
  {
    assert forall i :: 0 <= i < |frames[1..]| ==> frames[1..][i] == frames[i + 1];
  }

  lemma {:induction false} CompleteDrains<E>(rules: Rules<E>, broken: bool, p: Intake, frames: seq<seq<Byte>>,
                                             n: nat, o: Outcome)
    requires !broken && Reading(p) && p.reported.None? && p.rest == Flatten(frames) && Complete(rules, frames, o)
    requires n > |frames|
    ensures Drained(Steps(rules, broken, p, n), o)
    decreases |frames|
  {
    ReadGood(rules, broken, p, frames[0], Flatten(frames[1..]));
    var q := Step(rules, broken, p);
    if |frames| == 1 {
      assert frames[1..] == [];
      AfterTerminal(rules, broken, q, n - 1, o);
    } else {
      CompleteShrinks(rules, frames, o);
      CompleteDrains(rules, broken, q, frames[1..], n - 1, o);
    }
  }

  lemma CompleteGrows<E>(rules: Rules<E>, frame: seq<Byte>, more: seq<seq<Byte>>, o: Outcome)
    requires Good(rules, frame) && Reported(rules, frame).None? && Complete(rules, more, o)
    ensures Complete(rules, [frame] + more, o) && Flatten([frame] + more) == frame + Flatten(more)
  {
    var frames := [frame] + more;
    assert frames[1..] == more && frames[|frames| - 1] == more[|more| - 1];
    assert forall i :: 0 < i < |frames| ==> frames[i] == more[i - 1];
  }

  lemma {:induction false} DrainedWasComplete<E>(rules: Rules<E>, broken: bool, p: Intake, n: nat, o: Outcome)
    returns (frames: seq<seq<Byte>>)
    requires Reading(p) && p.reported.None? && Drained(Steps(rules, broken, p, n), o)
    ensures p.rest == Flatten(frames) && Complete(rules, frames, o) && !broken && n > |frames|
    decreases n
  {
    var q := Step(rules, broken, p);
    FirstReadGood(rules, broken, p, n, o);
    var k := LineEnd(p.rest) + 1;
    var frame := p.rest[..k];
    LineOf(p.rest);
    assert p.rest == frame + q.rest;
    if q.reported.Some? {
      AfterTerminal(rules, broken, q, n - 1, o);
      frames := [frame];
      assert frames[1..] == [] && Flatten(frames) == frame;
    } else {
      var more := DrainedWasComplete(rules, broken, q, n - 1, o);
      frames := [frame] + more;
      CompleteGrows(rules, frame, more, o);
    }
  }

  lemma FirstReadGood<E>(rules: Rules<E>, broken: bool, p: Intake, n: nat, o: Outcome)
    requires Reading(p) && p.reported.None? && Drained(Steps(rules, broken, p, n), o)
    ensures n > 0 && Reading(Step(rules, broken, p)) && !NoFrame(p.rest)
  {
    var q := Step(rules, broken, p);
    if q.eof {
      EndStays(rules, broken, q, n - 1);
    } else if !Reading(q) {
      FaultStays(rules, broken, q, n - 1, o);
    }
  }

  lemma LineOf(s: seq<Byte>)
    requires !NoFrame(s)
    ensures IsLine(s[..LineEnd(s) + 1])
  {
    var frame := s[..LineEnd(s) + 1];
    assert frame[|frame| - 1] == LF;
    assert forall i :: 0 <= i < |frame| - 1 ==> frame[i] == s[i] != LF;
  }

  /** After n reads the input is drained with outcome `o` exactly when it is, to its
      end, fewer than n good frames whose last and only terminal reports `o`. */
  lemma DrainedIffComplete<E>(rules: Rules<E>, broken: bool, input: seq<Byte>, n: nat, o: Outcome)
    ensures Drained(Steps(rules, broken, Intake(input, false, false, false, None), n), o)
            <==> !broken && exists frames :: input == Flatten(frames) && |frames| < n && Complete(rules, frames, o)
  {
    var p := Intake(input, false, false, false, None);
    if Drained(Steps(rules, broken, p, n), o) {
      var frames := DrainedWasComplete(rules, broken, p, n, o);
    }
    if !broken && exists frames :: input == Flatten(frames) && |frames| < n && Complete(rules, frames, o) {
      var frames :| input == Flatten(frames) && |frames| < n && Complete(rules, frames, o);
      CompleteDrains(rules, broken, p, frames, n, o);
    }
  }
}
