/** The decoder, the stream validator and the execution reader as objects
    (internal/actionabi/codec.go, internal/actionabi/stream.go), and when a first
    Finish reports an outcome. */
module ActionReader {
  import opened Wrappers
  import opened ActionAbi
  import opened ActionStream
  import opened ActionFrames

  datatype Read = Frame(event: Event) | EndOfFile | Refused

  // ------------------------------------------------------- the rules of one invocation

  function Decoded(codec: Codec): seq<Byte> -> Option<Event> {
    (frame: seq<Byte>) => DecodeExecutorEvent(codec, frame)
  }

  function Accepted(codec: Codec, jobId: string, invocationId: string): Event -> bool {
    (e: Event) => e.jobId == jobId && e.invocationId == invocationId && EncodeExecutorEvent(codec, e).Some?
  }

  function Reports(codec: Codec): Event -> Option<Outcome> {
    (e: Event) => if Validate(codec, e) && Terminal(e) then Some(TerminalOutcome(codec, e)) else None
  }

  /** Frames of this invocation that decode and whose event also encodes within the frame limit. */
  function RulesFor(codec: Codec, jobId: string, invocationId: string): Rules<Event> {
    Rules(Decoded(codec), Accepted(codec, jobId, invocationId), Reports(codec))
  }

  /** What an executor stream's validator has seen. */
  function Seen(v: Validator): Option<Outcome> {
    if v.terminal then Some(v.outcome) else None
  }

  lemma AcceptIsRules(codec: Codec, v: Validator, p: Intake, e: Event)
    requires !v.replay && !v.finished && p.faulted == v.failed && p.reported == Seen(v)
    ensures var v' := AcceptEvent(codec, v, e);
            var p' := ActionFrames.Accept(RulesFor(codec, v.jobId, v.invocationId), p, e);
            && p'.faulted == v'.failed && p'.reported == Seen(v')
            && !v'.replay && !v'.finished && v'.jobId == v.jobId && v'.invocationId == v.invocationId
  {
  }

  // ------------------------------------------------------- objects

  class Decoder {
    const codec: Codec
    const broken: bool
    var rest: seq<Byte>
    var failed: bool
    var eof: bool

    constructor (codec: Codec, input: seq<Byte>, broken: bool)
      ensures this.codec == codec && this.broken == broken && rest == input && !failed && !eof
    {
      this.codec := codec;
      this.broken := broken;
      rest, failed, eof := input, false, false;
    }

    /** Read one bounded frame; a malformed one poisons the decoder. */
    method Next() returns (r: Read)
      modifies this
      ensures old(failed) ==> r.Refused? && rest == old(rest) && failed && eof == old(eof)
      ensures !old(failed) && old(eof) ==> r.EndOfFile? && rest == old(rest) && !failed && eof
      ensures !old(failed) && !old(eof) && NoFrame(old(rest)) ==>
                && rest == old(rest)
                && (if rest == [] && !broken then r.EndOfFile? && eof && !failed else r.Refused? && failed && !eof)
      ensures !old(failed) && !old(eof) && !NoFrame(old(rest)) ==>
                && rest == old(rest)[LineEnd(old(rest)) + 1..] && !eof
                && match DecodeExecutorEvent(codec, old(rest)[..LineEnd(old(rest)) + 1])
                   case None => r.Refused? && failed
                   case Some(e) => r == Frame(e) && !failed
    {
      if failed { return Refused; }
      if eof { return EndOfFile; }
      var n := 0;
      while n < |rest| && rest[n] != LF
        invariant n <= |rest| && forall i :: 0 <= i < n ==> rest[i] != LF
      {
        n := n + 1;
      }
      if n == |rest| || n + 1 > MAX_FRAME_BYTES {
        if rest == [] && !broken {
          eof := true;
          return EndOfFile;
        }
        failed := true;
        return Refused;
      }
      var decoded := DecodeExecutorEvent(codec, rest[..n + 1]);
      rest := rest[n + 1..];
      if decoded.None? {
        failed := true;
        return Refused;
      }
      r := Frame(decoded.value);
    }
  }

  class StreamValidator {
    const codec: Codec
    const jobId: string
    const invocationId: string
    const replay: bool
    var lastSeq: U64
    var failed: bool
    var terminal: bool
    var finished: bool
    var outcome: Outcome

    constructor (codec: Codec, v: Validator)
      ensures this.codec == codec && View() == v
    {
      this.codec := codec;
      jobId, invocationId, replay := v.jobId, v.invocationId, v.replay;
      lastSeq, failed, terminal, finished, outcome := v.lastSeq, v.failed, v.terminal, v.finished, v.outcome;
    }

    function View(): Validator
      reads this
    {
      Validator(jobId, invocationId, lastSeq, replay, failed, terminal, finished, outcome)
    }

    method Accept(e: Event) returns (ok: bool)
      modifies this
      ensures ok == Acceptable(codec, old(View()), e) && View() == AcceptEvent(codec, old(View()), e)
      ensures ok && e.kind == "result" ==> terminal && e.result.Some? && outcome == e.result.value.outcome
      ensures ok && e.kind == "error" ==> terminal && e.error.Some? && outcome == e.error.value.outcome
      ensures !ok || e.kind !in {"result", "error"} ==> terminal == old(terminal) && outcome == old(outcome)
    {
      if failed || terminal || finished || e.jobId != jobId || e.invocationId != invocationId {
        failed := true;
        return false;
      }
      if replay {
        if EncodeJournalEvent(codec, e).None? || lastSeq == MAX_UINT64 {
          failed := true;
          return false;
        }
        var next := lastSeq + 1;
        if e.kind == "truncated" {
          if e.seq_ < next ||
            (e.seq_ > next && (e.truncated.value.fromSeq > next || e.truncated.value.throughSeq < next)) {
            failed := true;
            return false;
          }
        } else if e.seq_ != next {
          failed := true;
          return false;
        }
        lastSeq := e.seq_;
      } else if EncodeExecutorEvent(codec, e).None? {
        failed := true;
        return false;
      }
      if e.kind == "result" {
        terminal, outcome := true, e.result.value.outcome;
      } else if e.kind == "error" {
        terminal, outcome := true, e.error.value.outcome;
      }
      return true;
    }

    /** None is an unknown outcome; only the first call of an executor stream can report one. */
    method Finish(exit: ExitState) returns (r: Option<Outcome>)
      modifies this
      ensures r == FinishOutcome(old(View()), exit)
      ensures View() == if replay then old(View()) else old(View()).(finished := true)
    {
      if replay || finished { return None; }
      finished := true;
      if failed || !terminal || !exit.processExited || !exit.streamEOF || exit.forced { return None; }
      match outcome {
        case Succeeded => if exit.exitCode == 0 { return Some(Succeeded); }
        case Failed => if exit.exitCode > 0 { return Some(Failed); }
        case Cancelled => if exit.cancelRequested && exit.exitCode == 0 { return Some(Cancelled); }
        case Unknown =>
      }
      return None;
    }
  }

  class ExecutionReader {
    const decoder: Decoder
    const stream: StreamValidator

    constructor (codec: Codec, input: seq<Byte>, broken: bool, jobId: string, invocationId: string)
      requires OpaqueId(jobId) && OpaqueId(invocationId)
      ensures fresh(decoder) && fresh(stream) && Valid() && decoder.codec == codec && decoder.broken == broken
      ensures stream.jobId == jobId && stream.invocationId == invocationId && !stream.finished
      ensures View() == Intake(input, false, false, false, None)
    {
      decoder := new Decoder(codec, input, broken);
      stream := new StreamValidator(codec, Validator(jobId, invocationId, 0, false, false, false, false, Unknown));
    }

    ghost predicate Valid() {
      decoder.codec == stream.codec && !stream.replay
    }

    function View(): Intake
      reads decoder, stream
    {
      Intake(decoder.rest, decoder.failed, decoder.eof, stream.failed, Seen(stream.View()))
    }

    /** Decode one frame and hand it to the stream. */
    method Next() returns (event: Option<Event>)
      requires Valid() && !stream.finished
      modifies decoder, stream
      ensures Valid() && !stream.finished
      ensures View() == Step(RulesFor(decoder.codec, stream.jobId, stream.invocationId), decoder.broken, old(View()))
    {
      var r := decoder.Next();
      if !r.Frame? { return None; }
      ghost var p := Intake(decoder.rest, decoder.failed, decoder.eof, stream.failed, Seen(stream.View()));
      AcceptIsRules(decoder.codec, stream.View(), p, r.event);
      var ok := stream.Accept(r.event);
      event := if ok then Some(r.event) else None;
    }

    /** Ignore the caller's claim of end of file; only the decoder can establish it. */
    method Finish(exit: ExitState) returns (r: Option<Outcome>)
      requires Valid() && !stream.finished
      modifies stream
      ensures forall o :: r == Some(o) <==> Drained(old(View()), o) && ExitAgrees(exit, o)
    {
      r := stream.Finish(exit.(streamEOF := decoder.eof && !decoder.failed));
    }
  }

  // ------------------------------------------------------- when an outcome is reported

  /** What the process must have done for outcome `o` to be believed. */
  predicate ExitAgrees(exit: ExitState, o: Outcome) {
    && exit.processExited && !exit.forced
    && match o
       case Succeeded => exit.exitCode == 0
       case Failed => exit.exitCode > 0
       case Cancelled => exit.cancelRequested && exit.exitCode == 0
       case Unknown => false
  }

  /** The event says that the execution ended with outcome `o`. */
  predicate Says(e: Event, o: Outcome) {
    match o
    case Succeeded => e.kind == "result" && e.result.Some? && e.result.value.outcome == Succeeded
    case Cancelled => e.kind == "result" && e.result.Some? && e.result.value.outcome == Cancelled
    case Failed => e.kind == "error" && e.error.Some? && e.error.value.outcome == Failed
    case Unknown => e.kind == "error" && e.error.Some? && e.error.value.outcome == Unknown
  }

  /** One line that decodes to an event of this invocation which also encodes within the frame limit. */
  predicate Proper(codec: Codec, jobId: string, invocationId: string, frame: seq<Byte>) {
    && IsLine(frame)
    && match DecodeExecutorEvent(codec, frame)
       case None => false
       case Some(e) => e.jobId == jobId && e.invocationId == invocationId && EncodeExecutorEvent(codec, e).Some?
  }

  /** The events of the frames: no result and no error but the last, and that one says `o`. */
  predicate Ends(codec: Codec, jobId: string, invocationId: string, frames: seq<seq<Byte>>, o: Outcome) {
    && frames != [] && (forall i :: 0 <= i < |frames| ==> Proper(codec, jobId, invocationId, frames[i]))
    && (forall i :: 0 <= i < |frames| - 1 ==>
          DecodeExecutorEvent(codec, frames[i]).value.kind !in {"result", "error"})
    && Says(DecodeExecutorEvent(codec, frames[|frames| - 1]).value, o)
  }

  lemma SaysIsReported(codec: Codec, e: Event, o: Outcome)
    requires Validate(codec, e)
    ensures Reports(codec)(e) == Some(o) <==> Says(e, o)
    ensures Reports(codec)(e).None? <==> e.kind !in {"result", "error"}
  {
  }

  lemma DecodedIsValid(codec: Codec, frame: seq<Byte>)
    requires DecodeExecutorEvent(codec, frame).Some?
    ensures Validate(codec, DecodeExecutorEvent(codec, frame).value)
  {
  }

  lemma CompleteIffEnds(codec: Codec, jobId: string, invocationId: string, frames: seq<seq<Byte>>, o: Outcome)
    ensures Complete(RulesFor(codec, jobId, invocationId), frames, o) <==> Ends(codec, jobId, invocationId, frames, o)
  {
    var rules := RulesFor(codec, jobId, invocationId);
    forall i | 0 <= i < |frames|
      ensures ActionFrames.Good(rules, frames[i]) <==> Proper(codec, jobId, invocationId, frames[i])
      ensures ActionFrames.Good(rules, frames[i]) ==>
                var e := DecodeExecutorEvent(codec, frames[i]).value;
                && (Reported(rules, frames[i]) == Some(o) <==> Says(e, o))
                && (Reported(rules, frames[i]).None? <==> e.kind !in {"result", "error"})
    {
      if DecodeExecutorEvent(codec, frames[i]).Some? {
        DecodedIsValid(codec, frames[i]);
        SaysIsReported(codec, DecodeExecutorEvent(codec, frames[i]).value, o);
      }
    }
  }

  /** The whole input is fewer than `n` such frames, one after the other. */
  ghost predicate SplitsInto(codec: Codec, jobId: string, invocationId: string, input: seq<Byte>, n: nat, o: Outcome) {
    exists frames :: input == Flatten(frames) && |frames| < n && Ends(codec, jobId, invocationId, frames, o)
  }

  lemma DrainedIffSplits(codec: Codec, jobId: string, invocationId: string, broken: bool, input: seq<Byte>, n: nat,
                         o: Outcome)
    ensures Drained(Steps(RulesFor(codec, jobId, invocationId), broken, Intake(input, false, false, false, None), n), o)
            <==> !broken && SplitsInto(codec, jobId, invocationId, input, n, o)
  {
    var rules := RulesFor(codec, jobId, invocationId);
    DrainedIffComplete(rules, broken, input, n, o);
    if exists frames :: input == Flatten(frames) && |frames| < n && Complete(rules, frames, o) {
      var frames :| input == Flatten(frames) && |frames| < n && Complete(rules, frames, o);
      CompleteIffEnds(codec, jobId, invocationId, frames, o);
    }
    if SplitsInto(codec, jobId, invocationId, input, n, o) {
      var frames :| input == Flatten(frames) && |frames| < n && Ends(codec, jobId, invocationId, frames, o);
      CompleteIffEnds(codec, jobId, invocationId, frames, o);
    }
  }

  /** Read an execution `turns` times, then finish: an outcome is reported if and
      only if the whole input, to end of file, is a concatenation of fewer than
      `turns` valid frames of this invocation, of which the last and no other is a
      result or an error, its own outcome is the one reported, and the process exit
      agrees. */
  method RunExecution(codec: Codec, input: seq<Byte>, broken: bool, jobId: string, invocationId: string, turns: nat,
                      exit: ExitState) returns (r: Option<Outcome>)
    requires OpaqueId(jobId) && OpaqueId(invocationId)
    ensures forall o :: r == Some(o) <==>
              ExitAgrees(exit, o) && !broken && SplitsInto(codec, jobId, invocationId, input, turns, o)
  {
    var reader := new ExecutionReader(codec, input, broken, jobId, invocationId);
    ghost var rules := RulesFor(codec, jobId, invocationId);
    ghost var start := reader.View();
    var i := 0;
    while i < turns
      invariant i <= turns && reader.Valid() && !reader.stream.finished
      invariant Steps(rules, broken, start, turns) == Steps(rules, broken, reader.View(), turns - i)
    {
      var event := reader.Next();
      i := i + 1;
    }
    r := reader.Finish(exit);
    forall o
      ensures Drained(Steps(rules, broken, start, turns), o) <==>
                !broken && SplitsInto(codec, jobId, invocationId, input, turns, o)
    {
      DrainedIffSplits(codec, jobId, invocationId, broken, input, turns, o);
    }
  }
}
