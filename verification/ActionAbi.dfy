/** Frames and events of the anas.action/v1 protocol (internal/actionabi/types.go, internal/actionabi/codec.go). */
module ActionAbi {
  import opened Wrappers

  const MAX_UINT64: nat := 0xFFFF_FFFF_FFFF_FFFF
  const MAX_FRAME_BYTES: nat := 65536
  const LF: Byte := 10
  const CR: Byte := 13
  const VERSION: string := "anas.action/v1"

  type U64 = n: nat | n <= MAX_UINT64
  type Byte = n: nat | n < 256

  datatype Outcome = Succeeded | Failed | Cancelled | Unknown

  datatype Progress = Progress(
    phase: string, current: Option<U64>, total: Option<U64>, totalEstimated: Option<U64>, unit: string)
  datatype Warning = Warning(code: string, message: string)
  datatype Result = Result(outcome: Outcome, changed: Option<bool>, value: string)
  datatype Failure = Failure(outcome: Outcome, code: string, message: string)
  datatype Truncated = Truncated(fromSeq: U64, throughSeq: U64)

  datatype Event = Event(
    abi: string, jobId: string, invocationId: string, seq_: U64, kind: string,
    progress: Option<Progress>, warning: Option<Warning>, result: Option<Result>, error: Option<Failure>,
    truncated: Option<Truncated>)

  /** The JSON library: strict decoding of a frame body together with whether the
      body has a "seq" key, encoding, and the check that a raw value is one bounded JSON object. */
  datatype Codec = Codec(
    parse: seq<Byte> -> Option<(Event, bool)>,
    render: Event -> Option<seq<Byte>>,
    boundedObject: string -> bool)

  // ------------------------------------------------------- identifiers

  predicate Lower(c: char) { 'a' <= c <= 'z' }
  predicate Upper(c: char) { 'A' <= c <= 'Z' }
  predicate Digit(c: char) { '0' <= c <= '9' }

  predicate OpaqueId(s: string) {
    && 1 <= |s| <= 128 && (Lower(s[0]) || Upper(s[0]) || Digit(s[0]))
    && forall i :: 1 <= i < |s| ==>
         Lower(s[i]) || Upper(s[i]) || Digit(s[i]) || s[i] == '.' || s[i] == '_' || s[i] == ':' || s[i] == '-'
  }

  predicate LabelId(s: string) {
    && 1 <= |s| <= 63 && Lower(s[0])
    && forall i :: 1 <= i < |s| ==> Lower(s[i]) || Digit(s[i]) || s[i] == '_' || s[i] == '-'
  }

  predicate Control(c: char) {
    c < ' ' || '\U{7f}' <= c <= '\U{9f}'
  }

  predicate ValidMessage(s: string) {
    1 <= |s| <= 4096 && forall i :: 0 <= i < |s| ==> !Control(s[i])
  }

  // ------------------------------------------------------- validation

  function Count(b: bool): nat {
    if b then 1 else 0
  }

  predicate ValidProgress(p: Progress) {
    && LabelId(p.phase) && !(p.total.Some? && p.totalEstimated.Some?)
    && if p.current.None? then p.total.None? && p.totalEstimated.None? && p.unit == ""
       else LabelId(p.unit) && (p.total.Some? ==> p.current.value <= p.total.value)
  }

  predicate ValidResult(codec: Codec, r: Result) {
    match r.outcome
    case Succeeded => r.changed.Some? && codec.boundedObject(r.value)
    case Cancelled => r.changed.None? && r.value == ""
    case _ => false
  }

  predicate ValidTruncated(t: Truncated, own: U64) {
    t.fromSeq != 0 && t.fromSeq <= t.throughSeq && t.throughSeq != MAX_UINT64 && own == t.throughSeq + 1
  }

  predicate Validate(codec: Codec, e: Event) {
    && e.abi == VERSION && OpaqueId(e.jobId) && OpaqueId(e.invocationId)
    && Count(e.progress.Some?) + Count(e.warning.Some?) + Count(e.result.Some?) + Count(e.error.Some?)
       + Count(e.truncated.Some?) == 1
    && (|| (e.kind == "progress" && e.progress.Some? && ValidProgress(e.progress.value))
        || (e.kind == "warning" && e.warning.Some? && LabelId(e.warning.value.code) &&
            ValidMessage(e.warning.value.message))
        || (e.kind == "result" && e.result.Some? && ValidResult(codec, e.result.value))
        || (e.kind == "error" && e.error.Some? && (e.error.value.outcome == Failed || e.error.value.outcome == Unknown)
            && LabelId(e.error.value.code) && ValidMessage(e.error.value.message))
        || (e.kind == "truncated" && e.truncated.Some? && ValidTruncated(e.truncated.value, e.seq_)))
  }

  predicate Terminal(e: Event) {
    e.kind == "result" || e.kind == "error"
  }

  function TerminalOutcome(codec: Codec, e: Event): Outcome
    requires Validate(codec, e) && Terminal(e)
  {
    if e.kind == "result" then e.result.value.outcome else e.error.value.outcome
  }

  // ------------------------------------------------------- frames

  function FrameBody(frame: seq<Byte>): Option<seq<Byte>> {
    if |frame| < 3 || |frame| > MAX_FRAME_BYTES || frame[|frame| - 1] != LF then None
    else if exists i :: 0 <= i < |frame| - 1 && (frame[i] == LF || frame[i] == CR) then None
    else Some(frame[..|frame| - 1])
  }

  function DecodeEvent(codec: Codec, frame: seq<Byte>): Option<(Event, bool)> {
    var body :- FrameBody(frame);
    var parsed :- codec.parse(body);
    if Validate(codec, parsed.0) then Some(parsed) else None
  }

  function DecodeExecutorEvent(codec: Codec, frame: seq<Byte>): Option<Event> {
    var parsed :- DecodeEvent(codec, frame);
    if parsed.0.seq_ != 0 || parsed.0.kind == "truncated" || parsed.1 then None else Some(parsed.0)
  }

  function DecodeJournalEvent(codec: Codec, frame: seq<Byte>): Option<Event> {
    var parsed :- DecodeEvent(codec, frame);
    if parsed.0.seq_ == 0 then None else Some(parsed.0)
  }

  function EncodeFrame(codec: Codec, e: Event): Option<seq<Byte>> {
    var body :- codec.render(e);
    if |body| + 1 > MAX_FRAME_BYTES then None else Some(body + [LF])
  }

  function EncodeExecutorEvent(codec: Codec, e: Event): Option<seq<Byte>> {
    if !Validate(codec, e) || e.seq_ != 0 || e.kind == "truncated" then None
    else
      var frame :- EncodeFrame(codec, e);
      if DecodeExecutorEvent(codec, frame).None? then None else Some(frame)
  }

  function EncodeJournalEvent(codec: Codec, e: Event): Option<seq<Byte>> {
    if !Validate(codec, e) || e.seq_ == 0 then None
    else
      var frame :- EncodeFrame(codec, e);
      if DecodeJournalEvent(codec, frame).None? then None else Some(frame)
  }
}
