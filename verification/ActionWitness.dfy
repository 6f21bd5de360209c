/** Streams that show what the protocol does not promise (internal/actionabi/stream.go, internal/actionabi/codec.go). */
module ActionWitness {
  import opened Wrappers
  import opened ActionAbi
  import opened ActionStream

  // ------------------------------------------------------- a marker over delivered numbers

  function Noted(number: U64): Event {
    Event(VERSION, "j", "i", number, "warning", None, Some(Warning("w", "m")), None, None, None)
  }

  function Marked(number: U64, from: U64, through: U64): Event {
    Event(VERSION, "j", "i", number, "truncated", None, None, None, None, Some(Truncated(from, through)))
  }

  function Delivered(n: nat): (es: seq<Event>)
    requires n <= 3
    ensures |es| == n && forall i :: 0 <= i < n ==> es[i] == Noted(i + 1)
  {
    if n == 0 then [] else Delivered(n - 1) + [Noted(n)]
  }

  /** A replay of numbers 1 to 3 and a marker, numbered 4, for 2 to 3. */
  function Repeating(): seq<Event> {
    Delivered(3) + [Marked(4, 2, 3)]
  }

  /** An encoding of those four events in two bytes. */
  function Tiny(): Codec {
    Codec((body: seq<Byte>) => TinyParse(body), (e: Event) => TinyRender(e), (s: string) => false)
  }

  function TinyParse(body: seq<Byte>): Option<(Event, bool)> {
    if |body| != 2 || body[0] != 65 || !(66 <= body[1] <= 69) then None
    else if body[1] == 69 then Some((Marked(4, 2, 3), true)) else Some((Noted(body[1] - 65), true))
  }

  function TinyRender(e: Event): Option<seq<Byte>> {
    if 1 <= e.seq_ <= 4 then Some([65, 65 + e.seq_]) else None
  }

  predicate Encodes(codec: Codec, e: Event) {
    EncodeJournalEvent(codec, e).Some?
  }

  lemma TinyEncodes(e: Event)
    requires e == Marked(4, 2, 3) || (1 <= e.seq_ <= 3 && e == Noted(e.seq_))
    ensures Encodes(Tiny(), e)
  {
    var body: seq<Byte> := [65, 65 + e.seq_];
    var frame := body + [LF];
    assert frame[..|frame| - 1] == body;
    assert FrameBody(frame) == Some(body);
  }

  lemma AcceptSnoc(codec: Codec, v: Validator, es: seq<Event>, e: Event)
    ensures AcceptAll(codec, v, es + [e]) == AcceptEvent(codec, AcceptAll(codec, v, es), e)
  {
    assert (es + [e])[..|es|] == es;
  }

  lemma EncodedIsAccepted(codec: Codec, v: Validator, e: Event)
    requires v.replay && !v.failed && !v.terminal && !v.finished && e.jobId == v.jobId &&
             e.invocationId == v.invocationId
    requires EncodeJournalEvent(codec, e).Some? && InSequence(v.lastSeq, e) && !Terminal(e)
    ensures AcceptEvent(codec, v, e) == v.(lastSeq := e.seq_)
  {
  }

  function Replaying(last: U64): Validator {
    Validator("j", "i", last, true, false, false, false, Unknown)
  }

  lemma {:induction false} DeliveredAccepted(codec: Codec, n: nat)
    requires n <= 3 && forall i :: 1 <= i <= n ==> Encodes(codec, Noted(i))
    ensures AcceptAll(codec, Replaying(0), Delivered(n)) == Replaying(n)
    decreases n
  {
    if n > 0 {
      DeliveredAccepted(codec, n - 1);
      assert Encodes(codec, Noted(n));
      AcceptSnoc(codec, Replaying(0), Delivered(n - 1), Noted(n));
      EncodedIsAccepted(codec, Replaying(n - 1), Noted(n));
    }
  }

  /** A validator whose codec encodes them accepts such a replay, from number 0 on. */
  lemma RepeatingAccepted(codec: Codec)
    requires (forall i :: 1 <= i <= 3 ==> Encodes(codec, Noted(i))) && Encodes(codec, Marked(4, 2, 3))
    ensures AcceptAll(codec, Replaying(0), Repeating()) == Replaying(4)
  {
    DeliveredAccepted(codec, 3);
    AcceptSnoc(codec, Replaying(0), Delivered(3), Marked(4, 2, 3));
    EncodedIsAccepted(codec, Replaying(3), Marked(4, 2, 3));
  }

  /** So an accepted replay may cover a number twice: here 2 and 3, once delivered and once declared truncated. */
  lemma AcceptedReplayRepeats()
    ensures var es := Repeating();
            && AcceptAll(Tiny(), Replaying(0), es) == Replaying(4) && !CoveredOnce(Tiny(), Replaying(0), es)
            && CoveredBy(es[1], 2) && CoveredBy(es[2], 3) && CoveredBy(es[3], 2) && CoveredBy(es[3], 3)
  {
    forall i | 1 <= i <= 3
      ensures Encodes(Tiny(), Noted(i))
    {
      TinyEncodes(Noted(i));
    }
    TinyEncodes(Marked(4, 2, 3));
    RepeatingAccepted(Tiny());
    RepeatsTwice();
  }

  lemma RepeatsTwice()
    ensures var es := Repeating();
            && CoveredBy(es[1], 2) && CoveredBy(es[2], 3) && CoveredBy(es[3], 2) && CoveredBy(es[3], 3)
            && !OnceIn(es, 2)
  {
    var es := Repeating();
    assert es[1] == Noted(2) && es[2] == Noted(3) && es[3] == Marked(4, 2, 3);
  }

  // ------------------------------------------------------- a frame that decodes and is refused

  /** The event's own encoding is a frame of this protocol again. */
  predicate Reencodes(codec: Codec, e: Event) {
    && codec.render(e).Some? && |codec.render(e).value| + 1 <= MAX_FRAME_BYTES
    && DecodeExecutorEvent(codec, codec.render(e).value + [LF]).Some?
  }

  /** The exact condition that DecodedFrameRefused shows can fail: a validator that is ready for it accepts the
      event of a decoded frame if and only if its own encoding fits in a frame and decodes. */
  lemma DecodedIsAcceptedIff(codec: Codec, v: Validator, frame: seq<Byte>, e: Event)
    requires !v.replay && !v.failed && !v.terminal && !v.finished
    requires DecodeExecutorEvent(codec, frame) == Some(e) && e.jobId == v.jobId && e.invocationId == v.invocationId
    ensures !AcceptEvent(codec, v, e).failed <==> Reencodes(codec, e)
  {
  }

  /** A library that writes what it read in one short frame as one byte more than a frame may hold,
      as escaping on output does, or as something it does not read back. */
  function Swelling(fits: bool): Codec {
    Codec((body: seq<Byte>) => if body == [65, 65] then Some((Noted(0), false)) else None,
          (e: Event) => Some(if fits then [66, 66] else seq(MAX_FRAME_BYTES, _ => 65)),
          (s: string) => false)
  }

  /** That a frame decodes is not enough. Both ways to be refused exist: the event's encoding is too long, or it
      fits and does not decode. */
  lemma DecodedFrameRefused(v: Validator, fits: bool)
    requires v == Validator("j", "i", 0, false, false, false, false, Unknown)
    ensures var codec := Swelling(fits);
            && DecodeExecutorEvent(codec, [65, 65, LF]) == Some(Noted(0)) && AcceptEvent(codec, v, Noted(0)).failed
            && codec.render(Noted(0)).Some? && (|codec.render(Noted(0)).value| + 1 <= MAX_FRAME_BYTES <==> fits)
  {
    var codec := Swelling(fits);
    var frame: seq<Byte> := [65, 65, LF];
    assert frame[..|frame| - 1] == [65, 65];
    assert FrameBody(frame) == Some([65, 65]);
    var body: seq<Byte> := [66, 66];
    assert (body + [LF])[..2] == body && body[0] != 65;
    assert codec.parse(body).None?;
  }
}
