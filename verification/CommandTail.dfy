/** The bounded diagnostic tail of a failed command (internal/compose/failure.go). */
module CommandTail {
  import Transducer

  type Byte = n: nat | n < 256

  const LIMIT: nat := 4096
  const ESC: Byte := 27
  const BEL: Byte := 7
  const LF: Byte := 10
  const CR: Byte := 13
  const TAB: Byte := 9
  const BRACKET: Byte := 91
  const CLOSING: Byte := 93
  const BACKSLASH: Byte := 92

  /** Where the stripper is: in text, after ESC, inside a CSI or an OSC sequence, or after an ESC inside an OSC. */
  datatype Mode = Text | Escape | Csi | Osc | OscEscape

  // ------------------------------------------------------- the stripped stream

  predicate CsiFinal(b: Byte) {
    0x40 <= b <= 0x7e
  }

  function NextMode(m: Mode, b: Byte): Mode {
    match m
    case Text => if b == ESC then Escape else Text
    case Escape => if b == BRACKET then Csi else if b == CLOSING then Osc else Text
    case Csi => if CsiFinal(b) then Text else Csi
    case Osc => if b == BEL then Text else if b == ESC then OscEscape else Osc
    case OscEscape => if b == BACKSLASH then Text else Osc
  }

  predicate Allowed(b: Byte) {
    b == LF || b == TAB || (b >= 32 && b != 127)
  }

  function Emitted(m: Mode, b: Byte): seq<Byte> {
    if m != Text || b == ESC then []
    else if b == CR then [LF]
    else if Allowed(b) then [b]
    else []
  }

  function ModeAfter(m: Mode, p: seq<Byte>): Mode {
    Transducer.After(NextMode, m, p)
  }

  /** The one-pass stripped form of `p`, read from mode `m`. */
  function Strip(m: Mode, p: seq<Byte>): seq<Byte> {
    Transducer.Output(NextMode, Emitted, m, p)
  }

  function Tail(s: seq<Byte>): seq<Byte> {
    Transducer.Tail(LIMIT, s)
  }

  // ------------------------------------------------------- the writer

  datatype Held = Held(data: seq<Byte>, truncated: bool, mode: Mode)

  /** `h` once more text has been kept. */
  function Kept(h: Held, text: seq<Byte>, mode: Mode): Held {
    Held(Tail(h.data + text), h.truncated || |h.data + text| > LIMIT, mode)
  }

  function AfterWrite(h: Held, p: seq<Byte>): Held {
    Kept(h, Strip(h.mode, p), ModeAfter(h.mode, p))
  }

  lemma KeptTwice(h: Held, s: seq<Byte>, t: seq<Byte>, m: Mode, n: Mode)
    ensures Kept(Kept(h, s, m), t, n) == Kept(h, s + t, n)
  {
    Transducer.TailConcat(LIMIT, h.data + s, t);
    assert (h.data + s) + t == h.data + (s + t);
  }

  lemma KeptNothing(h: Held, m: Mode)
    requires |h.data| <= LIMIT
    ensures Kept(h, [], m) == h.(mode := m)
  {
    assert h.data + [] == h.data;
  }

  lemma AfterWriteSnoc(h: Held, p: seq<Byte>, b: Byte)
    ensures Kept(AfterWrite(h, p), Emitted(ModeAfter(h.mode, p), b), NextMode(ModeAfter(h.mode, p), b))
            == AfterWrite(h, p + [b])
  {
    Transducer.Snoc(NextMode, Emitted, h.mode, p, b);
    KeptTwice(h, Strip(h.mode, p), Emitted(ModeAfter(h.mode, p), b), ModeAfter(h.mode, p),
      NextMode(ModeAfter(h.mode, p), b));
  }

  class TailWriter {
    var data: seq<Byte>
    var truncated: bool
    var state: Mode

    function Holding(): Held
      reads this
    {
      Held(data, truncated, state)
    }

    constructor ()
      ensures Holding() == Held([], false, Text)
    {
      data, truncated, state := [], false, Text;
    }

    method Keep(b: Byte)
      requires |data| <= LIMIT
      modifies this`data, this`truncated
      ensures Holding() == Kept(old(Holding()), [b], state)
    {
      data := data + [b];
      if |data| > LIMIT {
        data := data[|data| - LIMIT..];
        truncated := true;
      }
    }

    method Consume(p: Byte)
      requires |data| <= LIMIT
      modifies this
      ensures Holding() == Kept(old(Holding()), Emitted(old(state), p), NextMode(old(state), p))
    {
      var b := p;
      KeptNothing(Holding(), NextMode(state, p));
      match state {
        case Escape =>
          state := if b == BRACKET then Csi else if b == CLOSING then Osc else Text;
        case Csi =>
          if CsiFinal(b) { state := Text; }
        case Osc =>
          if b == BEL { state := Text; } else if b == ESC { state := OscEscape; }
        case OscEscape =>
          state := if b == BACKSLASH then Text else Osc;
        case Text =>
          if b == ESC {
            state := Escape;
          } else {
            if b == CR { b := LF; }
            if !((b < 32 && b != LF && b != TAB) || b == 127) {
              Keep(b);
            }
          }
      }
    }

    method Write(p: seq<Byte>) returns (n: nat)
      requires |data| <= LIMIT
      modifies this
      ensures n == |p| && |data| <= LIMIT
      ensures Holding() == AfterWrite(old(Holding()), p)
    {
      var i := 0;
      assert p[..0] == [] && data + [] == data;
      while i < |p|
        invariant i <= |p| && |data| <= LIMIT && Holding() == AfterWrite(old(Holding()), p[..i])
      {
        AfterWriteSnoc(old(Holding()), p[..i], p[i]);
        assert p[..i + 1] == p[..i] + [p[i]];
        Consume(p[i]);
        i := i + 1;
      }
      assert p[..i] == p;
      n := |p|;
    }
  }

  // ------------------------------------------------------- every split into writes

  function AfterWrites(writes: seq<seq<Byte>>): Held {
    if writes == [] then Held([], false, Text)
    else AfterWrite(AfterWrites(writes[..|writes| - 1]), writes[|writes| - 1])
  }

  function Joined(writes: seq<seq<Byte>>): seq<Byte> {
    if writes == [] then [] else Joined(writes[..|writes| - 1]) + writes[|writes| - 1]
  }

  /** However the output is split into writes, sequences split across them included,
      the writer holds exactly the last 4096 bytes of the stripped whole, and says
      truncated exactly when the stripped whole is longer than that. */
  lemma {:induction false} SplitDoesNotMatter(writes: seq<seq<Byte>>)
    ensures var whole := Strip(Text, Joined(writes));
            AfterWrites(writes) == Held(Tail(whole), |whole| > LIMIT, ModeAfter(Text, Joined(writes)))
    decreases |writes|
  {
    if writes != [] {
      var init, last := writes[..|writes| - 1], writes[|writes| - 1];
      var text, mode := Strip(Text, Joined(init)), ModeAfter(Text, Joined(init));
      SplitDoesNotMatter(init);
      Transducer.Concat(NextMode, Emitted, Text, Joined(init), last);
      Transducer.TailConcat(LIMIT, text, Strip(mode, last));
    }
  }

  // ------------------------------------------------------- what stripping means

  predicate Clean(s: seq<Byte>) {
    forall i :: 0 <= i < |s| ==> Allowed(s[i])
  }

  /** Neither an escape nor a disallowed control byte is ever kept. */
  lemma {:induction false} StrippedIsClean(m: Mode, p: seq<Byte>)
    ensures Clean(Strip(m, p)) && Clean(Tail(Strip(m, p)))
    decreases |p|
  {
    if p != [] { StrippedIsClean(m, p[..|p| - 1]); }
  }

  /** Text without control bytes is kept as it is. */
  lemma {:induction false} PlainTextKept(p: seq<Byte>)
    requires Clean(p)
    ensures Strip(Text, p) == p && ModeAfter(Text, p) == Text
    decreases |p|
  {
    if p != [] {
      PlainTextKept(p[..|p| - 1]);
      assert p == p[..|p| - 1] + [p[|p| - 1]];
    }
  }

  /** Bytes read from mode `m` that give no text and leave mode `n`. */
  predicate Silent(m: Mode, p: seq<Byte>, n: Mode) {
    Strip(m, p) == [] && ModeAfter(m, p) == n
  }

  lemma {:induction false} CsiBody(p: seq<Byte>)
    requires forall i :: 0 <= i < |p| ==> !CsiFinal(p[i])
    ensures Silent(Csi, p, Csi)
    decreases |p|
  {
    if p != [] { CsiBody(p[..|p| - 1]); }
  }

  /** What an OSC sequence may hold: anything but BEL, and ESC only before a byte other than backslash. */
  predicate OscText(p: seq<Byte>) {
    p == [] || (p[0] != BEL && p[0] != ESC && OscText(p[1..])) ||
    (|p| >= 2 && p[0] == ESC && p[1] != BACKSLASH && OscText(p[2..]))
  }

  lemma OneByte(m: Mode, b: Byte)
    ensures ModeAfter(m, [b]) == NextMode(m, b) && Strip(m, [b]) == Emitted(m, b)
  {
    Transducer.One(NextMode, Emitted, m, b);
  }

  lemma SilentConcat(m: Mode, p: seq<Byte>, n: Mode, q: seq<Byte>, k: Mode)
    requires Silent(m, p, n) && Silent(n, q, k)
    ensures Silent(m, p + q, k)
  {
    Transducer.Concat(NextMode, Emitted, m, p, q);
  }

  lemma {:induction false} OscBody(p: seq<Byte>)
    requires OscText(p)
    ensures Silent(Osc, p, Osc)
    decreases |p|
  {
    if p != [] {
      OneByte(Osc, p[0]);
      if p[0] != BEL && p[0] != ESC && OscText(p[1..]) {
        OscBody(p[1..]);
        SilentConcat(Osc, [p[0]], Osc, p[1..], Osc);
        assert p == [p[0]] + p[1..];
      } else {
        OneByte(OscEscape, p[1]);
        OscBody(p[2..]);
        SilentConcat(OscEscape, [p[1]], Osc, p[2..], Osc);
        SilentConcat(Osc, [p[0]], OscEscape, [p[1]] + p[2..], Osc);
        assert p == [p[0]] + ([p[1]] + p[2..]);
      }
    }
  }

  /** ESC, an opening byte, a body and a closing. */
  function Sequence(open: Byte, body: seq<Byte>, close: seq<Byte>): seq<Byte> {
    [ESC] + ([open] + (body + close))
  }

  lemma SequenceIsSilent(open: Byte, m: Mode, body: seq<Byte>, close: seq<Byte>)
    requires NextMode(Escape, open) == m && Silent(m, body, m) && Silent(m, close, Text)
    ensures Silent(Text, Sequence(open, body, close), Text)
  {
    OneByte(Text, ESC);
    OneByte(Escape, open);
    SilentConcat(m, body, m, close, Text);
    SilentConcat(Escape, [open], m, body + close, Text);
    SilentConcat(Text, [ESC], Escape, [open] + (body + close), Text);
  }

  lemma SilentVanishes(before: seq<Byte>, p: seq<Byte>, after: seq<Byte>)
    requires ModeAfter(Text, before) == Text && Silent(Text, p, Text)
    ensures Strip(Text, before + (p + after)) == Strip(Text, before) + Strip(Text, after)
  {
    Transducer.Concat(NextMode, Emitted, Text, p, after);
    Transducer.Concat(NextMode, Emitted, Text, before, p + after);
  }

  /** A complete CSI sequence between two stretches of text vanishes, and only it. */
  lemma CsiVanishes(before: seq<Byte>, body: seq<Byte>, final: Byte, after: seq<Byte>)
    requires ModeAfter(Text, before) == Text && CsiFinal(final) && forall i :: 0 <= i < |body| ==> !CsiFinal(body[i])
    ensures Strip(Text, before + (Sequence(BRACKET, body, [final]) + after)) == Strip(Text, before) + Strip(Text, after)
  {
    CsiBody(body);
    OneByte(Csi, final);
    SequenceIsSilent(BRACKET, Csi, body, [final]);
    SilentVanishes(before, Sequence(BRACKET, body, [final]), after);
  }

  /** So does a complete OSC sequence, ended by BEL or by ESC backslash. */
  lemma OscVanishes(before: seq<Byte>, body: seq<Byte>, bel: bool, after: seq<Byte>)
    requires ModeAfter(Text, before) == Text && OscText(body)
    ensures var close := if bel then [BEL] else [ESC] + [BACKSLASH];
            Strip(Text, before + (Sequence(CLOSING, body, close) + after)) == Strip(Text, before) + Strip(Text, after)
  {
    var close := if bel then [BEL] else [ESC] + [BACKSLASH];
    OscBody(body);
    OneByte(Osc, BEL);
    OneByte(Osc, ESC);
    OneByte(OscEscape, BACKSLASH);
    SilentConcat(Osc, [ESC], OscEscape, [BACKSLASH], Text);
    SequenceIsSilent(CLOSING, Osc, body, close);
    SilentVanishes(before, Sequence(CLOSING, body, close), after);
  }

  /** So does ESC with any other byte after it. */
  lemma EscapeVanishes(before: seq<Byte>, b: Byte, after: seq<Byte>)
    requires ModeAfter(Text, before) == Text && b != BRACKET && b != CLOSING
    ensures Strip(Text, before + [ESC, b] + after) == Strip(Text, before) + Strip(Text, after)
  {
    OneByte(Text, ESC);
    OneByte(Escape, b);
    SilentConcat(Text, [ESC], Escape, [b], Text);
    assert [ESC] + [b] == [ESC, b];
    SilentVanishes(before, [ESC, b], after);
    assert before + [ESC, b] + after == before + ([ESC, b] + after);
  }

  /** In text, CR becomes LF, an allowed byte is kept and any other control byte vanishes. */
  lemma TextByte(before: seq<Byte>, b: Byte, after: seq<Byte>)
    requires ModeAfter(Text, before) == Text && b != ESC
    ensures Strip(Text, before + [b] + after)
            == Strip(Text, before) + (if b == CR then [LF] else if Allowed(b) then [b] else []) + Strip(Text, after)
  {
    OneByte(Text, b);
    Transducer.Concat(NextMode, Emitted, Text, before, [b]);
    Transducer.Concat(NextMode, Emitted, Text, before + [b], after);
  }
}
