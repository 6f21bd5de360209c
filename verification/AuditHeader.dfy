/** The torn header a crashed initialisation may leave, and the acceptor that
    decides whether recovery may truncate it (internal/audit/journal.go). */
module AuditHeader {
  import opened AuditJournal

  const FIXED: string := "{\"schema_version\":1,\"record_kind\":\"header\",\"recorded_at\":\""
  const STORE_FIELD: string := ",\"store_id\":\""
  const CLOSE: string := "\"}"

  // ------------------------------------------------------- the canonical header

  /** A UTC instant; `fraction` holds its fractional digits without trailing zeros. */
  datatype Instant = Instant(year: nat, month: nat, day: nat, hour: nat, minute: nat, second: nat, fraction: string)

  function DaysInMonth(year: nat, month: nat): nat {
    if month == 2 then if year % 400 == 0 || (year % 4 == 0 && year % 100 != 0) then 29 else 28
    else if month == 4 || month == 6 || month == 9 || month == 11 then 30
    else 31
  }

  predicate Digit(c: char) {
    '0' <= c <= '9'
  }

  predicate Digits(s: string) {
    forall i :: 0 <= i < |s| ==> Digit(s[i])
  }

  predicate ValidInstant(t: Instant) {
    && t.year <= 9999 && 1 <= t.month <= 12 && 1 <= t.day <= DaysInMonth(t.year, t.month)
    && t.hour <= 23 && t.minute <= 59 && t.second <= 59
    && |t.fraction| <= 9 && Digits(t.fraction) && (t.fraction != "" ==> t.fraction[|t.fraction| - 1] != '0')
  }

  function DigitChar(n: nat): char
    requires n < 10
  {
    '0' + n as char
  }

  function Two(n: nat): string
    requires n < 100
  {
    [DigitChar(n / 10), DigitChar(n % 10)]
  }

  function Four(n: nat): string
    requires n < 10000
  {
    Two(n / 100) + Two(n % 100)
  }

  /** The seconds-precision part, "2006-01-02T15:04:05". */
  function Base(t: Instant): string
    requires ValidInstant(t)
  {
    Four(t.year) + "-" + Two(t.month) + "-" + Two(t.day) + "T" + Two(t.hour) + ":" + Two(t.minute) + ":" + Two(t.second)
  }

  function Ending(t: Instant): string {
    (if t.fraction == "" then "" else "." + t.fraction) + "Z"
  }

  /** RFC 3339 with nanoseconds, as the encoder writes it. */
  function TimeText(t: Instant): string
    requires ValidInstant(t)
  {
    Base(t) + Ending(t)
  }

  function Suffix(storeId: string): string {
    STORE_FIELD + storeId + CLOSE
  }

  function Around(fixed: string, t: Instant, suffix: string): string
    requires ValidInstant(t)
  {
    fixed + TimeText(t) + ("\"" + suffix)
  }

  function HeaderBody(t: Instant, storeId: string): string
    requires ValidInstant(t)
  {
    Around(FIXED, t, Suffix(storeId))
  }

  // ------------------------------------------------------- the acceptor

  function Separator(i: nat): char {
    if i == 4 || i == 7 then '-' else if i == 10 then 'T' else if i == 13 || i == 16 then ':' else ' '
  }

  predicate BaseChar(i: nat, c: char) {
    if Separator(i) != ' ' then c == Separator(i) else Digit(c)
  }

  predicate BaseShape(v: string) {
    forall i :: 0 <= i < |v| && i < 19 ==> BaseChar(i, v[i])
  }

  function Value(c: char): int {
    c as int - '0' as int
  }

  function Pair(v: string, i: nat): int
    requires i + 1 < |v|
  {
    Value(v[i]) * 10 + Value(v[i + 1])
  }

  predicate DayInRange(v: string)
    requires |v| >= 10 && BaseShape(v)
  {
    var year := Pair(v, 0) * 100 + Pair(v, 2);
    1 <= Pair(v, 8) <= DaysInMonth(year, Pair(v, 5))
  }

  /** Every field that is complete is in range. */
  predicate FieldsInRange(v: string)
    requires BaseShape(v)
  {
    && (|v| >= 7 ==> 1 <= Pair(v, 5) <= 12)
    && (|v| >= 10 ==> DayInRange(v))
    && (|v| >= 13 ==> Pair(v, 11) <= 23)
    && (|v| >= 16 ==> Pair(v, 14) <= 59)
    && (|v| >= 19 ==> Pair(v, 17) <= 59)
  }

  /** What may follow the seconds, possibly cut short. */
  predicate EndingShape(w: string)
    requires w != ""
  {
    if w[0] == 'Z' then |w| == 1
    else
      && w[0] == '.' && |w| <= 11
      && forall i :: 1 <= i < |w| ==> if w[i] == 'Z' then i == |w| - 1 && i >= 2 else Digit(w[i]) && i <= 9
  }

  predicate PossibleTimePrefix(v: string) {
    |v| <= 30 && BaseShape(v) && FieldsInRange(v) && (|v| > 19 ==> EndingShape(v[19..]))
  }

  method IsPossibleUTCHeaderTimePrefix(v: string) returns (ok: bool)
    ensures ok <==> PossibleTimePrefix(v)
  {
    if |v| > 30 { return false; }
    var baseLength := if |v| > 19 then 19 else |v|;
    var index := 0;
    while index < baseLength
      invariant index <= baseLength
      invariant forall i :: 0 <= i < index ==> BaseChar(i, v[i])
    {
      if !BaseChar(index, v[index]) { return false; }
      index := index + 1;
    }
    if !FieldsInRange(v) { return false; }
    if |v| <= 19 { return true; }
    var tail := v[19..];
    if tail[0] == 'Z' { return |tail| == 1; }
    if tail[0] != '.' || |tail| > 11 { return false; }
    index := 1;
    while index < |tail|
      invariant 1 <= index <= |tail|
      invariant forall i :: 1 <= i < index ==> tail[i] != 'Z' && Digit(tail[i]) && i <= 9
    {
      if tail[index] == 'Z' { return index == |tail| - 1 && index >= 2 && index <= 10; }
      if !Digit(tail[index]) || index > 9 { return false; }
      index := index + 1;
    }
    return true;
  }

  /** A complete timestamp of the RFC 3339 section 5.6 grammar with zone Z: what the time parser must accept. */
  predicate ParsesAsUTC(v: string) {
    && |v| >= 20 && BaseShape(v) && FieldsInRange(v)
    && v[|v| - 1] == 'Z'
    && (|v| == 20 || (|v| > 21 && v[19] == '.' && Digits(v[20..|v| - 1])))
  }

  function IndexOf(s: string, c: char): (n: nat)
    ensures n <= |s|
    ensures n < |s| ==> s[n] == c
    ensures forall i :: 0 <= i < n ==> s[i] != c
  {
    if s == "" || s[0] == c then 0 else 1 + IndexOf(s[1..], c)
  }

  predicate PossiblePrefix(body: string, fixed: string, suffix: string) {
    if |body| <= |fixed| then body <= fixed
    else if !(fixed <= body) then false
    else
      var remainder := body[|fixed|..];
      var quote := IndexOf(remainder, '"');
      if quote == |remainder| then PossibleTimePrefix(remainder)
      else ParsesAsUTC(remainder[..quote]) && remainder[quote + 1..] <= suffix
  }

  predicate PossibleHeaderPrefix(body: string, storeId: string) {
    PossiblePrefix(body, FIXED, Suffix(storeId))
  }

  predicate IdentifiableLegacyPrefix(body: string) {
    var marker := "{\"sequence\":";
    if |body| < 4 then false
    else if |body| <= |marker| then body <= marker
    else marker <= body
  }

  // ------------------------------------------------------- what it accepts

  lemma BaseInRange(t: Instant)
    requires ValidInstant(t)
    ensures |Base(t)| == 19 && BaseShape(Base(t)) && FieldsInRange(Base(t))
  {
    var b := Base(t);
    assert Pair(b, 0) == t.year / 100 && Pair(b, 2) == t.year % 100;
    assert Pair(b, 5) == t.month && Pair(b, 8) == t.day;
    assert Pair(b, 11) == t.hour && Pair(b, 14) == t.minute && Pair(b, 17) == t.second;
  }

  lemma SameFields(v: string, w: string)
    requires BaseShape(w) && FieldsInRange(w) && |w| >= 19
    requires forall i :: 0 <= i < |v| && i < 19 ==> v[i] == w[i]
    ensures BaseShape(v) && FieldsInRange(v)
  {
    assert BaseShape(v);
  }

  lemma EndingIsShaped(t: Instant, n: nat)
    requires ValidInstant(t) && 0 < n <= |Ending(t)|
    ensures EndingShape(Ending(t)[..n])
  {
  }

  lemma TimePrefixAccepted(t: Instant, n: nat)
    requires ValidInstant(t) && n <= |TimeText(t)|
    ensures PossibleTimePrefix(TimeText(t)[..n])
  {
    var v := TimeText(t)[..n];
    BaseInRange(t);
    SameFields(v, Base(t));
    if n > 19 {
      EndingIsShaped(t, n - 19);
      assert v[19..] == Ending(t)[..n - 19];
    }
  }

  lemma TimeTextParses(t: Instant)
    requires ValidInstant(t)
    ensures ParsesAsUTC(TimeText(t))
  {
    var v := TimeText(t);
    BaseInRange(t);
    SameFields(v, Base(t));
    assert v[19..] == Ending(t);
    if t.fraction != "" {
      assert v[20..|v| - 1] == t.fraction;
    }
  }

  lemma TimeTextUnquoted(t: Instant)
    requires ValidInstant(t)
    ensures forall i :: 0 <= i < |TimeText(t)| ==> TimeText(t)[i] != '"'
  {
    TimePrefixAccepted(t, |TimeText(t)|);
    var v := TimeText(t);
    assert v[..|v|] == v;
    BaseInRange(t);
    forall i | 0 <= i < |v|
      ensures v[i] != '"'
    {
      if i >= 19 { assert v[i] == Ending(t)[i - 19]; } else { assert BaseChar(i, v[i]); }
    }
  }

  lemma InsideTime(fixed: string, t: Instant, suffix: string, expected: string, n: nat)
    requires ValidInstant(t) && |fixed| < n <= |fixed| + |TimeText(t)|
    ensures Around(fixed, t, suffix)[..n] == fixed + TimeText(t)[..n - |fixed|]
    ensures PossiblePrefix(Around(fixed, t, suffix)[..n], fixed, expected)
  {
    var time, k := TimeText(t), n - |fixed|;
    var body := Around(fixed, t, suffix)[..n];
    assert body == fixed + time[..k];
    assert body[|fixed|..] == time[..k];
    TimeTextUnquoted(t);
    TimePrefixAccepted(t, k);
  }

  lemma PastTime(fixed: string, t: Instant, suffix: string, expected: string, k: nat)
    requires ValidInstant(t) && k <= |suffix|
    ensures var body := fixed + TimeText(t) + "\"" + suffix[..k];
            PossiblePrefix(body, fixed, expected) <==> suffix[..k] <= expected
  {
    var time := TimeText(t);
    var body := fixed + time + "\"" + suffix[..k];
    var remainder := body[|fixed|..];
    assert fixed <= body;
    assert remainder == time + "\"" + suffix[..k];
    TimeTextUnquoted(t);
    FirstQuote(time, suffix[..k]);
    assert remainder[..|time|] == time && remainder[|time| + 1..] == suffix[..k];
    TimeTextParses(t);
  }

  lemma FirstQuote(a: string, b: string)
    requires forall i :: 0 <= i < |a| ==> a[i] != '"'
    ensures IndexOf(a + "\"" + b, '"') == |a|
  {
    var s := a + "\"" + b;
    assert s[|a|] == '"';
    assert forall i :: 0 <= i < |a| ==> s[i] == a[i];
  }

  lemma PrefixAcceptedIff(fixed: string, t: Instant, written: string, expected: string, n: nat)
    requires ValidInstant(t) && n <= |Around(fixed, t, written)|
    ensures PossiblePrefix(Around(fixed, t, written)[..n], fixed, expected)
            <==> Around(fixed, t, written)[..n] <= Around(fixed, t, expected)
  {
    var time := TimeText(t);
    var body := Around(fixed, t, written)[..n];
    if n <= |fixed| {
      assert body == fixed[..n];
    } else if n <= |fixed| + |time| {
      InsideTime(fixed, t, written, expected, n);
    } else {
      var k := n - |fixed| - |time| - 1;
      var common := fixed + time + "\"";
      assert body == common + written[..k];
      assert Around(fixed, t, expected) == common + expected;
      PastTime(fixed, t, written, expected, k);
      PrefixAfter(common, written[..k], expected);
    }
  }

  /** A torn header of one store is accepted for a store exactly when it is also a
      torn header of that store: every nonempty prefix of the right header may be
      repaired, and nothing that has already diverged on the store ID. */
  lemma HeaderPrefixAcceptedIff(t: Instant, written: string, expected: string, n: nat)
    requires ValidInstant(t) && n <= |HeaderBody(t, written)|
    ensures PossibleHeaderPrefix(HeaderBody(t, written)[..n], expected)
            <==> HeaderBody(t, written)[..n] <= HeaderBody(t, expected)
  {
    PrefixAcceptedIff(FIXED, t, Suffix(written), Suffix(expected), n);
  }

  lemma PrefixAfter(common: string, a: string, b: string)
    ensures common + a <= common + b <==> a <= b
  {
    if common + a <= common + b {
      forall i | 0 <= i < |a|
        ensures a[i] == b[i]
      {
        assert (common + a)[|common| + i] == (common + b)[|common| + i];
      }
    }
  }

  /** The residue a crash may leave of a header written for `storeId`. */
  ghost predicate TornHeader(text: string, storeId: string) {
    text != "" && exists t: Instant :: ValidInstant(t) && text <= HeaderBody(t, storeId)
  }

  lemma TornHeaderRepairable(text: string, storeId: string)
    requires TornHeader(text, storeId)
    ensures PossibleHeaderPrefix(text, storeId)
  {
    var t: Instant :| ValidInstant(t) && text <= HeaderBody(t, storeId);
    HeaderPrefixAcceptedIff(t, storeId, storeId, |text|);
    assert text == HeaderBody(t, storeId)[..|text|];
  }

  /** A complete header of another store is never taken for this one's. */
  lemma OtherStoreRejected(t: Instant, written: string, expected: string)
    requires ValidInstant(t) && |written| == |expected|
    ensures PossibleHeaderPrefix(HeaderBody(t, written), expected) <==> written == expected
  {
    WholeAcceptedIff(FIXED, t, Suffix(written), Suffix(expected));
    SuffixNames(STORE_FIELD, written, expected, CLOSE);
  }

  lemma WholeAcceptedIff(fixed: string, t: Instant, written: string, expected: string)
    requires ValidInstant(t)
    ensures PossiblePrefix(Around(fixed, t, written), fixed, expected) <==> written <= expected
  {
    var body := Around(fixed, t, written);
    PrefixAcceptedIff(fixed, t, written, expected, |body|);
    assert body[..|body|] == body;
    var common := fixed + TimeText(t) + "\"";
    assert body == common + written && Around(fixed, t, expected) == common + expected;
    PrefixAfter(common, written, expected);
  }

  lemma SuffixNames(field: string, a: string, b: string, close: string)
    requires |a| == |b|
    ensures field + a + close <= field + b + close <==> a == b
  {
    var x, y := field + a + close, field + b + close;
    if x <= y {
      assert a == x[|field|..|field| + |a|] == y[|field|..|field| + |a|] == b;
    }
  }

  // ------------------------------------------------------- which times it accepts

  /** An instant of whole seconds, written with any fractional digits. */
  function Stamp(t: Instant, fraction: string): string
    requires ValidInstant(t)
  {
    Base(t) + (if fraction == "" then "" else "." + fraction) + "Z"
  }

  ghost predicate Stamped(v: string, t: Instant, fraction: string) {
    ValidInstant(t) && |fraction| <= 9 && Digits(fraction) && v <= Stamp(t, fraction)
  }

  ghost predicate BeginsTimestamp(v: string) {
    exists t, fraction :: Stamped(v, t, fraction)
  }

  /** A two-digit field of which only the first digit is there can still be completed within its range. */
  predicate HalfFieldFits(v: string)
    requires BaseShape(v)
  {
    && (|v| == 6 ==> v[5] <= '1')
    && (|v| == 9 ==> v[8] <= '2' || (v[8] == '3' && DaysInMonth(Pair(v, 0) * 100 + Pair(v, 2), Pair(v, 5)) >= 30))
    && (|v| == 12 ==> v[11] <= '2') && (|v| == 15 ==> v[14] <= '5') && (|v| == 18 ==> v[17] <= '5')
  }

  /** A character that may come next. */
  function NextChar(v: string): char
    requires |v| < 19
  {
    var i := |v|;
    if Separator(i) != ' ' then Separator(i)
    else if (i == 6 || i == 9) && v[i - 1] == '0' then '1'
    else '0'
  }

  lemma NextCharFits(v: string)
    requires |v| < 19 && BaseShape(v) && FieldsInRange(v) && HalfFieldFits(v)
    ensures var w := v + [NextChar(v)]; BaseShape(w) && FieldsInRange(w) && HalfFieldFits(w)
  {
    var w := v + [NextChar(v)];
    assert forall i :: 0 <= i < |v| ==> w[i] == v[i];
    assert BaseShape(w);
  }

  lemma {:induction false} Completable(v: string) returns (w: string)
    requires |v| <= 19 && BaseShape(v) && FieldsInRange(v) && HalfFieldFits(v)
    ensures v <= w && |w| == 19 && BaseShape(w) && FieldsInRange(w)
    decreases 19 - |v|
  {
    if |v| == 19 {
      w := v;
    } else {
      NextCharFits(v);
      w := Completable(v + [NextChar(v)]);
      assert v <= v + [NextChar(v)];
    }
  }

  lemma PairIsTwo(v: string, i: nat)
    requires i + 1 < |v| && Digit(v[i]) && Digit(v[i + 1])
    ensures 0 <= Pair(v, i) < 100 && Two(Pair(v, i)) == v[i..i + 2]
  {
    assert Pair(v, i) / 10 == Value(v[i]) && Pair(v, i) % 10 == Value(v[i + 1]);
  }

  /** Nineteen characters of the right shape with every field in range are the text of an instant. */
  lemma InRangeIsBase(w: string) returns (t: Instant)
    requires |w| == 19 && BaseShape(w) && FieldsInRange(w)
    ensures ValidInstant(t) && t.fraction == "" && Base(t) == w
  {
    assert forall i :: 0 <= i < 19 ==> BaseChar(i, w[i]);
    PairIsTwo(w, 0);
    PairIsTwo(w, 2);
    PairIsTwo(w, 5);
    PairIsTwo(w, 8);
    PairIsTwo(w, 11);
    PairIsTwo(w, 14);
    PairIsTwo(w, 17);
    var year := Pair(w, 0) * 100 + Pair(w, 2);
    assert year / 100 == Pair(w, 0) && year % 100 == Pair(w, 2);
    t := Instant(year, Pair(w, 5), Pair(w, 8), Pair(w, 11), Pair(w, 14), Pair(w, 17), "");
    BaseSpells(t, w);
  }

  lemma BaseSpells(t: Instant, w: string)
    requires ValidInstant(t) && |w| == 19 && BaseShape(w)
    requires Two(t.year / 100) == w[0..2] && Two(t.year % 100) == w[2..4] && Two(t.month) == w[5..7]
    requires Two(t.day) == w[8..10] && Two(t.hour) == w[11..13] && Two(t.minute) == w[14..16]
    requires Two(t.second) == w[17..19]
    ensures Base(t) == w
  {
    assert BaseChar(4, w[4]) && BaseChar(7, w[7]) && BaseChar(10, w[10]) && BaseChar(13, w[13]) && BaseChar(16, w[16]);
    assert w == w[0..2] + w[2..4] + "-" + w[5..7] + "-" + w[8..10] + "T" + w[11..13] + ":" + w[14..16] + ":"
                + w[17..19];
  }

  /** The fraction that the rest of an accepted time begins. */
  lemma EndingBegins(v: string) returns (fraction: string)
    requires |v| > 19 && |v| <= 30 && EndingShape(v[19..])
    ensures |fraction| <= 9 && Digits(fraction)
    ensures v[19..] <= (if fraction == "" then "" else "." + fraction) + "Z"
  {
    var w := v[19..];
    if w[0] == 'Z' {
      fraction := "";
      assert w == "Z";
    } else if |w| == 1 {
      fraction := "0";
      assert w == "." && "." <= "." + fraction + "Z";
    } else if w[|w| - 1] == 'Z' {
      fraction := w[1..|w| - 1];
      assert w == "." + fraction + "Z";
    } else {
      fraction := w[1..];
      assert w == "." + fraction && w <= "." + fraction + "Z";
    }
  }

  lemma AcceptedBegins(v: string)
    requires PossibleTimePrefix(v) && HalfFieldFits(v)
    ensures BeginsTimestamp(v)
  {
    if |v| <= 19 {
      var w := Completable(v);
      var t := InRangeIsBase(w);
      assert v <= Base(t) <= Stamp(t, "");
      assert Stamped(v, t, "");
    } else {
      assert forall i :: 0 <= i < 19 ==> v[..19][i] == v[i];
      var t := InRangeIsBase(v[..19]);
      var fraction := EndingBegins(v);
      assert v == v[..19] + v[19..];
      var rest := (if fraction == "" then "" else "." + fraction) + "Z";
      assert Stamp(t, fraction) == Base(t) + rest;
      PrefixAfter(Base(t), v[19..], rest);
      assert Stamped(v, t, fraction);
    }
  }

  lemma StampedIsAccepted(v: string, t: Instant, fraction: string)
    requires Stamped(v, t, fraction)
    ensures PossibleTimePrefix(v) && HalfFieldFits(v)
  {
    var b, rest := Base(t), (if fraction == "" then "" else "." + fraction) + "Z";
    assert Stamp(t, fraction) == b + rest;
    BaseInRange(t);
    assert forall i :: 0 <= i < |v| && i < 19 ==> v[i] == (b + rest)[i] == b[i];
    SameFields(v, b);
    HalfOfBaseFits(v, b);
    if |v| > 19 { assert forall i :: 0 <= i < |v| - 19 ==> v[19..][i] == v[19 + i] == rest[i]; }
  }

  lemma HalfOfBaseFits(v: string, b: string)
    requires |b| == 19 && BaseShape(b) && FieldsInRange(b) && BaseShape(v)
    requires forall i :: 0 <= i < |v| && i < 19 ==> v[i] == b[i]
    ensures HalfFieldFits(v)
  {
    assert forall i :: 0 <= i < 19 ==> BaseChar(i, b[i]);
    if |v| == 9 { assert Pair(v, 0) == Pair(b, 0) && Pair(v, 2) == Pair(b, 2) && Pair(v, 5) == Pair(b, 5); }
  }

  /** Exactly which times are accepted: a text begins a timestamp if and only if it is accepted and the field it
      breaks off in, if it does, can be completed within its range. */
  lemma TimePrefixBeginsIff(v: string)
    ensures BeginsTimestamp(v) <==> PossibleTimePrefix(v) && HalfFieldFits(v)
  {
    if BeginsTimestamp(v) {
      var t, fraction :| Stamped(v, t, fraction);
      StampedIsAccepted(v, t, fraction);
    }
    if PossibleTimePrefix(v) && HalfFieldFits(v) { AcceptedBegins(v); }
  }

  /** A field cut in half is not checked: this is accepted, though no month begins with 2. A whole field is. */
  lemma HalfFieldIsUnchecked()
    ensures PossibleTimePrefix("2026-2") && !BeginsTimestamp("2026-2")
    ensures !PossibleTimePrefix("2026-13")
  {
    TimePrefixBeginsIff("2026-2");
    assert Pair("2026-13", 5) == 13;
  }
}
