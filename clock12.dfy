/** Twelve-hour clock times as the ForeUp bot reads them: `strptime(s, "%I:%M%p")` for
    tile labels ("5:51pm", after `s.lower()`) and `strptime(s, "%I:%M %p")` for the times
    in the configuration ("05:30 PM"). */
module Clock12 {
  import opened Text

  /** A `datetime.time` whose seconds are zero, which is all these formats produce. */
  datatype Time = Time(hour: nat, minute: nat) {
    predicate Valid() { hour < 24 && minute < 60 }
  }

  /** The fields `strptime` reads: `%I` (1..12), `%M` and `%p`. */
  datatype Fields = Fields(hour12: nat, minute: nat, pm: bool) {
    predicate Valid() { 1 <= hour12 <= 12 && minute < 60 }
  }

  function Minutes(t: Time): nat { t.hour * 60 + t.minute }

  /** Python's `<=` on `time` values: lexicographic on (hour, minute). */
  predicate NotAfter(a: Time, b: Time) {
    a.hour < b.hour || (a.hour == b.hour && a.minute <= b.minute)
  }

  /** `_get_time_difference`: the absolute distance in minutes. */
  function TimeDifference(a: Time, b: Time): nat {
    var x, y := Minutes(a), Minutes(b);
    if x >= y then x - y else y - x
  }

  lemma MinutesMonotone(a: Time, b: Time)
    requires a.Valid() && b.Valid() && a.hour < b.hour
    ensures Minutes(a) < Minutes(b)
  {
    assert Minutes(a) < a.hour * 60 + 60 == (a.hour + 1) * 60 <= b.hour * 60;
  }

  /** The time ordering the window filter uses is the ordering of minutes of the day. */
  lemma NotAfterIsMinutesOrder(a: Time, b: Time)
    requires a.Valid() && b.Valid()
    ensures NotAfter(a, b) <==> Minutes(a) <= Minutes(b)
  {
    if a.hour < b.hour {
      MinutesMonotone(a, b);
    } else if b.hour < a.hour {
      MinutesMonotone(b, a);
    }
  }

  lemma TimeDifferenceSymmetric(a: Time, b: Time)
    ensures TimeDifference(a, b) == TimeDifference(b, a)
  {
  }

  /** Distinct valid times are at least a minute apart. */
  lemma TimeDifferenceZeroIffEqual(a: Time, b: Time)
    requires a.Valid() && b.Valid()
    ensures TimeDifference(a, b) == 0 <==> a == b
  {
    if a.hour < b.hour {
      MinutesMonotone(a, b);
    } else if b.hour < a.hour {
      MinutesMonotone(b, a);
    }
  }

  lemma TimeDifferenceBound(a: Time, b: Time)
    requires a.Valid() && b.Valid()
    ensures TimeDifference(a, b) <= 1439
  {
    assert Minutes(a) <= 23 * 60 + 59 by {
      assert a.hour * 60 <= 23 * 60;
    }
    assert Minutes(b) <= 23 * 60 + 59 by {
      assert b.hour * 60 <= 23 * 60;
    }
  }

  /** `%p` with `%I`: 12 AM is hour 0, 12 PM is hour 12, other PM hours add 12. */
  function To24(f: Fields): Time {
    var h := if f.hour12 == 12 then 0 else f.hour12;
    Time(if f.pm then h + 12 else h, f.minute)
  }

  /** The twelve-hour reading of a time, as `strftime("%I", "%M", "%p")` would show it. */
  function FieldsOf(t: Time): Fields {
    var h := t.hour % 12;
    Fields(if h == 0 then 12 else h, t.minute, t.hour >= 12)
  }

  lemma To24Valid(f: Fields)
    requires f.Valid()
    ensures To24(f).Valid() && FieldsOf(To24(f)) == f
  {
  }

  lemma FieldsOfValid(t: Time)
    requires t.Valid()
    ensures FieldsOf(t).Valid() && To24(FieldsOf(t)) == t
  {
  }

  /** `%M`: the regular expression `[0-5]\d|\d`, which must cover `m` exactly. */
  function MinuteField(m: string): (r: Option<nat>)
    ensures r.Some? ==> r.value < 60
  {
    if |m| == 2 && '0' <= m[0] <= '5' && IsDigit(m[1]) then Some(10 * DigitValue(m[0]) + DigitValue(m[1]))
    else if |m| == 1 && IsDigit(m[0]) then Some(DigitValue(m[0]))
    else None
  }

  /** `%p`, matched without regard to case: `Some(true)` for PM. */
  function MeridiemField(p: string): Option<bool> {
    if |p| == 2 && (p[1] == 'm' || p[1] == 'M') then
      if p[0] == 'a' || p[0] == 'A' then Some(false)
      else if p[0] == 'p' || p[0] == 'P' then Some(true)
      else None
    else None
  }

  predicate AllSpace(w: string) {
    forall k | 0 <= k < |w| :: IsSpace(w[k])
  }

  /** `strptime` on `%I:%M%p` (`spaced` false) or `%I:%M %p` (`spaced` true; the blank in
      the format matches one or more whitespace characters). The hour ends at the first
      colon, the meridiem is the last two characters, the minute is the run of digits
      after the colon, and whatever is left between must be the whitespace; any other
      shape raises `ValueError`, here `None`. */
  function LexClock(s: string, spaced: bool): (r: Option<Fields>)
    ensures r.Some? ==> r.value.Valid()
  {
    var c := if 2 <= |s| && s[1] == ':' then 1 else if 3 <= |s| && s[2] == ':' then 2 else 0;
    if c == 0 || |s| < c + 3 then None
    else
      var rest := s[c + 1..];
      var mid := rest[..|rest| - 2];
      var e := RunEnd(mid, 0);
      var w := mid[e..];
      if (if spaced then w == [] || !AllSpace(w) else w != []) then None
      else
        match (TwelveField(s[..c]), MinuteField(mid[..e]), MeridiemField(rest[|rest| - 2..]))
        case (Some(h), Some(m), Some(pm)) => Some(Fields(h, m, pm))
        case _ => None
  }

  function ParseClock(s: string, spaced: bool): (r: Option<Time>)
    ensures r.Some? ==> r.value.Valid()
  {
    match LexClock(s, spaced)
    case Some(f) => To24Valid(f); Some(To24(f))
    case None => None
  }

  /** `_parse_time`: lower-case the tile label, then read it as `%I:%M%p`. */
  function ParseLabel(s: string): Option<Time> {
    ParseClock(AsciiLower(s), false)
  }

  /** The configuration's `start_time` and window bounds, read as `%I:%M %p`. */
  function ParseConfigTime(s: string): Option<Time> {
    ParseClock(s, true)
  }

  // ------------------------------------------------------------ renderings

  function Pad2(n: nat): (s: string)
    requires n < 100
    ensures |s| == 2 && IsDigit(s[0]) && IsDigit(s[1])
  {
    [DigitChar(n / 10), DigitChar(n % 10)]
  }

  /** A tile label as the booking page prints it: "5:51pm", "12:07am". */
  function LabelText(t: Time): string
    requires t.Valid()
  {
    var f := FieldsOf(t);
    FieldsOfValid(t);
    (if f.hour12 < 10 then [DigitChar(f.hour12)] else Pad2(f.hour12))
    + ":" + Pad2(f.minute) + (if f.pm then "pm" else "am")
  }

  /** `t.strftime('%I:%M %p')`, the form the bot logs: "05:51 PM". */
  function ConfigText(t: Time): string
    requires t.Valid()
  {
    var f := FieldsOf(t);
    FieldsOfValid(t);
    Pad2(f.hour12) + ":" + Pad2(f.minute) + " " + (if f.pm then "PM" else "AM")
  }

  lemma Pad2Digits(n: nat)
    requires n < 100
    ensures Pad2(n)[0] == DigitChar(n / 10) && Pad2(n)[1] == DigitChar(n % 10)
    ensures 10 * DigitValue(Pad2(n)[0]) + DigitValue(Pad2(n)[1]) == n
  {
  }

  lemma AsciiLowerNoUpper(s: string)
    requires forall k | 0 <= k < |s| :: !('A' <= s[k] <= 'Z')
    ensures AsciiLower(s) == s
  {
  }

  /** How `LexClock` splits a text made of an hour, a colon, two minute digits, a gap
      that does not start with a digit, and two meridiem characters. */
  lemma LexClockParts(hs: string, mm: string, w: string, p: string, spaced: bool)
    requires TwelveField(hs).Some? && |mm| == 2 && IsDigit(mm[0]) && IsDigit(mm[1])
    requires (w == [] || !IsDigit(w[0])) && |p| == 2
    ensures LexClock(hs + ":" + mm + w + p, spaced) ==
      if (if spaced then w == [] || !AllSpace(w) else w != []) then None
      else match (MinuteField(mm), MeridiemField(p))
        case (Some(m), Some(pm)) => Some(Fields(TwelveField(hs).value, m, pm))
        case _ => None
  {
    var s := hs + ":" + mm + w + p;
    var c := |hs|;
    assert s[..c] == hs && s[c] == ':';
    assert c == 2 ==> s[1] == hs[1];
    var rest := s[c + 1..];
    assert rest == mm + w + p;
    var mid := rest[..|rest| - 2];
    assert mid == mm + w && rest[|rest| - 2..] == p;
    MinuteRun(mm, w);
    assert mid[..2] == mm && mid[2..] == w;
  }

  lemma MinuteRun(mm: string, w: string)
    requires |mm| == 2 && IsDigit(mm[0]) && IsDigit(mm[1])
    requires w == [] || !IsDigit(w[0])
    ensures RunEnd(mm + w, 0) == 2
  {
    var mid := mm + w;
    assert RunEnd(mid, 2) == 2 by {
      assert 2 < |mid| ==> mid[2] == w[0];
    }
    assert RunEnd(mid, 1) == RunEnd(mid, 2);
  }

  /** Reading back a printed tile label gives the time it shows. */
  lemma ParseLabelText(t: Time)
    requires t.Valid()
    ensures ParseLabel(LabelText(t)) == Some(t)
  {
    var f := FieldsOf(t);
    FieldsOfValid(t);
    var hs := if f.hour12 < 10 then [DigitChar(f.hour12)] else Pad2(f.hour12);
    var p := if f.pm then "pm" else "am";
    var s := LabelText(t);
    assert s == hs + ":" + Pad2(f.minute) + [] + p;
    AsciiLowerNoUpper(s);
    Pad2Digits(f.minute);
    if f.hour12 >= 10 {
      Pad2Digits(f.hour12);
    }
    assert TwelveField(hs) == Some(f.hour12);
    assert MinuteField(Pad2(f.minute)) == Some(f.minute);
    assert MeridiemField(p) == Some(f.pm);
    LexClockParts(hs, Pad2(f.minute), [], p, false);
    assert LexClock(s, false) == Some(f);
    assert AsciiLower(s) == s;
  }

  /** Reading back the logged form of a configured time gives that time. */
  lemma ParseConfigText(t: Time)
    requires t.Valid()
    ensures ParseConfigTime(ConfigText(t)) == Some(t)
  {
    var f := FieldsOf(t);
    FieldsOfValid(t);
    var p := if f.pm then "PM" else "AM";
    assert ConfigText(t) == Pad2(f.hour12) + ":" + Pad2(f.minute) + " " + p;
    Pad2Digits(f.minute);
    Pad2Digits(f.hour12);
    assert TwelveField(Pad2(f.hour12)) == Some(f.hour12);
    assert AllSpace(" ");
    assert MinuteField(Pad2(f.minute)) == Some(f.minute);
    assert MeridiemField(p) == Some(f.pm);
    LexClockParts(Pad2(f.hour12), Pad2(f.minute), " ", p, true);
    assert LexClock(ConfigText(t), true) == Some(f);
  }

  /** The label form has no blank between minute and meridiem: "5:51 pm" is not a label. */
  lemma SpacedLabelRejected()
    ensures ParseLabel("5:51 pm") == None
    ensures ParseConfigTime("5:51 pm") == Some(Time(17, 51))
  {
    assert AsciiLower("5:51 pm") == "5:51 pm";
    assert "5:51 pm" == "5" + ":" + "51" + " " + "pm";
    assert AllSpace(" ");
    LexClockParts("5", "51", " ", "pm", false);
    LexClockParts("5", "51", " ", "pm", true);
  }
}
