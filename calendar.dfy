/** Proleptic Gregorian dates as Python's `datetime` handles them, the ISO reading
    `strptime(s, "%Y-%m-%d")`, the step `date - timedelta(days=1)`, and the aria-label
    text the ReserveCalifornia calendar shows for a day ("August 4th, 2025"). */
module Calendar {
  import opened Text

  datatype Date = Date(year: nat, month: nat, day: nat)

  predicate IsLeap(y: nat) {
    y % 4 == 0 && (y % 100 != 0 || y % 400 == 0)
  }

  function DaysInMonth(y: nat, m: nat): (n: nat)
    requires 1 <= m <= 12
    ensures 28 <= n <= 31
  {
    if m == 2 then (if IsLeap(y) then 29 else 28)
    else if m == 4 || m == 6 || m == 9 || m == 11 then 30
    else 31
  }

  /** `datetime`'s range: years 1 to 9999, and a day that exists in its month. */
  predicate ValidDate(d: Date) {
    1 <= d.year <= 9999 && 1 <= d.month <= 12 && 1 <= d.day <= DaysInMonth(d.year, d.month)
  }

  // ------------------------------------------------------------- day numbers

  function DaysInYear(y: nat): nat {
    if IsLeap(y) then 366 else 365
  }

  /** Days in the years before `y`, counted from 1 January of year 1. */
  function DaysBeforeYear(y: nat): nat
    decreases y
  {
    if y <= 1 then 0 else DaysBeforeYear(y - 1) + DaysInYear(y - 1)
  }

  /** Days in the months of year `y` before month `m`. */
  function DaysBeforeMonth(y: nat, m: nat): nat
    requires 1 <= m <= 12
  {
    [0, 31, 59, 90, 120, 151, 181, 212, 243, 273, 304, 334][m - 1]
    + (if m > 2 && IsLeap(y) then 1 else 0)
  }

  /** The proleptic ordinal, as `date.toordinal()` counts it: 1 January of year 1 is 1. */
  function Ordinal(d: Date): nat
    requires ValidDate(d)
  {
    DaysBeforeYear(d.year) + DaysBeforeMonth(d.year, d.month) + d.day
  }

  lemma DaysBeforeNextMonth(y: nat, m: nat)
    requires 1 <= m < 12
    ensures DaysBeforeMonth(y, m + 1) == DaysBeforeMonth(y, m) + DaysInMonth(y, m)
  {
  }

  lemma DaysBeforeYearEnd(y: nat)
    ensures DaysBeforeMonth(y, 12) + DaysInMonth(y, 12) == DaysInYear(y)
  {
  }

  // -------------------------------------------------------- one day earlier

  /** `date - timedelta(days=1)`; `None` for 1 January of year 1, where Python raises
      `OverflowError`. */
  function PreviousDay(d: Date): (r: Option<Date>)
    requires ValidDate(d)
    ensures r.Some? ==> ValidDate(r.value)
    ensures r.None? <==> d == Date(1, 1, 1)
  {
    if d.day > 1 then Some(Date(d.year, d.month, d.day - 1))
    else if d.month > 1 then Some(Date(d.year, d.month - 1, DaysInMonth(d.year, d.month - 1)))
    else if d.year > 1 then Some(Date(d.year - 1, 12, 31))
    else None
  }

  /** `date + timedelta(days=1)`, the partner of `PreviousDay`; `None` past 9999-12-31. */
  function NextDay(d: Date): (r: Option<Date>)
    requires ValidDate(d)
    ensures r.Some? ==> ValidDate(r.value)
  {
    if d.day < DaysInMonth(d.year, d.month) then Some(Date(d.year, d.month, d.day + 1))
    else if d.month < 12 then Some(Date(d.year, d.month + 1, 1))
    else if d.year < 9999 then Some(Date(d.year + 1, 1, 1))
    else None
  }

  /** The previous day is exactly one day earlier on the proleptic count, so month and
      year boundaries (and 29 February) are crossed correctly. */
  lemma PreviousDayOrdinal(d: Date)
    requires ValidDate(d) && d != Date(1, 1, 1)
    ensures Ordinal(PreviousDay(d).value) + 1 == Ordinal(d)
  {
    var p := PreviousDay(d).value;
    if d.day > 1 {
      assert p == Date(d.year, d.month, d.day - 1);
    } else if d.month > 1 {
      assert p == Date(d.year, d.month - 1, DaysInMonth(d.year, d.month - 1));
      DaysBeforeNextMonth(d.year, d.month - 1);
    } else {
      assert p == Date(d.year - 1, 12, 31);
      DaysBeforeYearEnd(d.year - 1);
      assert DaysBeforeYear(d.year) == DaysBeforeYear(d.year - 1) + DaysInYear(d.year - 1);
      assert DaysBeforeMonth(d.year, d.month) == 0;
    }
  }

  lemma NextAfterPrevious(d: Date)
    requires ValidDate(d) && d != Date(1, 1, 1)
    ensures NextDay(PreviousDay(d).value) == Some(d)
  {
  }

  lemma PreviousAfterNext(d: Date)
    requires ValidDate(d) && NextDay(d).Some?
    ensures PreviousDay(NextDay(d).value) == Some(d)
  {
  }

  // ---------------------------------------------------------- ISO reading

  /** `%d`: `3[01]|[12]\d|0[1-9]|[1-9]| [1-9]` covering the whole field. */
  function DayField(s: string): (r: Option<nat>)
    ensures r.Some? ==> 1 <= r.value <= 31
  {
    if |s| == 2 && s[0] == '3' && '0' <= s[1] <= '1' then Some(30 + DigitValue(s[1]))
    else if |s| == 2 && '1' <= s[0] <= '2' && IsDigit(s[1]) then Some(10 * DigitValue(s[0]) + DigitValue(s[1]))
    else if |s| == 2 && (s[0] == '0' || s[0] == ' ') && '1' <= s[1] <= '9' then Some(DigitValue(s[1]))
    else if |s| == 1 && '1' <= s[0] <= '9' then Some(DigitValue(s[0]))
    else None
  }

  /** `datetime.strptime(s, "%Y-%m-%d")`: four digits, a month and a day, separated by
      dashes, covering all of `s`, and naming a day that exists; otherwise `ValueError`. */
  function ParseIsoDate(s: string): (r: Option<Date>)
    ensures r.Some? ==> ValidDate(r.value)
  {
    var parts := Split(s, '-');
    if |parts| != 3 || |parts[0]| != 4 || !AllDigits(parts[0]) then None
    else
      match (TwelveField(parts[1]), DayField(parts[2]))
      case (Some(m), Some(dd)) =>
        var d := Date(DigitsValue(parts[0]), m, dd);
        if ValidDate(d) then Some(d) else None
      case _ => None
  }

  function Pad(n: nat, width: nat): (s: string)
    ensures |s| >= width && AllDigits(s) && DigitsValue(s) == n
    decreases width
  {
    if width <= |NatToString(n)| then NatToString(n)
    else
      var t := Pad(n, width - 1);
      LeadingZero(t);
      ['0'] + t
  }

  lemma {:induction false} LeadingZero(t: string)
    requires AllDigits(t)
    ensures AllDigits(['0'] + t) && DigitsValue(['0'] + t) == DigitsValue(t)
    decreases |t|
  {
    var z := ['0'] + t;
    if t != [] {
      LeadingZero(t[..|t| - 1]);
      assert z[..|z| - 1] == ['0'] + t[..|t| - 1];
    }
  }

  /** `date.isoformat()`, the form the configuration uses. */
  function IsoText(d: Date): string
    requires ValidDate(d)
  {
    Pad(d.year, 4) + "-" + Pad(d.month, 2) + "-" + Pad(d.day, 2)
  }

  lemma PadTwo(n: nat)
    requires 1 <= n <= 31
    ensures |Pad(n, 2)| == 2
  {
    if n < 10 {
      assert |NatToString(n)| == 1;
    } else {
      assert NatToString(n) == NatToString(n / 10) + [DigitChar(n % 10)];
    }
  }

  lemma PadYear(n: nat)
    requires 1 <= n <= 9999
    ensures |Pad(n, 4)| == 4
  {
    NatToStringLength(n);
  }

  lemma {:induction false} NatToStringLength(n: nat)
    ensures n < 10 ==> |NatToString(n)| == 1
    ensures 10 <= n < 100 ==> |NatToString(n)| == 2
    ensures 100 <= n < 1000 ==> |NatToString(n)| == 3
    ensures 1000 <= n < 10000 ==> |NatToString(n)| == 4
    decreases n
  {
    if n >= 10 {
      NatToStringLength(n / 10);
    }
  }

  lemma {:induction false} TwoDigitValue(s: string)
    requires |s| == 2 && AllDigits(s)
    ensures DigitsValue(s) == 10 * DigitValue(s[0]) + DigitValue(s[1])
  {
    var a := s[..1];
    assert a[..0] == [] && a[0] == s[0];
    assert DigitsValue(a) == DigitValue(s[0]);
    assert s[..|s| - 1] == a;
  }

  lemma TwelveFieldOfPad(m: nat)
    requires 1 <= m <= 12
    ensures TwelveField(Pad(m, 2)) == Some(m)
  {
    PadTwo(m);
    var s := Pad(m, 2);
    TwoDigitValue(s);
  }

  lemma DayFieldOfPad(d: nat)
    requires 1 <= d <= 31
    ensures DayField(Pad(d, 2)) == Some(d)
  {
    PadTwo(d);
    var s := Pad(d, 2);
    TwoDigitValue(s);
  }

  /** The ISO text splits at its two dashes into the padded year, month and day. */
  lemma IsoTextParts(d: Date)
    requires ValidDate(d)
    ensures Split(IsoText(d), '-') == [Pad(d.year, 4), Pad(d.month, 2), Pad(d.day, 2)]
  {
    var y, m, dd := Pad(d.year, 4), Pad(d.month, 2), Pad(d.day, 2);
    NoDash(y);
    NoDash(m);
    NoDash(dd);
    assert IsoText(d) == y + ['-'] + (m + ['-'] + dd);
    SplitAtFirst(y, m + ['-'] + dd, '-');
    SplitAtFirst(m, dd, '-');
    SplitNoSep(dd, '-');
  }

  /** Reading an ISO date back gives the date. */
  lemma ParseIsoText(d: Date)
    requires ValidDate(d)
    ensures ParseIsoDate(IsoText(d)) == Some(d)
  {
    IsoTextParts(d);
    PadYear(d.year);
    TwelveFieldOfPad(d.month);
    DayFieldOfPad(d.day);
  }

  lemma NoDash(s: string)
    requires AllDigits(s)
    ensures '-' !in s
  {
  }

  // ------------------------------------------------------------ the label

  function MonthName(m: nat): (s: string)
    requires 1 <= m <= 12
    ensures |s| >= 3 && forall k | 0 <= k < |s| :: 'A' <= s[k] <= 'z'
  {
    ["January", "February", "March", "April", "May", "June", "July",
     "August", "September", "October", "November", "December"][m - 1]
  }

  /** Lines 122-126 and 142-146: "th" for the 11th to the 13th, otherwise by the
      last digit. */
  function OrdinalSuffix(day: nat): string {
    if 11 <= day <= 13 then "th"
    else if day % 10 == 1 then "st"
    else if day % 10 == 2 then "nd"
    else if day % 10 == 3 then "rd"
    else "th"
  }

  /** The English ordinal rule, stated on the last two digits. */
  function EnglishOrdinalSuffix(n: nat): string {
    var t := n % 100;
    if t / 10 == 1 then "th"
    else if t % 10 == 1 then "st"
    else if t % 10 == 2 then "nd"
    else if t % 10 == 3 then "rd"
    else "th"
  }

  /** For every day of a month the source's rule is the English one; the 10th and the
      14th to the 19th take "th" through the last-digit branch. */
  lemma OrdinalSuffixIsEnglish(day: nat)
    requires 1 <= day <= 31
    ensures OrdinalSuffix(day) == EnglishOrdinalSuffix(day)
    ensures OrdinalSuffix(day) in {"st", "nd", "rd", "th"}
  {
  }

  /** `d.strftime("%B %-d") + suffix + ", " + str(d.year)`. */
  function DateLabel(d: Date): string
    requires ValidDate(d)
  {
    MonthName(d.month) + " " + NatToString(d.day) + OrdinalSuffix(d.day) + ", " + NatToString(d.year)
  }

  function MonthNumber(name: string): (r: Option<nat>)
    ensures r.Some? ==> 1 <= r.value <= 12 && MonthName(r.value) == name
  {
    if name == "January" then Some(1) else if name == "February" then Some(2)
    else if name == "March" then Some(3) else if name == "April" then Some(4)
    else if name == "May" then Some(5) else if name == "June" then Some(6)
    else if name == "July" then Some(7) else if name == "August" then Some(8)
    else if name == "September" then Some(9) else if name == "October" then Some(10)
    else if name == "November" then Some(11) else if name == "December" then Some(12)
    else None
  }

  /** Reads a label back: month name, day with its suffix and a comma, and the year. */
  function ParseDateLabel(s: string): Option<Date> {
    var parts := Split(s, ' ');
    if |parts| != 3 then None
    else
      var dayPart := parts[1];
      var e := RunEnd(dayPart, 0);
      if e == 0 || |dayPart| != e + 3 || dayPart[e + 2] != ',' || parts[2] == [] || !AllDigits(parts[2]) then None
      else
        match MonthNumber(parts[0])
        case None => None
        case Some(m) =>
          var d := Date(DigitsValue(parts[2]), m, DigitsValue(dayPart[..e]));
          if ValidDate(d) && dayPart[e..e + 2] == OrdinalSuffix(d.day) then Some(d) else None
  }

  lemma MonthNumberOfName(m: nat)
    requires 1 <= m <= 12
    ensures MonthNumber(MonthName(m)) == Some(m)
  {
  }

  lemma NoSpaceIn(s: string)
    requires forall k | 0 <= k < |s| :: s[k] != ' '
    ensures ' ' !in s
  {
  }

  /** The label splits at its two spaces into the month name, the day with its suffix
      and comma, and the year. */
  lemma DateLabelParts(d: Date)
    requires ValidDate(d)
    ensures Split(DateLabel(d), ' ') ==
      [MonthName(d.month), NatToString(d.day) + OrdinalSuffix(d.day) + ",", NatToString(d.year)]
  {
    var name, ds, suf, ys := MonthName(d.month), NatToString(d.day), OrdinalSuffix(d.day), NatToString(d.year);
    var dayPart := ds + suf + ",";
    assert DateLabel(d) == name + [' '] + (dayPart + [' '] + ys);
    NoSpaceIn(name);
    assert forall k | 0 <= k < |ds| :: IsDigit(ds[k]);
    assert forall k | 0 <= k < |ys| :: IsDigit(ys[k]);
    NoSpaceIn(dayPart);
    NoSpaceIn(ys);
    SplitAtFirst(name, dayPart + [' '] + ys, ' ');
    SplitAtFirst(dayPart, ys, ' ');
    SplitNoSep(ys, ' ');
  }

  /** The digits of the middle part end where the suffix starts. */
  lemma DayPartRun(day: nat)
    ensures var ds := NatToString(day); var dayPart := ds + OrdinalSuffix(day) + ",";
      RunEnd(dayPart, 0) == |ds| && |dayPart| == |ds| + 3 && dayPart[|ds| + 2] == ','
      && dayPart[..|ds|] == ds && dayPart[|ds|..|ds| + 2] == OrdinalSuffix(day)
  {
    var ds, suf := NatToString(day), OrdinalSuffix(day);
    var dayPart := ds + suf + ",";
    assert dayPart == ds + (suf + ",");
    RunEndConcat(ds, suf + ",", 0);
    assert dayPart[..|ds|] == ds;
    assert dayPart[|ds|..|ds| + 2] == suf;
  }

  /** Different days have different labels: reading the label gives the day back. */
  lemma ParseDateLabelOfLabel(d: Date)
    requires ValidDate(d)
    ensures ParseDateLabel(DateLabel(d)) == Some(d)
  {
    DateLabelParts(d);
    DayPartRun(d.day);
    MonthNumberOfName(d.month);
  }
}
