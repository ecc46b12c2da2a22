/** The ReserveCalifornia campsite bot (`reserve_ca_bot/reserve_ca.py`): date labels for
    the calendar, the campsite button classifier, the release gate, and ten-minute
    attempt windows.

    As written, the window loop tests the bound method `bot.clickCampsiteButton` instead
    of calling it; a bound method is always truthy, `clickCaptcha` is likewise only
    named, and `reserved` is never set. `RunAsWritten` models that code;
    `RunIntended` models the evidently intended calls. */
module ReserveCA {
  import opened Text
  import opened Calendar
  import opened WallClock

  /** `end_time = time.time() + (10 * 60)`. */
  const WINDOW: nat := 10 * MINUTE

  // ------------------------------------------------------------ date labels

  /** `clickPreviousDay`: the label of the day before `start_date`; `None` where
      `strptime` raises or the subtraction overflows. */
  function PreviousDayLabel(startDate: string): (r: Option<string>)
    ensures r.Some? <==> ParseIsoDate(startDate).Some? && ParseIsoDate(startDate).value != Date(1, 1, 1)
    ensures r.Some? ==> exists d | ValidDate(d) && ParseIsoDate(startDate) == Some(d) ::
      PreviousDay(d).Some? && r.value == DateLabel(PreviousDay(d).value)
  {
    match ParseIsoDate(startDate)
    case None => None
    case Some(d) =>
      match PreviousDay(d)
      case None => None
      case Some(p) => Some(DateLabel(p))
  }

  /** `clickEndDate`: the label of `end_date` itself, with no shift. */
  function EndDateLabel(endDate: string): (r: Option<string>)
    ensures r.Some? <==> ParseIsoDate(endDate).Some?
    ensures r.Some? ==> r.value == DateLabel(ParseIsoDate(endDate).value)
  {
    match ParseIsoDate(endDate)
    case None => None
    case Some(d) => Some(DateLabel(d))
  }

  /** The label clicked first names the day one day before the configured start, and
      reading it back gives that day. */
  lemma PreviousDayLabelNamesDayBefore(d: Date)
    requires ValidDate(d) && d != Date(1, 1, 1)
    ensures PreviousDayLabel(IsoText(d)).Some?
    ensures var p := ParseDateLabel(PreviousDayLabel(IsoText(d)).value);
      p.Some? && Ordinal(p.value) + 1 == Ordinal(d)
  {
    ParseIsoText(d);
    var prev := PreviousDay(d).value;
    ParseDateLabelOfLabel(prev);
    PreviousDayOrdinal(d);
  }

  /** The first start date the site accepts has no previous day: the attempt fails. */
  lemma NoDayBeforeYearOne()
    ensures PreviousDayLabel(IsoText(Date(1, 1, 1))) == None
  {
    ParseIsoText(Date(1, 1, 1));
  }

  // -------------------------------------------------------------- the site

  /** What the site shows while `navigateAndSetup` runs. */
  datatype SetupPage = SetupPage(
    datepickerReady: bool,      // `#custom-datepicker-calendar` becomes clickable
    dayLabels: seq<string>)     // aria-labels of the calendar's day cells

  /** `div[aria-label*='…']`: some day cell's label contains the text. */
  predicate LabelShown(page: SetupPage, text: string) {
    exists k | 0 <= k < |page.dayLabels| :: Contains(page.dayLabels[k], text)
  }

  /** The Python value `navigateAndSetup` returns: the bound method object
      `self.clickCampsiteButton`, or `False` after an exception. */
  datatype SetupValue = BoundClickCampsiteButton | FalseValue

  /** Python truthiness: a bound method is always true. */
  predicate Truthy(v: SetupValue) {
    v.BoundClickCampsiteButton?
  }

  /** Lines 210-230. */
  function NavigateAndSetup(page: SetupPage, startDate: string, endDate: string): (r: SetupValue)
    ensures r == BoundClickCampsiteButton <==>
      page.datepickerReady
      && PreviousDayLabel(startDate).Some? && LabelShown(page, PreviousDayLabel(startDate).value)
      && EndDateLabel(endDate).Some? && LabelShown(page, EndDateLabel(endDate).value)
  {
    if !page.datepickerReady then FalseValue
    else
      match (PreviousDayLabel(startDate), EndDateLabel(endDate))
      case (Some(p), Some(e)) =>
        if LabelShown(page, p) && LabelShown(page, e) then BoundClickCampsiteButton else FalseValue
      case _ => FalseValue
  }

  /** What the campsite table shows during one pass of the window loop. */
  datatype CampsiteView = CampsiteView(
    buttonEnabled: bool,       // the campsite's `button[not(@disabled)]` becomes clickable
    refreshClickable: bool,    // `button.icons[title='Refresh']` becomes clickable
    captchaReady: bool,        // the reCAPTCHA frame and checkbox appear
    checkoutClickable: bool,   // `#checkout-button` becomes clickable
    took: nat)                 // how long the pass takes

  /** `clickCampsiteButton()`: `True` after a click, `False` after a refresh, or the wait
      for the refresh button raises. */
  datatype CampsiteOutcome = Clicked | Refreshed | Raised

  datatype RunEnd = Reserved | Crashed | ScriptExhausted

  /** How one attempt window ends: `break` after a checkout click, a booking, the ten
      minutes running out, an exception leaving `main`, or the script of views ending. */
  datatype WindowEnd = Broke | Booked | Expired | Threw | Exhausted

  class Bot {
    const startDate: string
    const endDate: string
    const startTime: string
    /** What successive passes of the window loop will see. */
    var views: seq<CampsiteView>
    var campsiteClicks: nat
    var refreshClicks: nat
    var captchaClicks: nat
    var checkoutClicks: nat
    /** When each attempt window was armed. */
    var windows: seq<nat>
    /** When each pass of the window loop began, and in which window. */
    var passes: seq<(nat, nat)>

    constructor(startDate: string, endDate: string, startTime: string, views: seq<CampsiteView>)
      ensures this.startDate == startDate && this.endDate == endDate && this.startTime == startTime
      ensures this.views == views && campsiteClicks == 0 && refreshClicks == 0
      ensures captchaClicks == 0 && checkoutClicks == 0 && windows == [] && passes == []
    {
      this.startDate := startDate;
      this.endDate := endDate;
      this.startTime := startTime;
      this.views := views;
      campsiteClicks, refreshClicks, captchaClicks, checkoutClicks := 0, 0, 0, 0;
      windows, passes := [], [];
    }

    /** Every window was armed once the gate let it through, and every pass of a window
        loop began within its window's ten minutes. */
    predicate PassesInWindows(h: nat, m: nat)
      reads this
    {
      (forall w | 0 <= w < |windows| :: !BeforeRelease(windows[w], h, m))
      && forall k | 0 <= k < |passes| ::
           passes[k].1 < |windows| && windows[passes[k].1] <= passes[k].0 < windows[passes[k].1] + WINDOW
    }

    /** Lines 170-192. */
    method ClickCampsiteButton(clock: Clock, view: CampsiteView) returns (r: CampsiteOutcome)
      modifies this`campsiteClicks, this`refreshClicks, clock
      ensures r == (if view.buttonEnabled then Clicked else if view.refreshClickable then Refreshed else Raised)
      ensures campsiteClicks == old(campsiteClicks) + (if r == Clicked then 1 else 0)
      ensures refreshClicks == old(refreshClicks) + (if r == Refreshed then 1 else 0)
      ensures clock.now == old(clock.now) + (if r == Refreshed then SECOND else 0)
    {
      if view.buttonEnabled {
        campsiteClicks := campsiteClicks + 1;
        return Clicked;
      }
      if !view.refreshClickable {
        return Raised;
      }
      refreshClicks := refreshClicks + 1;
      clock.Sleep(SECOND);
      return Refreshed;
    }

    /** Lines 257-266 as written: `bot.clickCampsiteButton` is a bound method, always
        truthy, so the first pass clicks checkout and breaks without touching the
        campsite button or the captcha. The window was armed this instant, so its
        `while` test holds once and the `break` ends it: it runs as an `if`. */
    method WindowAsWritten(clock: Clock, ghost h: nat, ghost m: nat) returns (r: WindowEnd)
      requires PassesInWindows(h, m) && !BeforeRelease(clock.now, h, m)
      modifies this, clock
      ensures PassesInWindows(h, m)
      ensures r == Exhausted <==> old(views) == []
      ensures r == Exhausted ==> views == old(views)
      ensures r != Exhausted ==> views == old(views)[1..]
      ensures r != Exhausted ==> (r == Threw <==> !old(views)[0].checkoutClickable)
      ensures r != Booked && r != Expired
      ensures checkoutClicks == old(checkoutClicks) + (if r == Broke then 1 else 0)
      ensures campsiteClicks == old(campsiteClicks) && captchaClicks == old(captchaClicks)
      ensures refreshClicks == old(refreshClicks)
    {
      var endTime := clock.now + WINDOW;
      windows := windows + [clock.now];
      if clock.now < endTime {
        if views == [] {
          return Exhausted;
        }
        var view := views[0];
        views := views[1..];
        passes := passes + [(clock.now, |windows| - 1)];
        // Line 259 tests the bound method `bot.clickCampsiteButton` itself, which is always
        // truthy; it and `bot.clickCaptcha` are only named, not called.
        assert Truthy(BoundClickCampsiteButton);
        if !view.checkoutClickable {
          return Threw;
        }
        checkoutClicks := checkoutClicks + 1;
        clock.Sleep(view.took);
      }
      return Broke;
    }

    /** Lines 236-269 as written: login, a setup whose value is dropped, then the gate and
        windows for as long as the script of views lasts; `reserved` is never set. */
    method RunAsWritten(clock: Clock, loginTook: nat) returns (r: RunEnd)
      requires windows == [] && passes == []
      modifies this, clock
      ensures r != Reserved
      ensures campsiteClicks == old(campsiteClicks) && captchaClicks == old(captchaClicks)
      ensures refreshClicks == old(refreshClicks)
      ensures |views| <= |old(views)| && views == old(views)[|old(views)| - |views|..]
      ensures var used := |old(views)| - |views|;
        checkoutClicks == old(checkoutClicks) + (if r == Crashed && used > 0 then used - 1 else used)
        && (forall k | 0 <= k < used - 1 :: old(views)[k].checkoutClickable)
        && (r == Crashed && used > 0 ==> !old(views)[used - 1].checkoutClickable)
      ensures r == ScriptExhausted ==> views == []
      ensures r == Crashed ==> ParseHourMinute(startTime).None? || |views| < |old(views)|
      ensures ParseHourMinute(startTime).Some? ==>
        PassesInWindows(ParseHourMinute(startTime).value.0, ParseHourMinute(startTime).value.1)
    {
      clock.Sleep(loginTook);
      clock.Sleep(2 * SECOND);
      // Line 243, `navigateAndSetup`: its value (`NavigateAndSetup`) is dropped, and the
      // time it takes only delays the gate below, so it is not evaluated here.
      // `start_time` is re-read on every pass of the outer loop; the value never changes,
      // so one that does not parse raises on the first pass.
      var hm := ParseHourMinute(startTime);
      if hm.None? {
        assert views == old(views)[0..];
        return Crashed;
      }
      r := WindowsAsWritten(clock, hm.value.0, hm.value.1);
    }

    /** The outer loop of lines 245-266 as written, once `start_time` has parsed. */
    method WindowsAsWritten(clock: Clock, h: nat, m: nat) returns (stop: RunEnd)
      requires h < 24 && m < 60 && PassesInWindows(h, m)
      modifies this, clock
      ensures stop != Reserved
      ensures campsiteClicks == old(campsiteClicks) && captchaClicks == old(captchaClicks)
      ensures refreshClicks == old(refreshClicks)
      ensures |views| <= |old(views)| && views == old(views)[|old(views)| - |views|..]
      ensures var used := |old(views)| - |views|;
        checkoutClicks == old(checkoutClicks) + (if stop == Crashed then used - 1 else used)
        && (forall k | 0 <= k < used - 1 :: old(views)[k].checkoutClickable)
        && (stop == Crashed ==> used > 0 && !old(views)[used - 1].checkoutClickable)
      ensures stop == ScriptExhausted ==> views == []
      ensures PassesInWindows(h, m)
    {
      ghost var views0, checkouts0 := views, checkoutClicks;
      var reserved := false;
      ghost var used: nat := 0;
      while !reserved
        invariant used <= |views0| && views == views0[used..]
        invariant checkoutClicks == checkouts0 + used
        invariant forall k | 0 <= k < used :: views0[k].checkoutClickable
        invariant campsiteClicks == old(campsiteClicks) && captchaClicks == old(captchaClicks)
        invariant refreshClicks == old(refreshClicks)
        invariant PassesInWindows(h, m)
        decreases |views|
      {
        AwaitRelease(clock, h, m);
        ghost var before := views;
        var w := WindowAsWritten(clock, h, m);
        if w == Exhausted {
          return ScriptExhausted;
        }
        assert before[0] == views0[used] && before[1..] == views0[used + 1..];
        used := used + 1;
        if w == Threw {
          return Crashed;
        }
      }
    }

    /** A pass that found the campsite button disabled and clicked refresh. */
    static predicate RefreshedView(v: CampsiteView) {
      !v.buttonEnabled && v.refreshClickable
    }

    /** A pass that found the button, the captcha and the checkout button. */
    static predicate BookingView(v: CampsiteView) {
      v.buttonEnabled && v.captchaReady && v.checkoutClickable
    }

    static predicate AllRefreshed(s: seq<CampsiteView>) {
      forall k | 0 <= k < |s| :: RefreshedView(s[k])
    }

    /** The views a window or run consumed: refreshes, then (when it stopped on a view
        that was not a refresh) that last view. */
    static predicate RefreshesThen(seen: seq<CampsiteView>, stopped: bool) {
      if stopped then |seen| > 0 && AllRefreshed(seen[..|seen| - 1]) else AllRefreshed(seen)
    }

    static lemma RefreshesConcat(a: seq<CampsiteView>, b: seq<CampsiteView>, stopped: bool)
      requires AllRefreshed(a) && RefreshesThen(b, stopped)
      ensures RefreshesThen(a + b, stopped)
    {
      if stopped {
        assert (a + b)[..|a + b| - 1] == a + b[..|b| - 1];
      }
    }

    /** Lines 257-266 with the evident intent: call `clickCampsiteButton()`; on `True`
        call `clickCaptcha()`, click checkout and set `reserved`; on `False` (it already
        refreshed) go round again until the ten minutes are up. */
    method WindowIntended(clock: Clock, ghost h: nat, ghost m: nat) returns (r: WindowEnd, ghost seen: seq<CampsiteView>)
      requires PassesInWindows(h, m) && !BeforeRelease(clock.now, h, m)
      modifies this, clock
      ensures PassesInWindows(h, m)
      ensures old(views) == seen + views
      ensures r != Broke && (r != Exhausted ==> |seen| > 0)
      ensures r == Exhausted ==> views == []
      ensures RefreshesThen(seen, r == Booked || r == Threw)
      ensures r == Booked ==> BookingView(seen[|seen| - 1])
      ensures r == Threw ==> !RefreshedView(seen[|seen| - 1]) && !BookingView(seen[|seen| - 1])
      ensures campsiteClicks == old(campsiteClicks)
        + (if r == Booked || (r == Threw && seen[|seen| - 1].buttonEnabled) then 1 else 0)
      ensures captchaClicks == old(captchaClicks)
        + (if r == Booked || (r == Threw && seen[|seen| - 1].buttonEnabled && seen[|seen| - 1].captchaReady) then 1 else 0)
      ensures checkoutClicks == old(checkoutClicks) + (if r == Booked then 1 else 0)
      ensures refreshClicks == old(refreshClicks) + (if r == Booked || r == Threw then |seen| - 1 else |seen|)
    {
      var armed := clock.now;
      var endTime := clock.now + WINDOW;
      windows := windows + [clock.now];
      seen := [];
      while clock.now < endTime
        invariant armed <= clock.now
        invariant |windows| > 0 && windows[|windows| - 1] == armed && !BeforeRelease(armed, h, m)
        invariant PassesInWindows(h, m)
        invariant old(views) == seen + views
        invariant AllRefreshed(seen)
        invariant campsiteClicks == old(campsiteClicks) && captchaClicks == old(captchaClicks)
        invariant checkoutClicks == old(checkoutClicks)
        invariant refreshClicks == old(refreshClicks) + |seen|
        invariant endTime == armed + WINDOW && (seen == [] ==> clock.now < endTime)
        decreases |views|
      {
        if views == [] {
          return Exhausted, seen;
        }
        var view := views[0];
        views := views[1..];
        passes := passes + [(clock.now, |windows| - 1)];
        seen := seen + [view];
        var refreshed := Attempt(clock, view);
        if !refreshed {
          return if BookingView(view) then Booked else Threw, seen;
        }
      }
      return Expired, seen;
    }

    /** One pass of the intended window loop: the campsite button, then on a click the
        captcha and the checkout button; after a refresh, the pause before the next pass.
        It reports whether the pass ended in a refresh. */
    method Attempt(clock: Clock, view: CampsiteView) returns (refreshed: bool)
      modifies this`campsiteClicks, this`refreshClicks, this`captchaClicks, this`checkoutClicks, clock
      ensures refreshed <==> RefreshedView(view)
      ensures campsiteClicks == old(campsiteClicks) + (if view.buttonEnabled then 1 else 0)
      ensures captchaClicks == old(captchaClicks) + (if view.buttonEnabled && view.captchaReady then 1 else 0)
      ensures checkoutClicks == old(checkoutClicks) + (if BookingView(view) then 1 else 0)
      ensures refreshClicks == old(refreshClicks) + (if refreshed then 1 else 0)
      ensures clock.now >= old(clock.now)
    {
      var c := ClickCampsiteButton(clock, view);
      if c == Raised {
        return false;
      }
      if c == Clicked {
        if !view.captchaReady {
          return false;
        }
        captchaClicks := captchaClicks + 1;
        if !view.checkoutClickable {
          return false;
        }
        checkoutClicks := checkoutClicks + 1;
        return false;
      }
      clock.Sleep(view.took);
      return true;
    }

    /** Lines 236-269 with the intended calls: after login and setup, gate on the release
        and open ten-minute windows until one books the campsite. */
    method RunIntended(clock: Clock, loginTook: nat) returns (r: RunEnd, ghost seen: seq<CampsiteView>)
      requires windows == [] && passes == []
      modifies this, clock
      ensures old(views) == seen + views
      ensures r == ScriptExhausted ==> views == []
      ensures RefreshesThen(seen, r == Reserved || (r == Crashed && seen != []))
      ensures r == Reserved <==> seen != [] && BookingView(seen[|seen| - 1]) && ParseHourMinute(startTime).Some?
      ensures checkoutClicks == old(checkoutClicks) + (if r == Reserved then 1 else 0)
      ensures r == Crashed ==> ParseHourMinute(startTime).None? || (seen != [] && !RefreshedView(seen[|seen| - 1]))
      ensures ParseHourMinute(startTime).Some? ==>
        PassesInWindows(ParseHourMinute(startTime).value.0, ParseHourMinute(startTime).value.1)
    {
      clock.Sleep(loginTook);
      clock.Sleep(2 * SECOND);
      // Line 243, `navigateAndSetup`: its value (`NavigateAndSetup`) is dropped, and the
      // time it takes only delays the gate below, so it is not evaluated here.
      r, seen := RaceIntended(clock);
    }

    /** Lines 245-266 with the intended calls: gate on the release and open ten-minute
        windows until one books the campsite. */
    method RaceIntended(clock: Clock) returns (r: RunEnd, ghost seen: seq<CampsiteView>)
      requires windows == [] && passes == []
      modifies this, clock
      ensures old(views) == seen + views
      ensures r == ScriptExhausted ==> views == []
      ensures RefreshesThen(seen, r == Reserved || (r == Crashed && seen != []))
      ensures r == Reserved <==> seen != [] && BookingView(seen[|seen| - 1]) && ParseHourMinute(startTime).Some?
      ensures checkoutClicks == old(checkoutClicks) + (if r == Reserved then 1 else 0)
      ensures r == Crashed ==> ParseHourMinute(startTime).None? || (seen != [] && !RefreshedView(seen[|seen| - 1]))
      ensures ParseHourMinute(startTime).Some? ==>
        PassesInWindows(ParseHourMinute(startTime).value.0, ParseHourMinute(startTime).value.1)
    {
      seen := [];
      var hm := ParseHourMinute(startTime);
      if hm.None? {
        return Crashed, seen;
      }
      r, seen := WindowsIntended(clock, hm.value.0, hm.value.1);
    }

    /** Lines 245-266 once the release time is known. */
    method WindowsIntended(clock: Clock, h: nat, m: nat) returns (r: RunEnd, ghost seen: seq<CampsiteView>)
      requires h < 24 && m < 60 && PassesInWindows(h, m)
      modifies this, clock
      ensures old(views) == seen + views
      ensures r == ScriptExhausted ==> views == []
      ensures RefreshesThen(seen, r == Reserved || (r == Crashed && seen != []))
      ensures r == Reserved <==> seen != [] && BookingView(seen[|seen| - 1])
      ensures checkoutClicks == old(checkoutClicks) + (if r == Reserved then 1 else 0)
      ensures r == Crashed ==> seen != [] && !RefreshedView(seen[|seen| - 1])
      ensures PassesInWindows(h, m)
    {
      ghost var views0, checkouts0 := views, checkoutClicks;
      var reserved := false;
      seen := [];
      while !reserved
        invariant views0 == seen + views
        invariant RefreshesThen(seen, reserved)
        invariant reserved ==> seen != [] && BookingView(seen[|seen| - 1])
        invariant checkoutClicks == checkouts0 + (if reserved then 1 else 0)
        invariant PassesInWindows(h, m)
        decreases |views|
      {
        var w;
        w, seen := RoundIntended(clock, h, m, views0, checkouts0, seen);
        if w == Exhausted {
          return ScriptExhausted, seen;
        }
        if w == Threw {
          return Crashed, seen;
        }
        if w == Booked {
          reserved := true;
        }
      }
      return Reserved, seen;
    }

    /** One round of the loop at line 245: wait for the release time, then one window. */
    method RoundIntended(clock: Clock, h: nat, m: nat, ghost views0: seq<CampsiteView>,
                         ghost checkouts0: nat, ghost seen0: seq<CampsiteView>)
      returns (w: WindowEnd, ghost seen: seq<CampsiteView>)
      requires h < 24 && m < 60 && PassesInWindows(h, m)
      requires views0 == seen0 + views && AllRefreshed(seen0) && checkoutClicks == checkouts0
      modifies this, clock
      ensures views0 == seen + views && PassesInWindows(h, m)
      ensures w != Broke && (w != Exhausted ==> |views| < |old(views)|)
      ensures w == Exhausted ==> views == []
      ensures RefreshesThen(seen, w == Booked || w == Threw)
      ensures w == Booked ==> seen != [] && BookingView(seen[|seen| - 1])
      ensures w == Threw ==> seen != [] && !RefreshedView(seen[|seen| - 1]) && !BookingView(seen[|seen| - 1])
      ensures checkoutClicks == checkouts0 + (if w == Booked then 1 else 0)
    {
      AwaitRelease(clock, h, m);
      ghost var more;
      w, more := WindowIntended(clock, h, m);
      RefreshesConcat(seen0, more, w == Booked || w == Threw);
      assert views0 == (seen0 + more) + views;
      seen := seen0 + more;
    }
  }
}
