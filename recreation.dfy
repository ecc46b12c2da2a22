/** The recreation.gov permit bot (`recgov_bot/recreation.py`, and its identical copy
    `recreation.py`): one booking attempt classified as `True`, `False` or `None`, the
    release gate, and twenty-two-minute windows re-armed until an attempt succeeds. */
module Recreation {
  import opened Text
  import opened Calendar
  import opened WallClock

  /** `end_time = time.time() + (22 * 60)`. */
  const WINDOW: nat := 22 * MINUTE
  /** The class that marks a date button with no availability. */
  const DISABLED: string := "sarsa-button-disabled"

  /** What the site shows during one `navigateAndSetup`. */
  datatype RecPage = RecPage(
    formReady: bool,            // month spinner, guest counter, people field and Close all appear
    firstDate: Option<string>,  // the trailhead's first date button, by its class attribute
    bookReady: bool,            // "Book Now" becomes clickable
    modal: bool,                // an error modal appears within the wait
    orderDetails: bool,         // the "Order Details" heading is on the page
    took: nat)                  // time spent in waits, beyond the explicit sleeps

  /** The Python values an attempt returns; only `True` is truthy. */
  datatype PyValue = PyTrue | PyFalse | PyNone

  /** The page got as far as clicking "Book Now" on an available date. */
  predicate BookClicked(p: RecPage, startDate: string) {
    ParseIsoDate(startDate).Some? && p.formReady && p.firstDate.Some?
    && !Contains(p.firstDate.value, DISABLED) && p.bookReady
  }

  /** Lines 64-151: `navigateAndSetup`, including `handleBookingResult`. */
  function AttemptResult(p: RecPage, startDate: string): (r: PyValue)
    ensures r == PyTrue <==> BookClicked(p, startDate) && !p.modal && p.orderDetails
    ensures r == PyNone <==> BookClicked(p, startDate) && !p.modal && !p.orderDetails
    ensures !BookClicked(p, startDate) || p.modal <==> r == PyFalse
  {
    if ParseIsoDate(startDate).None? || !p.formReady then PyFalse
    else
      match p.firstDate
      case None => PyFalse
      case Some(classes) =>
        if Contains(classes, DISABLED) || !p.bookReady then PyFalse
        else if p.modal then PyFalse
        else if p.orderDetails then PyTrue
        else PyNone
  }

  /** A date button marked disabled ends the attempt with `False`, whatever follows. */
  lemma DisabledDateIsFalse(p: RecPage, startDate: string)
    requires p.firstDate.Some? && Contains(p.firstDate.value, DISABLED)
    ensures AttemptResult(p, startDate) == PyFalse
  {
  }

  /** An error modal wins over the checkout page: the attempt reloads and is `False`. */
  lemma ModalIsFalse(p: RecPage, startDate: string)
    requires p.modal
    ensures AttemptResult(p, startDate) == PyFalse
  {
  }

  /** The attempt on page `p` returns `True`. */
  predicate Accepted(p: RecPage, startDate: string) {
    AttemptResult(p, startDate) == PyTrue
  }

  predicate NoneAccepted(s: seq<RecPage>, startDate: string) {
    forall k | 0 <= k < |s| :: !Accepted(s[k], startDate)
  }

  /** The attempts a window or run made: none returned `True`, except the last one
      when it `booked`. */
  predicate TriedUntil(s: seq<RecPage>, startDate: string, booked: bool) {
    if booked then |s| > 0 && Accepted(s[|s| - 1], startDate) && NoneAccepted(s[..|s| - 1], startDate)
    else NoneAccepted(s, startDate)
  }

  lemma TriedConcat(a: seq<RecPage>, b: seq<RecPage>, startDate: string, booked: bool)
    requires NoneAccepted(a, startDate) && TriedUntil(b, startDate, booked)
    ensures TriedUntil(a + b, startDate, booked)
  {
    if booked {
      assert (a + b)[..|a + b| - 1] == a + b[..|b| - 1];
    }
  }

  datatype RunEnd = Reserved | Crashed | ScriptExhausted

  class Bot {
    const startDate: string
    const startTime: string
    /** What successive calls of `navigateAndSetup` will see. */
    var pages: seq<RecPage>
    var refreshes: nat
    /** When each window was armed. */
    var windows: seq<nat>
    /** When each attempt inside a window began, and in which window. */
    var attempts: seq<(nat, nat)>

    constructor(startDate: string, startTime: string, pages: seq<RecPage>)
      ensures this.startDate == startDate && this.startTime == startTime
      ensures this.pages == pages && refreshes == 0 && windows == [] && attempts == []
    {
      this.startDate := startDate;
      this.startTime := startTime;
      this.pages := pages;
      refreshes := 0;
      windows, attempts := [], [];
    }

    /** Every window was armed after the release, each later window only once the one
        before it had run out, and every attempt began inside its window. */
    predicate WindowsSound(h: nat, m: nat)
      reads this
    {
      (forall w | 0 <= w < |windows| :: !BeforeRelease(windows[w], h, m))
      && (forall w | 0 <= w < |windows| - 1 :: windows[w] + WINDOW <= windows[w + 1])
      && forall k | 0 <= k < |attempts| ::
           attempts[k].1 < |windows| && windows[attempts[k].1] <= attempts[k].0 < windows[attempts[k].1] + WINDOW
    }

    /** Lines 64-151 on one page: half a second after loading, half a second before the
        click, the waits, and a reload when the error modal shows. */
    method NavigateAndSetup(clock: Clock, p: RecPage) returns (r: PyValue)
      modifies this`refreshes, clock
      ensures r == AttemptResult(p, startDate)
      ensures refreshes == old(refreshes) + (if BookClicked(p, startDate) && p.modal then 1 else 0)
      ensures clock.now >= old(clock.now) + 500
    {
      clock.Sleep(500);
      if ParseIsoDate(startDate).None? || !p.formReady || p.firstDate.None? {
        clock.Sleep(p.took);
        return PyFalse;
      }
      if Contains(p.firstDate.value, DISABLED) {
        clock.Sleep(p.took);
        return PyFalse;
      }
      clock.Sleep(500);
      clock.Sleep(p.took);
      if !p.bookReady {
        return PyFalse;
      }
      if p.modal {
        refreshes := refreshes + 1;
        return PyFalse;
      }
      return if p.orderDetails then PyTrue else PyNone;
    }

    /** Lines 178-183: one window, with attempts for as long as its 22 minutes last and
        until one returns `True`. */
    method Window(clock: Clock, ghost h: nat, ghost m: nat) returns (booked: bool, exhausted: bool, ghost seen: seq<RecPage>)
      requires WindowsSound(h, m) && !BeforeRelease(clock.now, h, m)
      requires windows != [] ==> windows[|windows| - 1] + WINDOW <= clock.now
      modifies this, clock
      ensures WindowsSound(h, m) && |windows| > 0
      ensures exhausted || |seen| > 0
      ensures old(pages) == seen + pages
      ensures !(booked && exhausted) && (exhausted ==> pages == [])
      ensures TriedUntil(seen, startDate, booked)
      ensures !booked && !exhausted ==> windows[|windows| - 1] + WINDOW <= clock.now
    {
      var armed := clock.now;
      var endTime := clock.now + WINDOW;
      windows := windows + [clock.now];
      seen := [];
      booked, exhausted := false, false;
      ghost var pages0 := pages;
      while clock.now < endTime
        invariant armed <= clock.now && endTime == armed + WINDOW
        invariant |windows| > 0 && windows[|windows| - 1] == armed
        invariant WindowsSound(h, m)
        invariant pages0 == seen + pages
        invariant NoneAccepted(seen, startDate)
        invariant seen == [] ==> clock.now < endTime
        decreases endTime - clock.now
      {
        if pages == [] {
          exhausted := true;
          return;
        }
        ghost var rest := pages;
        var accepted, p := NextAttempt(clock, h, m);
        assert pages0 == seen + rest && rest == [p] + pages;
        assert seen + rest == (seen + [p]) + pages;
        ghost var before := seen;
        seen := seen + [p];
        if accepted {
          assert seen[..|seen| - 1] == before;
          booked := true;
          return;
        }
      }
    }

    /** One pass of the window loop: the next page is attempted, and the attempt is
        logged against the window armed last. */
    method NextAttempt(clock: Clock, ghost h: nat, ghost m: nat) returns (accepted: bool, p: RecPage)
      requires pages != [] && WindowsSound(h, m) && |windows| > 0
      requires windows[|windows| - 1] <= clock.now < windows[|windows| - 1] + WINDOW
      modifies this`pages, this`attempts, this`refreshes, clock
      ensures old(pages) == [p] + pages
      ensures accepted <==> Accepted(p, startDate)
      ensures WindowsSound(h, m) && clock.now > old(clock.now)
    {
      p := pages[0];
      pages := pages[1..];
      attempts := attempts + [(clock.now, |windows| - 1)];
      var v := NavigateAndSetup(clock, p);
      accepted := v == PyTrue;
    }

    /** Lines 166-183 once the release time is known: gate, then a window, for as long as
        no attempt has returned `True`. */
    method Windows(clock: Clock, h: nat, m: nat) returns (booked: bool, ghost tried: seq<RecPage>)
      requires h < 24 && m < 60 && WindowsSound(h, m)
      requires windows != [] ==> windows[|windows| - 1] + WINDOW <= clock.now
      modifies this, clock
      ensures old(pages) == tried + pages
      ensures !booked ==> pages == []
      ensures TriedUntil(tried, startDate, booked)
      ensures WindowsSound(h, m)
    {
      var reserved := false;
      tried := [];
      while !reserved
        invariant old(pages) == tried + pages
        invariant WindowsSound(h, m)
        invariant !reserved && windows != [] ==> windows[|windows| - 1] + WINDOW <= clock.now
        invariant TriedUntil(tried, startDate, reserved)
        decreases |pages|
      {
        AwaitRelease(clock, h, m);
        var exhausted;
        ghost var more;
        reserved, exhausted, more := Window(clock, h, m);
        TriedConcat(tried, more, startDate, reserved);
        tried := tried + more;
        if exhausted {
          return false, tried;
        }
      }
      return true, tried;
    }

    /** Lines 157-186: log in, make one attempt whose value is dropped, then gate on the
        release and run windows until an attempt returns `True`. */
    method Run(clock: Clock, loginTook: nat) returns (r: RunEnd, ghost tried: seq<RecPage>)
      requires windows == [] && attempts == []
      modifies this, clock
      ensures old(pages) == [] ==> r == ScriptExhausted && tried == []
      ensures old(pages) != [] ==> old(pages)[1..] == tried + pages
      ensures old(pages) != [] ==> (r == Crashed <==> ParseHourMinute(startTime).None?)
      ensures r == ScriptExhausted ==> pages == []
      ensures r != Crashed ==> TriedUntil(tried, startDate, r == Reserved)
      ensures r == Crashed ==> tried == []
      ensures ParseHourMinute(startTime).Some? ==>
        WindowsSound(ParseHourMinute(startTime).value.0, ParseHourMinute(startTime).value.1)
    {
      clock.Sleep(loginTook);
      clock.Sleep(2 * SECOND);
      tried := [];
      if pages == [] {
        return ScriptExhausted, tried;
      }
      FirstAttempt(clock);
      r, tried := Race(clock);
    }

    /** Line 164: the attempt made before the gate; its value is not looked at. */
    method FirstAttempt(clock: Clock)
      requires pages != []
      modifies this`pages, this`refreshes, clock
      ensures pages == old(pages)[1..]
    {
      var first := pages[0];
      pages := pages[1..];
      var _ := NavigateAndSetup(clock, first);
    }

    /** Lines 166-183: read the release time, then the windows. */
    method Race(clock: Clock) returns (r: RunEnd, ghost tried: seq<RecPage>)
      requires windows == [] && attempts == []
      modifies this, clock
      ensures old(pages) == tried + pages
      ensures r == Crashed <==> ParseHourMinute(startTime).None?
      ensures r == ScriptExhausted ==> pages == []
      ensures r != Crashed ==> TriedUntil(tried, startDate, r == Reserved)
      ensures r == Crashed ==> tried == []
      ensures ParseHourMinute(startTime).Some? ==>
        WindowsSound(ParseHourMinute(startTime).value.0, ParseHourMinute(startTime).value.1)
    {
      tried := [];
      // `start_time` is re-read on every pass of the outer loop; the value never changes,
      // so one that does not parse raises on the first pass.
      var hm := ParseHourMinute(startTime);
      if hm.None? {
        return Crashed, tried;
      }
      var booked;
      booked, tried := Windows(clock, hm.value.0, hm.value.1);
      r := if booked then Reserved else ScriptExhausted;
    }
  }
}
