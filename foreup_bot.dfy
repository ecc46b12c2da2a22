/** The ForeUp tee-time bot (`foreup_bot/foreup_bot.py`): two release gates on the wall
    clock, then attempts that pick the available tile nearest the configured start time
    inside the configured window, retried with a page refresh after every failure.

    The shipped code runs with `_debug = True`, so the tile itself and the Book Time
    button are never clicked; the chosen tile is only scrolled into view. */
module ForeUpBot {
  import opened Text
  import opened Clock12
  import opened WallClock

  /** The release the `__main__` block races for: 11:29 local time. */
  const TARGET_HOUR: nat := 11
  const TARGET_MINUTE: nat := 29

  /** `WebDriverWait(self.driver, 60)`. */
  const WAIT_TIMEOUT: nat := 60 * SECOND

  // ------------------------------------------------------------------ gates

  /** The fields of `datetime.now().time()` for a second of the day. */
  function HourOf(sec: nat): nat { sec / 3600 }
  function MinuteOf(sec: nat): nat { sec % 3600 / 60 }
  function SecondOf(sec: nat): nat { sec % 60 }

  lemma FieldsRecompose(sec: nat)
    ensures HourOf(sec) * 3600 + MinuteOf(sec) * 60 + SecondOf(sec) == sec
    ensures MinuteOf(sec) < 60
  {
    var r := sec % 3600;
    DivModUnique(sec, 60, sec / 3600 * 60 + r / 60, r % 60);
  }

  /** The pre-login gate's wait in seconds, as the source computes it from the fields. */
  function PreLoginWait(sec: nat, h: nat, m: nat): int {
    (h - HourOf(sec)) * 3600 + (m - 1 - MinuteOf(sec)) * 60 - SecondOf(sec)
  }

  /** The start gate's wait in seconds. */
  function StartWait(sec: nat, h: nat, m: nat): int {
    (h - HourOf(sec)) * 3600 + (m - MinuteOf(sec)) * 60 - SecondOf(sec)
  }

  /** The start gate leaves when hour and minute have both been reached, or when the
      computed wait is not positive. */
  predicate StartGateOpen(sec: nat, h: nat, m: nat) {
    (HourOf(sec) >= h && MinuteOf(sec) >= m) || StartWait(sec, h, m) <= 0
  }

  /** The field arithmetic is the distance to one minute before h:m. */
  lemma PreLoginWaitIsDistance(sec: nat, h: nat, m: nat)
    ensures PreLoginWait(sec, h, m) == h * 3600 + m * 60 - 60 - sec
  {
    FieldsRecompose(sec);
  }

  lemma StartWaitIsDistance(sec: nat, h: nat, m: nat)
    ensures StartWait(sec, h, m) == h * 3600 + m * 60 - sec
  {
    FieldsRecompose(sec);
  }

  /** The start gate opens exactly when the target second has come: the hour-and-minute
      test never lets it open early, because it implies a wait of at most zero. */
  lemma StartGateOpenIff(sec: nat, h: nat, m: nat)
    ensures StartGateOpen(sec, h, m) <==> sec >= h * 3600 + m * 60
  {
    FieldsRecompose(sec);
    if HourOf(sec) >= h && MinuteOf(sec) >= m {
      assert HourOf(sec) * 3600 >= h * 3600;
    }
  }

  /** Lines 307-325: sleep the computed wait until it is no longer positive. The gate
      leaves at one minute before the target, or at once when that moment has passed. */
  method WaitBeforeLogin(clock: Clock, h: nat, m: nat)
    requires h < 24 && m < 60
    modifies clock
    ensures DayStart(clock.now) == DayStart(old(clock.now))
    ensures SecondOfDay(clock.now) as int ==
      if SecondOfDay(old(clock.now)) < h * 3600 + m * 60 - 60 then h * 3600 + m * 60 - 60
      else SecondOfDay(old(clock.now))
    ensures clock.now >= old(clock.now)
  {
    var sec0 := SecondOfDay(clock.now);
    var w := PreLoginWait(SecondOfDay(clock.now), h, m);
    PreLoginWaitIsDistance(sec0, h, m);
    while w > 0
      invariant w == PreLoginWait(SecondOfDay(clock.now), h, m)
      invariant w == h * 3600 + m * 60 - 60 - SecondOfDay(clock.now)
      invariant DayStart(clock.now) == DayStart(old(clock.now)) && clock.now >= old(clock.now)
      invariant SecondOfDay(clock.now) == sec0 || SecondOfDay(clock.now) == h * 3600 + m * 60 - 60
      invariant SecondOfDay(clock.now) > sec0 ==> sec0 < h * 3600 + m * 60 - 60
      decreases w
    {
      var before := clock.now;
      SleepSeconds(before, w as nat);
      assert TimeOfDay(before) + (w as nat) * SECOND < DAY;
      SameDay(before, (w as nat) * SECOND);
      clock.Sleep((w as nat) * SECOND);
      w := PreLoginWait(SecondOfDay(clock.now), h, m);
      PreLoginWaitIsDistance(SecondOfDay(clock.now), h, m);
    }
  }

  /** Lines 335-353: the gate after login, which leaves at the target second. */
  method WaitForRelease(clock: Clock, h: nat, m: nat)
    requires h < 24 && m < 60
    modifies clock
    ensures DayStart(clock.now) == DayStart(old(clock.now))
    ensures SecondOfDay(clock.now) ==
      if SecondOfDay(old(clock.now)) < h * 3600 + m * 60 then h * 3600 + m * 60
      else SecondOfDay(old(clock.now))
    ensures clock.now >= old(clock.now)
  {
    var sec0 := SecondOfDay(clock.now);
    var sec := sec0;
    StartGateOpenIff(sec, h, m);
    while !StartGateOpen(sec, h, m)
      invariant sec == SecondOfDay(clock.now)
      invariant StartGateOpen(sec, h, m) <==> sec >= h * 3600 + m * 60
      invariant DayStart(clock.now) == DayStart(old(clock.now)) && clock.now >= old(clock.now)
      invariant sec == sec0 || sec == h * 3600 + m * 60
      invariant sec > sec0 ==> sec0 < h * 3600 + m * 60
      decreases h * 3600 + m * 60 - sec
    {
      StartWaitIsDistance(sec, h, m);
      var w := StartWait(sec, h, m) as nat;
      var before := clock.now;
      SleepSeconds(before, w);
      SameDay(before, w * SECOND);
      clock.Sleep(w * SECOND);
      sec := SecondOfDay(clock.now);
      StartGateOpenIff(sec, h, m);
    }
  }

  // ------------------------------------------------------------ selection

  /** The tile's time: its label parsed by `_parse_time`, `None` when the label element
      is missing or the text does not parse (both raise inside the attempt). */
  function LabelTime(labels: seq<Option<string>>, i: nat): Option<Time>
    requires i < |labels|
  {
    match labels[i]
    case Some(s) => ParseLabel(s)
    case None => None
  }

  predicate AllLabelsParse(labels: seq<Option<string>>) {
    forall i | 0 <= i < |labels| :: LabelTime(labels, i).Some?
  }

  /** `window_start <= t <= window_end`, both ends included. */
  predicate InWindow(t: Time, lo: Time, hi: Time) {
    NotAfter(lo, t) && NotAfter(t, hi)
  }

  predicate Candidate(labels: seq<Option<string>>, i: nat, lo: Time, hi: Time) {
    i < |labels| && LabelTime(labels, i).Some? && InWindow(LabelTime(labels, i).value, lo, hi)
  }

  function Diff(labels: seq<Option<string>>, i: nat, target: Time): nat
    requires i < |labels| && LabelTime(labels, i).Some?
  {
    TimeDifference(target, LabelTime(labels, i).value)
  }

  /** Tile `i` is what `min(valid_times, key=diff)` returns: an in-window tile at the
      least distance from the target, and the first such tile in page order. */
  predicate IsClosest(labels: seq<Option<string>>, i: nat, target: Time, lo: Time, hi: Time) {
    Candidate(labels, i, lo, hi)
    && (forall j | 0 <= j < |labels| && Candidate(labels, j, lo, hi) ::
          Diff(labels, i, target) <= Diff(labels, j, target))
    && (forall j | 0 <= j < i && Candidate(labels, j, lo, hi) ::
          Diff(labels, i, target) < Diff(labels, j, target))
  }

  /** The tie-break makes the choice unique. */
  lemma ClosestUnique(labels: seq<Option<string>>, i: nat, j: nat, target: Time, lo: Time, hi: Time)
    requires IsClosest(labels, i, target, lo, hi) && IsClosest(labels, j, target, lo, hi)
    ensures i == j
  {
  }

  /** `(index, distance)` pairs: in-window tiles in increasing page order. */
  predicate ValidTimes(labels: seq<Option<string>>, valid: seq<(nat, nat)>, k: nat, target: Time, lo: Time, hi: Time) {
    (forall p | 0 <= p < |valid| ::
      valid[p].0 < k && Candidate(labels, valid[p].0, lo, hi) && valid[p].1 == Diff(labels, valid[p].0, target))
    && (forall p, q | 0 <= p < q < |valid| :: valid[p].0 < valid[q].0)
  }

  /** Every candidate tile before `k` has its pair in `valid`. */
  predicate CoversCandidates(labels: seq<Option<string>>, valid: seq<(nat, nat)>, k: nat, lo: Time, hi: Time) {
    forall j | 0 <= j < k && Candidate(labels, j, lo, hi) :: exists p | 0 <= p < |valid| :: valid[p].0 == j
  }

  /** Lines 215-224: parse every label, keeping the in-window tiles with their distance
      to the target. A label that is missing or does not parse raises, ending the pass. */
  method CollectValidTimes(labels: seq<Option<string>>, target: Time, lo: Time, hi: Time)
    returns (parsed: bool, valid: seq<(nat, nat)>)
    ensures parsed <==> AllLabelsParse(labels)
    ensures parsed ==> ValidTimes(labels, valid, |labels|, target, lo, hi)
    ensures parsed ==> CoversCandidates(labels, valid, |labels|, lo, hi)
  {
    valid := [];
    var k := 0;
    while k < |labels|
      invariant Collected(labels, valid, k, target, lo, hi)
    {
      var t := LabelTime(labels, k);
      if t.None? {
        return false, valid;
      }
      ghost var before := valid;
      if InWindow(t.value, lo, hi) {
        valid := valid + [(k, TimeDifference(target, t.value))];
      }
      CollectStep(labels, before, valid, k, target, lo, hi);
      k := k + 1;
    }
    parsed := true;
  }

  /** What the loop of `CollectValidTimes` knows after `k` tiles. */
  predicate Collected(labels: seq<Option<string>>, valid: seq<(nat, nat)>, k: nat, target: Time, lo: Time, hi: Time) {
    k <= |labels|
    && (forall j | 0 <= j < k :: LabelTime(labels, j).Some?)
    && ValidTimes(labels, valid, k, target, lo, hi)
    && CoversCandidates(labels, valid, k, lo, hi)
  }

  lemma CollectStep(labels: seq<Option<string>>, before: seq<(nat, nat)>, after: seq<(nat, nat)>,
                    k: nat, target: Time, lo: Time, hi: Time)
    requires k < |labels| && LabelTime(labels, k).Some?
    requires Collected(labels, before, k, target, lo, hi)
    requires CollectedStep(labels, before, after, k, target, lo, hi)
    ensures Collected(labels, after, k + 1, target, lo, hi)
  {
    ValidTimesStep(labels, before, after, k, target, lo, hi);
    CoversStep(labels, before, after, k, target, lo, hi);
  }

  /** The pair list after tile `k` is looked at: one more pair exactly when the tile is in
      the window. */
  predicate CollectedStep(labels: seq<Option<string>>, before: seq<(nat, nat)>, after: seq<(nat, nat)>,
                          k: nat, target: Time, lo: Time, hi: Time)
    requires k < |labels| && LabelTime(labels, k).Some?
  {
    after == if Candidate(labels, k, lo, hi) then before + [(k, Diff(labels, k, target))] else before
  }

  lemma ValidTimesStep(labels: seq<Option<string>>, before: seq<(nat, nat)>, after: seq<(nat, nat)>,
                       k: nat, target: Time, lo: Time, hi: Time)
    requires k < |labels| && LabelTime(labels, k).Some?
    requires ValidTimes(labels, before, k, target, lo, hi)
    requires CollectedStep(labels, before, after, k, target, lo, hi)
    ensures ValidTimes(labels, after, k + 1, target, lo, hi)
  {
  }

  lemma CoversStep(labels: seq<Option<string>>, before: seq<(nat, nat)>, after: seq<(nat, nat)>,
                   k: nat, target: Time, lo: Time, hi: Time)
    requires k < |labels| && LabelTime(labels, k).Some?
    requires CoversCandidates(labels, before, k, lo, hi)
    requires CollectedStep(labels, before, after, k, target, lo, hi)
    ensures CoversCandidates(labels, after, k + 1, lo, hi)
  {
    forall j | 0 <= j < k + 1 && Candidate(labels, j, lo, hi)
      ensures exists p | 0 <= p < |after| :: after[p].0 == j
    {
      if j == k {
        assert after[|after| - 1].0 == k;
      } else {
        var p :| 0 <= p < |before| && before[p].0 == j;
        assert after[p].0 == j;
      }
    }
  }

  /** Python's `min(valid_times, key=lambda x: x[2])`: the first least distance. */
  method FirstMinimum(valid: seq<(nat, nat)>) returns (best: nat)
    requires valid != []
    ensures best < |valid|
    ensures forall q | 0 <= q < |valid| :: valid[best].1 <= valid[q].1
    ensures forall q | 0 <= q < best :: valid[best].1 < valid[q].1
  {
    best := 0;
    var p := 1;
    while p < |valid|
      invariant 0 <= best < p <= |valid|
      invariant forall q | 0 <= q < p :: valid[best].1 <= valid[q].1
      invariant forall q | 0 <= q < best :: valid[best].1 < valid[q].1
    {
      if valid[p].1 < valid[best].1 {
        best := p;
      }
      p := p + 1;
    }
  }

  lemma IndexOrder(valid: seq<(nat, nat)>, a: nat, b: nat)
    requires forall p, q | 0 <= p < q < |valid| :: valid[p].0 < valid[q].0
    requires a < |valid| && b < |valid| && valid[a].0 < valid[b].0
    ensures a < b
  {
  }

  /** The first least pair names the closest tile. */
  lemma FirstMinimumIsClosest(labels: seq<Option<string>>, valid: seq<(nat, nat)>, best: nat, target: Time, lo: Time, hi: Time)
    requires ValidTimes(labels, valid, |labels|, target, lo, hi)
    requires CoversCandidates(labels, valid, |labels|, lo, hi)
    requires best < |valid|
    requires forall q | 0 <= q < |valid| :: valid[best].1 <= valid[q].1
    requires forall q | 0 <= q < best :: valid[best].1 < valid[q].1
    ensures IsClosest(labels, valid[best].0, target, lo, hi)
  {
    var i := valid[best].0;
    forall j | 0 <= j < |labels| && Candidate(labels, j, lo, hi)
      ensures Diff(labels, i, target) <= Diff(labels, j, target)
    {
      var q :| 0 <= q < |valid| && valid[q].0 == j;
      assert valid[q].1 == Diff(labels, j, target);
      assert valid[best].1 <= valid[q].1;
    }
    forall j | 0 <= j < i && Candidate(labels, j, lo, hi)
      ensures Diff(labels, i, target) < Diff(labels, j, target)
    {
      var q :| 0 <= q < |valid| && valid[q].0 == j;
      assert valid[q].1 == Diff(labels, j, target);
      IndexOrder(valid, q, best);
    }
  }

  datatype Selection = BadLabel | NoneInWindow | Chosen(index: nat)

  /** Lines 215-235: the in-window pass, then the first least distance. One label that
      is missing or does not parse aborts the attempt. */
  method ChooseClosest(labels: seq<Option<string>>, target: Time, lo: Time, hi: Time)
    returns (r: Selection)
    ensures r == BadLabel <==> !AllLabelsParse(labels)
    ensures r == NoneInWindow <==>
      AllLabelsParse(labels) && forall j | 0 <= j < |labels| :: !Candidate(labels, j, lo, hi)
    ensures r.Chosen? ==> IsClosest(labels, r.index, target, lo, hi)
  {
    var parsed, valid := CollectValidTimes(labels, target, lo, hi);
    if !parsed {
      return BadLabel;
    }
    if valid == [] {
      return NoneInWindow;
    }
    assert Candidate(labels, valid[0].0, lo, hi);
    var best := FirstMinimum(valid);
    FirstMinimumIsClosest(labels, valid, best, target, lo, hi);
    r := Chosen(valid[best].0);
  }

  // ------------------------------------------------------------- attempts

  /** What the booking page shows during one `navigate_and_setup` call. */
  datatype ForeUpPage = ForeUpPage(
    formReady: bool,                  // Book Now, the date field and the player buttons appear
    tiles: seq<Option<string>>,        // each available tile's label text, if it has a label
    bookingControlsReady: bool,       // the booking player button and Book Time button appear
    confirmationAfter: Option<nat>,   // when `div.booking-confirmation` appears, if ever
    took: nat)                        // how long the attempt takes

  /** `handle_booking_result`: the confirmation marker appears within the wait. */
  predicate ConfirmationSeen(page: ForeUpPage) {
    page.confirmationAfter.Some? && page.confirmationAfter.value <= WAIT_TIMEOUT
  }

  /** The attempt gets as far as choosing a tile. */
  predicate Selects(page: ForeUpPage, startTime: string, windowStart: string, windowEnd: string) {
    page.formReady && page.tiles != []
    && ParseConfigTime(startTime).Some? && ParseConfigTime(windowStart).Some? && ParseConfigTime(windowEnd).Some?
    && AllLabelsParse(page.tiles)
    && exists j | 0 <= j < |page.tiles| ::
         Candidate(page.tiles, j, ParseConfigTime(windowStart).value, ParseConfigTime(windowEnd).value)
  }

  /** `navigate_and_setup()` returns True. */
  predicate AttemptSucceeds(page: ForeUpPage, startTime: string, windowStart: string, windowEnd: string) {
    Selects(page, startTime, windowStart, windowEnd) && page.bookingControlsReady && ConfirmationSeen(page)
  }

  /** Without an available tile in the window nothing is chosen and the attempt fails. */
  lemma NoCandidateFails(page: ForeUpPage, startTime: string, windowStart: string, windowEnd: string)
    requires page.tiles == [] || ParseConfigTime(windowStart).None? || ParseConfigTime(windowEnd).None?
      || forall j | 0 <= j < |page.tiles| ::
           !Candidate(page.tiles, j, ParseConfigTime(windowStart).value, ParseConfigTime(windowEnd).value)
    ensures !Selects(page, startTime, windowStart, windowEnd)
    ensures !AttemptSucceeds(page, startTime, windowStart, windowEnd)
  {
  }

  datatype RunResult = Reserved(attempts: nat, bookingFrom: nat) | ScriptExhausted(attempts: nat, bookingFrom: nat)

  class Bot {
    const startTime: string
    const windowStart: string
    const windowEnd: string
    /** The pages successive attempts will see; a finite stand-in for the live site. */
    var pages: seq<ForeUpPage>
    var refreshes: nat
    /** The tile scrolled into view by each attempt that got that far. */
    var choices: seq<nat>

    constructor(startTime: string, windowStart: string, windowEnd: string, pages: seq<ForeUpPage>)
      ensures this.startTime == startTime && this.windowStart == windowStart && this.windowEnd == windowEnd
      ensures this.pages == pages && refreshes == 0 && choices == []
    {
      this.startTime := startTime;
      this.windowStart := windowStart;
      this.windowEnd := windowEnd;
      this.pages := pages;
      refreshes := 0;
      choices := [];
    }

    predicate Succeeds(page: ForeUpPage)
      reads this
    {
      AttemptSucceeds(page, startTime, windowStart, windowEnd)
    }

    /** Lines 136-273: one attempt against the next page. */
    method NavigateAndSetup(clock: Clock) returns (ok: bool)
      requires pages != []
      modifies this`pages, this`choices, clock
      ensures pages == old(pages[1..])
      ensures clock.now == old(clock.now) + old(pages[0]).took
      ensures ok == Succeeds(old(pages[0]))
      ensures var page := old(pages[0]);
        if Selects(page, startTime, windowStart, windowEnd) then
          |choices| == |old(choices)| + 1 && choices[..|old(choices)|] == old(choices)
          && IsClosest(page.tiles, choices[|old(choices)|], ParseConfigTime(startTime).value,
                       ParseConfigTime(windowStart).value, ParseConfigTime(windowEnd).value)
        else choices == old(choices)
    {
      var page := pages[0];
      pages := pages[1..];
      clock.Sleep(page.took);
      if !page.formReady || page.tiles == [] {
        return false;
      }
      var target, lo, hi := ParseConfigTime(startTime), ParseConfigTime(windowStart), ParseConfigTime(windowEnd);
      if target.None? || lo.None? || hi.None? {
        return false;
      }
      var sel := ChooseClosest(page.tiles, target.value, lo.value, hi.value);
      if !sel.Chosen? {
        return false;
      }
      choices := choices + [sel.index];
      ok := page.bookingControlsReady && ConfirmationSeen(page);
    }

    /** Lines 302-363: both gates, the login, then attempts until one succeeds, with one
        refresh after each failure. */
    method Run(clock: Clock, loginTook: nat) returns (r: RunResult)
      modifies this, clock
      ensures SecondOfDay(r.bookingFrom) >= TARGET_HOUR * 3600 + TARGET_MINUTE * 60
      ensures r.bookingFrom >= old(clock.now)
      ensures r.attempts <= |old(pages)| && pages == old(pages)[r.attempts..]
      ensures r.Reserved? ==> r.attempts >= 1 && Succeeds(old(pages)[r.attempts - 1])
      ensures r.ScriptExhausted? ==> pages == []
      ensures forall k | 0 <= k < (if r.Reserved? then r.attempts - 1 else r.attempts) :: !Succeeds(old(pages)[k])
      ensures refreshes == old(refreshes) + (if r.Reserved? then r.attempts - 1 else r.attempts)
    {
      WaitBeforeLogin(clock, TARGET_HOUR, TARGET_MINUTE);
      clock.Sleep(loginTook);
      clock.Sleep(2 * SECOND);
      WaitForRelease(clock, TARGET_HOUR, TARGET_MINUTE);
      var from := clock.now;
      var reserved, n := Attempts(clock);
      r := if reserved then Reserved(n, from) else ScriptExhausted(n, from);
    }

    /** Lines 355-363: attempts until one succeeds, with one refresh after each failure. */
    method Attempts(clock: Clock) returns (reserved: bool, n: nat)
      modifies this`pages, this`choices, this`refreshes, clock
      ensures n <= |old(pages)| && pages == old(pages)[n..]
      ensures reserved ==> n >= 1 && Succeeds(old(pages)[n - 1])
      ensures !reserved ==> pages == []
      ensures forall k | 0 <= k < (if reserved then n - 1 else n) :: !Succeeds(old(pages)[k])
      ensures refreshes == old(refreshes) + (if reserved then n - 1 else n)
    {
      n := 0;
      ghost var pages0, refreshes0 := pages, refreshes;
      while true
        invariant 0 <= n <= |pages0|
        invariant pages == pages0[n..]
        invariant forall k | 0 <= k < n :: !Succeeds(pages0[k])
        invariant refreshes == refreshes0 + n
        decreases |pages|
      {
        if pages == [] {
          return false, n;
        }
        assert pages[0] == pages0[n];
        var ok := NavigateAndSetup(clock);
        n := n + 1;
        if ok {
          return true, n;
        }
        refreshes := refreshes + 1;
      }
    }
  }
}
