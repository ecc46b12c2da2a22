/** The Playwright availability monitor (`foreup_bot/monitoring/playwright_monitor.py`):
    tee times are scraped from the first of seven selectors that yields any. The code
    evidently intends a fallback to the page's whole text, but its call
    `page.text_content()` lacks the selector Playwright requires and always raises, so
    as written only the selectors report anything; the check here uses the intended
    fallback (`Extract`), and `ExtractAsWritten` is the code as it stands. A check wraps
    the scrape in the shared result shape; an alert
    goes out only for a successful check that found something; and the continuous
    monitor repeats check, alert, metrics and sleep until it is interrupted or fails. */
module PlaywrightMonitor {
  import opened Text
  import opened TimeScan
  import opened Report
  import opened WallClock

  /** The selectors tried, in order (lines 243-251). */
  const SELECTORS: seq<string> := [
    ".booking-slot:not(.unavailable)",
    ".time-slot:not(.unavailable)",
    ".teetime:not(.unavailable)",
    ".time:not(.unavailable)",
    "[data-time]:not(.unavailable)",
    ".available-time",
    ".time-tile:not(.unavailable)"]

  /** At most this many elements are read per selector (line 256). */
  const ELEMENT_LIMIT: nat := 20
  /** At most this many fallback times are reported (line 304). */
  const FALLBACK_LIMIT: nat := 10
  /** The spots assumed when an element names no count (lines 282-283, 305). */
  const ASSUMED_SPOTS: nat := 4
  /** `(\d+)\s*(?:spots?|players?)`: the words may take a plural `s`, which the match
      does not need to see. */
  const PLAYER_COUNT: CountTail := Word(["spot", "player"])

  /** What the page shows the scraper. `located[i]` lists the elements the i-th selector
      finds, each as its `text_content()` (`None` when that is `None` or raises, both of
      which leave the element out). `allText` is the page's whole text, as the intended
      `page.text_content("body")` would read it (`None` when that raises, which ends the
      scrape with nothing). `fails` says the locator calls themselves raise. */
  datatype PageView = PageView(located: seq<seq<Option<string>>>, allText: Option<string>, fails: bool)

  predicate ShapedForSelectors(page: PageView) {
    |page.located| == |SELECTORS|
  }

  // ------------------------------------------------------------- one element

  /** What one element adds: its first strict time, with its first player count when
      that is at least the party size, or with the assumed four spots when it names no
      count. */
  function ElementEntry(text: Option<string>, required: int): Option<string> {
    if text.None? || text.value == "" then None
    else
      match Search(text.value, Strict)
      case None => None
      case Some(time) =>
        match FirstCount(text.value, PLAYER_COUNT)
        case Some(n) => if n >= required then Some(SlotText(time, n)) else None
        case None => Some(SlotText(time, ASSUMED_SPOTS))
  }

  /** An element is reported exactly when it has text holding a time and either names no
      count or names one large enough; the report is the time found in the text. */
  lemma ElementEntryMeaning(text: Option<string>, required: int)
    ensures ElementEntry(text, required).Some? <==>
      text.Some? && Search(text.value, Strict).Some?
      && (FirstCount(text.value, PLAYER_COUNT).None? || FirstCount(text.value, PLAYER_COUNT).value >= required)
    ensures ElementEntry(text, required).Some? ==>
      exists time: string, n: nat ::
        ElementEntry(text, required).value == SlotText(time, n)
        && IsToken(time, Strict) && Contains(text.value, time)
        && (n >= required || (n == ASSUMED_SPOTS && FirstCount(text.value, PLAYER_COUNT).None?))
  {
    if text.Some? && Search(text.value, Strict).Some? {
      var s := text.value;
      assert s != "" by {
        var r := FirstMatchFrom(s, 0, Strict).value;
        assert MatchAt(s, r.0, Strict).Some?;
      }
      var time := Search(s, Strict).value;
      SearchFindsToken(s, Strict);
      SearchContained(s, Strict);
      if ElementEntry(text, required).Some? {
        var n := FirstCount(s, PLAYER_COUNT).GetOr(ASSUMED_SPOTS);
        assert ElementEntry(text, required).value == SlotText(time, n);
      }
    }
  }

  /** The found time is a piece of the searched text. */
  lemma SearchContained(s: string, p: TimePattern)
    requires Search(s, p).Some?
    ensures Contains(s, Search(s, p).value)
  {
    var r := FirstMatchFrom(s, 0, p);
    assert Search(s, p) == Some(s[r.value.0..r.value.0 + r.value.1]);
    SliceContained(s, r.value.0, r.value.1);
  }

  /** Any slice of a text is contained in it. */
  lemma SliceContained(s: string, k: nat, len: nat)
    requires k + len <= |s|
    ensures Contains(s, s[k..k + len])
  {
    var t := s[k..k + len];
    assert s[k..][..|t|] == t;
    ContainsAt(s, t, k);
  }

  lemma {:induction false} ContainsAt(s: string, t: string, k: nat)
    requires k <= |s| && StartsWith(s[k..], t)
    ensures Contains(s, t)
    decreases k
  {
    if k > 0 {
      assert s[1..][k - 1..] == s[k..];
      ContainsAt(s[1..], t, k - 1);
    }
  }

  function EntryList(e: Option<string>): seq<string> {
    match e
    case Some(s) => [s]
    case None => []
  }

  /** The entries of the given elements, in order. */
  function Collected(elems: seq<Option<string>>, required: int): seq<string>
    decreases |elems|
  {
    if elems == [] then []
    else Collected(elems[..|elems| - 1], required) + EntryList(ElementEntry(elems[|elems| - 1], required))
  }

  lemma CollectedPrefix(elems: seq<Option<string>>, j: nat, required: int)
    requires j < |elems|
    ensures Collected(elems[..j + 1], required) == Collected(elems[..j], required) + EntryList(ElementEntry(elems[j], required))
  {
    assert elems[..j + 1][..j] == elems[..j];
  }

  /** What one selector yields: the entries of its first twenty elements. */
  function SelectorEntries(elems: seq<Option<string>>, required: int): seq<string> {
    Collected(elems[..if |elems| < ELEMENT_LIMIT then |elems| else ELEMENT_LIMIT], required)
  }

  /** Elements past the twentieth are never looked at. */
  lemma OnlyFirstTwenty(elems: seq<Option<string>>, more: seq<Option<string>>, required: int)
    requires |elems| >= ELEMENT_LIMIT
    ensures SelectorEntries(elems + more, required) == SelectorEntries(elems, required)
  {
    assert (elems + more)[..ELEMENT_LIMIT] == elems[..ELEMENT_LIMIT];
  }

  /** The selector cascade: the entries of the first selector that yields any. */
  function Structured(located: seq<seq<Option<string>>>, required: int): (r: seq<string>)
    ensures r == [] <==> forall i | 0 <= i < |located| :: SelectorEntries(located[i], required) == []
    ensures r != [] ==> exists i | 0 <= i < |located| ::
      r == SelectorEntries(located[i], required)
      && forall j | 0 <= j < i :: SelectorEntries(located[j], required) == []
    decreases |located|
  {
    if located == [] then []
    else
      var first := SelectorEntries(located[0], required);
      if first != [] then first
      else
        var rest := Structured(located[1..], required);
        assert forall i | 1 <= i < |located| :: located[i] == located[1..][i - 1];
        if rest != [] then
          var i :| 0 <= i < |located[1..]| && rest == SelectorEntries(located[1..][i], required)
            && forall j | 0 <= j < i :: SelectorEntries(located[1..][j], required) == [];
          assert forall j | 0 <= j < i + 1 :: SelectorEntries(located[j], required) == [] by {
            forall j | 0 <= j < i + 1 ensures SelectorEntries(located[j], required) == [] {
              if j > 0 { assert located[j] == located[1..][j - 1]; }
            }
          }
          rest
        else rest
  }

  // ------------------------------------------------------------- fallback

  /** The distinct elements of `s`, each where it first occurs. `list(set(...))` fixes no
      order; this is one of the orders it may give. */
  function Distinct(s: seq<string>): (d: seq<string>)
    ensures forall t :: t in d <==> t in s
    ensures forall i, j | 0 <= i < j < |d| :: d[i] != d[j]
    ensures |d| <= |s|
    decreases |s|
  {
    if s == [] then []
    else
      var init := Distinct(s[..|s| - 1]);
      assert forall t :: t in s <==> t in s[..|s| - 1] || t == s[|s| - 1];
      if s[|s| - 1] in init then init else init + [s[|s| - 1]]
  }

  /** Each fallback time reported with the assumed four spots. */
  function Assumed(times: seq<string>): (slots: seq<string>)
    ensures |slots| == |times|
    ensures forall k | 0 <= k < |times| :: slots[k] == SlotText(times[k], ASSUMED_SPOTS)
  {
    seq(|times|, k requires 0 <= k < |times| => SlotText(times[k], ASSUMED_SPOTS))
  }

  function Fallback(text: string): seq<string> {
    var unique := Distinct(FindAll(text, Strict));
    Assumed(unique[..if |unique| < FALLBACK_LIMIT then |unique| else FALLBACK_LIMIT])
  }

  /** Lines 229-312: `_extract_tee_times` as evidently intended, with the whole-page
      text read where line 296 means to read it. A failure anywhere gives the empty
      list. */
  function Extract(page: PageView, required: int): seq<string> {
    if page.fails then []
    else
      var found := Structured(page.located, required);
      if found != [] then found
      else match page.allText
        case None => []
        case Some(text) => Fallback(text)
  }

  /** Lines 229-312 as written: line 296 calls `page.text_content()` without the
      selector that Playwright's `Page.text_content` requires, so it raises `TypeError`
      whenever it is reached, and the `except` at lines 310-312 returns the empty list.
      Only the selectors ever report anything. */
  function ExtractAsWritten(page: PageView, required: int): (r: seq<string>)
    ensures r == [] <==> page.fails || Structured(page.located, required) == []
  {
    if page.fails then [] else Structured(page.located, required)
  }

  /** Where a selector finds a time, the scrape as written is the intended one. */
  lemma AsWrittenAgreesOnSelectors(page: PageView, required: int)
    requires Structured(page.located, required) != []
    ensures ExtractAsWritten(page, required) == Extract(page, required)
  {
  }

  /** Where no selector finds a time but the page text shows one, the intended scrape
      reports it and the scrape as written reports nothing: whatever the page text, the
      code as written ignores it. */
  lemma AsWrittenMissesPageText(page: PageView, required: int)
    requires !page.fails && Structured(page.located, required) == []
    requires page.allText.Some? && FindAll(page.allText.value, Strict) != []
    ensures ExtractAsWritten(page, required) == []
    ensures Extract(page, required) != []
  {
    var matches := FindAll(page.allText.value, Strict);
    assert matches[0] in Distinct(matches);
  }

  /** The fallback reports at most ten different times found in the page text, each
      with four spots, and every distinct time when there are no more than ten. */
  lemma FallbackMeaning(text: string)
    ensures |Fallback(text)| <= FALLBACK_LIMIT
    ensures forall i, j | 0 <= i < j < |Fallback(text)| :: Fallback(text)[i] != Fallback(text)[j]
    ensures forall e | e in Fallback(text) ::
      exists t | t in FindAll(text, Strict) :: IsToken(t, Strict) && e == SlotText(t, ASSUMED_SPOTS)
    ensures |Distinct(FindAll(text, Strict))| <= FALLBACK_LIMIT ==>
      forall t | t in FindAll(text, Strict) :: SlotText(t, ASSUMED_SPOTS) in Fallback(text)
  {
    FallbackDistinct(text);
    FallbackSound(text);
    FallbackComplete(text);
  }

  /** The fallback's slots are pairwise different. */
  lemma FallbackDistinct(text: string)
    ensures forall i, j | 0 <= i < j < |Fallback(text)| :: Fallback(text)[i] != Fallback(text)[j]
  {
    var unique := Distinct(FindAll(text, Strict));
    var taken := unique[..if |unique| < FALLBACK_LIMIT then |unique| else FALLBACK_LIMIT];
    var slots := Fallback(text);
    forall i, j | 0 <= i < j < |slots| ensures slots[i] != slots[j] {
      SlotTextInjective(taken[i], taken[j], ASSUMED_SPOTS);
    }
  }

  /** Each fallback slot comes from a time found in the text. */
  lemma FallbackSound(text: string)
    ensures forall e | e in Fallback(text) ::
      exists t | t in FindAll(text, Strict) :: IsToken(t, Strict) && e == SlotText(t, ASSUMED_SPOTS)
  {
    var matches := FindAll(text, Strict);
    var unique := Distinct(matches);
    var taken := unique[..if |unique| < FALLBACK_LIMIT then |unique| else FALLBACK_LIMIT];
    FindAllTokens(text, Strict);
    var slots := Fallback(text);
    forall e | e in slots
      ensures exists t | t in matches :: IsToken(t, Strict) && e == SlotText(t, ASSUMED_SPOTS)
    {
      var k :| 0 <= k < |slots| && slots[k] == e;
      assert taken[k] in unique;
    }
  }

  /** With no more than ten different times, every one of them is reported. */
  lemma FallbackComplete(text: string)
    ensures |Distinct(FindAll(text, Strict))| <= FALLBACK_LIMIT ==>
      forall t | t in FindAll(text, Strict) :: SlotText(t, ASSUMED_SPOTS) in Fallback(text)
  {
    var matches := FindAll(text, Strict);
    var unique := Distinct(matches);
    var taken := unique[..if |unique| < FALLBACK_LIMIT then |unique| else FALLBACK_LIMIT];
    var slots := Fallback(text);
    if |unique| <= FALLBACK_LIMIT {
      assert taken == unique;
      forall t | t in matches ensures SlotText(t, ASSUMED_SPOTS) in slots {
        assert t in unique;
        var k :| 0 <= k < |unique| && unique[k] == t;
        assert slots[k] == SlotText(t, ASSUMED_SPOTS);
      }
    }
  }

  /** The count digits never contain the text `" ("`, so the time is recovered from a
      slot's text when the counts agree. */
  lemma SlotTextInjective(a: string, b: string, n: nat)
    ensures SlotText(a, n) == SlotText(b, n) ==> a == b
  {
    var tail := " (" + NatToString(n) + " spots)";
    assert SlotText(a, n) == a + tail && SlotText(b, n) == b + tail;
    if SlotText(a, n) == SlotText(b, n) {
      assert |a| == |b|;
      assert a == SlotText(a, n)[..|a|];
    }
  }

  /** Every scraped entry names a time token and a count that either fits the party or is
      the assumed four. */
  lemma ExtractEntriesAreSlots(page: PageView, required: int)
    ensures forall e | e in Extract(page, required) :: exists t: string, n: nat ::
      e == SlotText(t, n) && IsToken(t, Strict) && (n >= required || n == ASSUMED_SPOTS)
  {
    var r := Extract(page, required);
    if !page.fails {
      var found := Structured(page.located, required);
      if found != [] {
        var i :| 0 <= i < |page.located| && found == SelectorEntries(page.located[i], required);
        var elems := page.located[i];
        var n := if |elems| < ELEMENT_LIMIT then |elems| else ELEMENT_LIMIT;
        CollectedSlots(elems[..n], required);
      } else if page.allText.Some? {
        FallbackMeaning(page.allText.value);
      }
    }
  }

  lemma {:induction false} CollectedSlots(elems: seq<Option<string>>, required: int)
    ensures forall e | e in Collected(elems, required) :: exists t: string, n: nat ::
      e == SlotText(t, n) && IsToken(t, Strict) && (n >= required || n == ASSUMED_SPOTS)
    decreases |elems|
  {
    if elems != [] {
      var last := elems[|elems| - 1];
      CollectedSlots(elems[..|elems| - 1], required);
      ElementEntryMeaning(last, required);
    }
  }

  /** One element of the inner loop (lines 257-289). */
  method ScanElement(text: Option<string>, required: int) returns (entry: Option<string>)
    ensures entry == ElementEntry(text, required)
  {
    entry := None;
    if text.Some? && text.value != "" {
      var timeMatches := FindAll(text.value, Strict);
      FindAllHeadIsSearch(text.value, Strict);
      if timeMatches != [] {
        var timeStr := timeMatches[0];
        var playerMatch := FirstCount(text.value, PLAYER_COUNT);
        if playerMatch.Some? {
          if playerMatch.value >= required {
            entry := Some(SlotText(timeStr, playerMatch.value));
          }
        } else {
          entry := Some(SlotText(timeStr, ASSUMED_SPOTS));
        }
      }
    }
  }

  /** The inner loop over one selector's first twenty elements (lines 256-289). */
  method ScanSelector(elems: seq<Option<string>>, required: int) returns (found: seq<string>)
    ensures found == SelectorEntries(elems, required)
  {
    found := [];
    var n := if |elems| < ELEMENT_LIMIT then |elems| else ELEMENT_LIMIT;
    var j := 0;
    while j < n
      invariant 0 <= j <= n
      invariant found == Collected(elems[..j], required)
    {
      CollectedPrefix(elems, j, required);
      var entry := ScanElement(elems[j], required);
      found := found + EntryList(entry);
      j := j + 1;
    }
  }

  /** The whole-page fallback as lines 294-306 intend it, on text that was read. */
  method ScanAllText(text: string) returns (times: seq<string>)
    ensures times == Fallback(text)
  {
    times := [];
    var matches := FindAll(text, Strict);
    if matches != [] {
      var unique := Distinct(matches);
      var n := if |unique| < FALLBACK_LIMIT then |unique| else FALLBACK_LIMIT;
      for k := 0 to n
        invariant times == Assumed(unique[..k])
      {
        assert unique[..k + 1] == unique[..k] + [unique[k]];
        times := times + [SlotText(unique[k], ASSUMED_SPOTS)];
      }
    }
  }

  /** The scrape as the source's loop runs it: selectors in order, stopping after the
      first that yields a time; then, only when nothing was found, the intended
      whole-page fallback. */
  method ExtractTeeTimes(page: PageView, required: int) returns (times: seq<string>)
    ensures times == Extract(page, required)
  {
    if page.fails {
      return [];
    }
    times := [];
    var located := page.located;
    var i := 0;
    while i < |located|
      invariant 0 <= i <= |located|
      invariant times == [] && Structured(located, required) == Structured(located[i..], required)
    {
      times := ScanSelector(located[i], required);
      assert located[i..][1..] == located[i + 1..];
      if times != [] {
        return;
      }
      i := i + 1;
    }
    if page.allText.None? {
      return [];
    }
    times := ScanAllText(page.allText.value);
  }

  // ------------------------------------------------------------- the check

  /** What the browser meets on one check: a launch failure (with its message), a failed
      login, a failed navigation, or the tee-times page. `took` is how long the check ran:
      the `wait_for_timeout` pauses of the login and the navigation as far as the path
      reaches them, and the browser's own waits. */
  datatype BrowserSession = BrowserSession(
    launchError: Option<string>,
    loginOk: bool,
    navigationOk: bool,
    page: PageView,
    took: nat)

  /** Lines 314-389: `check_availability`. Without a date argument the configured date is
      read before the guarded block, so a configuration without one raises (`None`). */
  function CheckAvailability(targetDate: Option<string>, config: Config, session: BrowserSession)
    : (r: Option<AvailabilityCheck>)
    ensures r.Some? <==> targetDate.Some? || config.targetDate.Some?
    ensures r.Some? ==>
      WellFormed(r.value)
      && r.value.date == (if targetDate.Some? then targetDate.value else config.targetDate.value)
    ensures r.Some? ==>
      (r.value.success <==> session.launchError.None? && session.loginOk && session.navigationOk)
    ensures r.Some? && r.value.success ==>
      r.value.availableTimes == Extract(session.page, RequiredPlayers(config))
    ensures r.Some? && !r.value.success ==>
      r.value.errorMessage.value == CHECK_FAILED +
        if session.launchError.Some? then session.launchError.value
        else if !session.loginOk then "Failed to login to ForeUp"
        else "Failed to navigate to tee times page"
  {
    if targetDate.None? && config.targetDate.None? then None
    else
      var date := if targetDate.Some? then targetDate.value else config.targetDate.value;
      if session.launchError.Some? then Some(Failed(date, CHECK_FAILED + session.launchError.value))
      else if !session.loginOk then Some(Failed(date, CHECK_FAILED + "Failed to login to ForeUp"))
      else if !session.navigationOk then Some(Failed(date, CHECK_FAILED + "Failed to navigate to tee times page"))
      else Some(Succeeded(date, Extract(session.page, RequiredPlayers(config))))
  }

  /** The check as run: the scrape is the loop above. */
  method RunCheck(targetDate: Option<string>, config: Config, session: BrowserSession)
    returns (r: Option<AvailabilityCheck>)
    ensures r == CheckAvailability(targetDate, config, session)
  {
    if targetDate.None? && config.targetDate.None? {
      return None;
    }
    var date := if targetDate.Some? then targetDate.value else config.targetDate.value;
    if session.launchError.Some? {
      return Some(Failed(date, CHECK_FAILED + session.launchError.value));
    }
    if !session.loginOk {
      return Some(Failed(date, CHECK_FAILED + "Failed to login to ForeUp"));
    }
    if !session.navigationOk {
      return Some(Failed(date, CHECK_FAILED + "Failed to navigate to tee times page"));
    }
    var times := ExtractTeeTimes(session.page, RequiredPlayers(config));
    return Some(Succeeded(date, times));
  }

  // ------------------------------------------------------------- reporting

  /** Where an alert went: nowhere, to the topic named at the top of the configuration,
      or only to the log. */
  datatype Delivery = NoAlert | Published(topic: string, subject: string, message: string) | Logged(message: string)

  /** Lines 391-416: what `send_notification` does with a check. `awsReady` says the
      AWS clients were created. */
  function Notification(config: Config, awsReady: bool, c: AvailabilityCheck): (d: Delivery)
    ensures d.NoAlert? <==> !ShouldNotify(c)
    ensures d.Published? <==> ShouldNotify(c) && config.topic.Some? && awsReady
    ensures d.Published? ==> d.topic == config.topic.value && d.subject == "Tee Time Alert - " + c.date
    ensures !d.NoAlert? ==> d.message == AlertMessage(c.date, c.totalAvailable, c.availableTimes)
  {
    if !ShouldNotify(c) then NoAlert
    else
      var message := AlertMessage(c.date, c.totalAvailable, c.availableTimes);
      if config.topic.Some? && awsReady then Published(config.topic.value, "Tee Time Alert - " + c.date, message)
      else Logged(message)
  }

  /** The notification as sent: the message is accumulated line by line. */
  method SendNotification(config: Config, awsReady: bool, c: AvailabilityCheck) returns (d: Delivery)
    ensures d == Notification(config, awsReady, c)
  {
    var message := BuildAlert(c);
    if message.None? {
      return NoAlert;
    }
    if config.topic.Some? && awsReady {
      d := Published(config.topic.value, "Tee Time Alert - " + c.date, message.value);
    } else {
      d := Logged(message.value);
    }
  }

  /** Lines 418-453: the batch put when CloudWatch is available. */
  function LoggedMetrics(awsReady: bool, c: AvailabilityCheck): (m: Option<seq<Metric>>)
    ensures m.Some? <==> awsReady
    ensures m.Some? ==> m.value == CheckMetrics(c)
  {
    if awsReady then Some(CheckMetrics(c)) else None
  }

  // ------------------------------------------------------------- monitoring

  /** What one pass of the monitoring loop meets: a browser session, or the user's
      interrupt. */
  datatype Step = Pass(session: BrowserSession) | Interrupt

  /** What one completed pass did. */
  datatype PassRecord = PassRecord(check: AvailabilityCheck, delivery: Delivery, metrics: Option<seq<Metric>>)

  /** Why monitoring stopped: the user interrupted it, an exception escaped the loop, or
      the finite script of passes ran out (the source loops for ever). */
  datatype Stop = Interrupted | Crashed | ScriptExhausted

  /** The record of a pass over `session` when the configuration names a date. */
  function PassOf(config: Config, awsReady: bool, session: BrowserSession): (p: PassRecord)
    requires config.targetDate.Some?
    ensures p.check == CheckAvailability(None, config, session).value
    ensures p.delivery.NoAlert? <==> !ShouldNotify(p.check)
    ensures p.metrics.Some? <==> awsReady
  {
    var c := CheckAvailability(None, config, session).value;
    PassRecord(c, if c.totalAvailable > 0 then Notification(config, awsReady, c) else NoAlert,
      LoggedMetrics(awsReady, c))
  }

  predicate AllPasses(ts: seq<Step>) {
    forall k | 0 <= k < |ts| :: ts[k].Pass?
  }

  /** The time a run of passes spends in its checks, the sleeps between them aside. */
  function ChecksTime(ts: seq<Step>): nat
    requires AllPasses(ts)
    decreases |ts|
  {
    if ts == [] then 0 else ChecksTime(ts[..|ts| - 1]) + ts[|ts| - 1].session.took
  }

  /** The records a run of passes leaves, one per pass, in order. */
  function Replay(config: Config, awsReady: bool, ts: seq<Step>): seq<PassRecord>
    requires AllPasses(ts) && (ts != [] ==> config.targetDate.Some?)
  {
    seq(|ts|, k requires 0 <= k < |ts| => PassOf(config, awsReady, ts[k].session))
  }

  /** A run of passes leaves one record per pass, in order. */
  lemma ReplayRecords(config: Config, awsReady: bool, ts: seq<Step>)
    requires AllPasses(ts) && (ts != [] ==> config.targetDate.Some?)
    ensures |Replay(config, awsReady, ts)| == |ts|
    ensures forall k | 0 <= k < |ts| :: Replay(config, awsReady, ts)[k] == PassOf(config, awsReady, ts[k].session)
  {
  }

  /** One more pass adds its own record after those of the passes before it. */
  lemma ReplayPrefix(config: Config, awsReady: bool, ts: seq<Step>, n: nat)
    requires n < |ts| && AllPasses(ts[..n]) && ts[n].Pass? && config.targetDate.Some?
    ensures AllPasses(ts[..n + 1])
    ensures Replay(config, awsReady, ts[..n + 1]) == Replay(config, awsReady, ts[..n]) + [PassOf(config, awsReady, ts[n].session)]
    ensures ChecksTime(ts[..n + 1]) == ChecksTime(ts[..n]) + ts[n].session.took
  {
    assert ts[..n + 1] == ts[..n] + [ts[n]];
    assert ts[..n + 1][..n] == ts[..n];
  }

  class Monitor {
    const config: Config
    const awsReady: bool
    /** The passes still to come; a finite stand-in for the live site and the user. */
    var ticks: seq<Step>
    var records: seq<PassRecord>

    constructor(config: Config, awsReady: bool, ticks: seq<Step>)
      ensures this.config == config && this.awsReady == awsReady
      ensures this.ticks == ticks && records == []
    {
      this.config := config;
      this.awsReady := awsReady;
      this.ticks := ticks;
      records := [];
    }

    /** One pass: check, alert when something was found, put the metrics. The check's
        running time passes on the clock. */
    method Tick(clock: Clock, session: BrowserSession) returns (p: PassRecord)
      requires config.targetDate.Some?
      modifies clock
      ensures p == PassOf(config, awsReady, session)
      ensures clock.now == old(clock.now) + session.took
    {
      var c := RunCheck(None, config, session);
      clock.Sleep(session.took);
      var d := NoAlert;
      if c.value.totalAvailable > 0 {
        d := SendNotification(config, awsReady, c.value);
      }
      p := PassRecord(c.value, d, LoggedMetrics(awsReady, c.value));
    }

    /** Lines 455-493: `run_continuous_monitoring`. The guarded block holds the whole
        loop, so an interrupt or any exception ends monitoring. Without a configured date
        the first check raises; a negative interval makes the first sleep raise. */
    method RunContinuousMonitoring(clock: Clock, intervalMinutes: int) returns (stop: Stop)
      modifies this, clock
      ensures |old(ticks)| >= |ticks| && ticks == old(ticks)[|old(ticks)| - |ticks|..]
      ensures var n := |records| - |old(records)|;
        0 <= n <= |old(ticks)| && AllPasses(old(ticks)[..n]) && (n > 0 ==> config.targetDate.Some?)
        && records == old(records) + Replay(config, awsReady, old(ticks)[..n])
      ensures var n := |records| - |old(records)|;
        clock.now == old(clock.now) + ChecksTime(old(ticks)[..n])
          + (if intervalMinutes >= 0 then n * Minutes(intervalMinutes) else 0)
      ensures var n := |records| - |old(records)|;
        match stop
        case Interrupted => n < |old(ticks)| && old(ticks)[n].Interrupt? && |ticks| == |old(ticks)| - n - 1
        case Crashed =>
          (config.targetDate.None? && n == 0 && old(ticks) != [] && old(ticks)[0].Pass?
           && |ticks| == |old(ticks)| - 1)
          || (intervalMinutes < 0 && n == 1 && |ticks| == |old(ticks)| - 1)
        case ScriptExhausted => ticks == [] && n == |old(ticks)|
    {
      if ticks == [] {
        return ScriptExhausted;
      }
      if config.targetDate.None? {
        var tick := ticks[0];
        ticks := ticks[1..];
        return if tick.Interrupt? then Interrupted else Crashed;
      }
      if intervalMinutes < 0 {
        stop := LastPass(clock);
        return;
      }
      stop := Passes(clock, Minutes(intervalMinutes));
    }

    /** With a negative interval the first pass runs and its sleep raises. */
    method LastPass(clock: Clock) returns (stop: Stop)
      requires config.targetDate.Some? && ticks != []
      modifies this, clock
      ensures ticks == old(ticks)[1..]
      ensures old(ticks)[0].Interrupt? ==>
        stop == Interrupted && records == old(records) && clock.now == old(clock.now)
      ensures old(ticks)[0].Pass? ==>
        stop == Crashed && AllPasses(old(ticks)[..1])
        && records == old(records) + Replay(config, awsReady, old(ticks)[..1])
        && clock.now == old(clock.now) + ChecksTime(old(ticks)[..1])
    {
      var tick := ticks[0];
      ticks := ticks[1..];
      if tick.Interrupt? {
        return Interrupted;
      }
      var p := Tick(clock, tick.session);
      assert old(ticks)[..1][..0] == [];
      records := records + [p];
      assert old(ticks)[..1] == [tick];
      return Crashed;
    }

    /** The loop once the date is known and the interval can be slept: pass after pass,
        each followed by the interval, until the user interrupts. */
    method Passes(clock: Clock, step: nat) returns (stop: Stop)
      requires config.targetDate.Some?
      modifies this, clock
      ensures |old(ticks)| >= |ticks| && ticks == old(ticks)[|old(ticks)| - |ticks|..]
      ensures var n := |records| - |old(records)|;
        0 <= n <= |old(ticks)| && AllPasses(old(ticks)[..n])
        && records == old(records) + Replay(config, awsReady, old(ticks)[..n])
        && clock.now == old(clock.now) + ChecksTime(old(ticks)[..n]) + n * step
      ensures var n := |records| - |old(records)|;
        stop != Crashed
        && (stop == Interrupted ==> n < |old(ticks)| && old(ticks)[n].Interrupt? && |ticks| == |old(ticks)| - n - 1)
        && (stop == ScriptExhausted ==> ticks == [] && n == |old(ticks)|)
    {
      ghost var ticks0 := ticks;
      ghost var records0 := records;
      ghost var now0 := clock.now;
      ghost var n := 0;
      while ticks != []
        invariant 0 <= n <= |ticks0| && ticks == ticks0[n..]
        invariant AllPasses(ticks0[..n])
        invariant records == records0 + Replay(config, awsReady, ticks0[..n])
        invariant clock.now == now0 + ChecksTime(ticks0[..n]) + n * step
        decreases |ticks|
      {
        var tick := ticks[0];
        assert tick == ticks0[n];
        ticks := ticks[1..];
        if tick.Interrupt? {
          assert ticks == ticks0[n + 1..];
          return Interrupted;
        }
        PassAndSleep(clock, step, tick.session, ticks0, records0, now0, n);
        n := n + 1;
      }
      assert ticks0[..n] == ticks0;
      return ScriptExhausted;
    }

    /** The body of the loop for one browser session: the pass, its record, the sleep. */
    method PassAndSleep(clock: Clock, step: nat, session: BrowserSession,
                        ghost ticks0: seq<Step>, ghost records0: seq<PassRecord>, ghost now0: nat, ghost n: nat)
      requires config.targetDate.Some?
      requires n < |ticks0| && ticks0[n] == Pass(session) && AllPasses(ticks0[..n])
      requires records == records0 + Replay(config, awsReady, ticks0[..n])
      requires clock.now == now0 + ChecksTime(ticks0[..n]) + n * step
      modifies this`records, clock
      ensures AllPasses(ticks0[..n + 1])
      ensures records == records0 + Replay(config, awsReady, ticks0[..n + 1])
      ensures clock.now == now0 + ChecksTime(ticks0[..n + 1]) + (n + 1) * step
    {
      assert (n + 1) * step == n * step + step;
      var p := Tick(clock, session);
      ReplayPrefix(config, awsReady, ticks0, n);
      records := records + [p];
      clock.Sleep(step);
    }
  }
}
