/** The requests-and-BeautifulSoup monitor (`foreup_bot/monitoring/lambda_monitor.py`):
    tee times are read from the first non-empty family of time elements, each with the
    first number near it as its spots, falling back to every time-like text in the raw
    page; the check is an early-return cascade; the alert is published even when nothing
    was found, and the metrics are put when CloudWatch is there. */
module LambdaMonitor {
  import opened Text
  import opened TimeScan
  import opened Report

  /** A tee time as this monitor reports it; `price` is never filled in. */
  datatype TeeTime = TeeTime(time: string, availableSpots: nat, price: Option<string>)

  /** The spots assumed when none can be read (lines 174, 192). */
  const DEFAULT_SPOTS: nat := 4
  /** At most this many fallback matches are kept (line 188). */
  const FALLBACK_LIMIT: nat := 10

  /** One element `find_all` returned: its text, and the text of its next sibling or, when
      there is none, its parent (`""` when neither exists); or an element whose handling
      raises. */
  datatype SoupElement = Element(text: string, spotsText: string) | Broken

  /** The three element families the parsed page offers: `div.tee-time`, `div.time-slot`,
      `span.time`. */
  datatype Soup = Soup(teeTime: seq<SoupElement>, timeSlot: seq<SoupElement>, spanTime: seq<SoupElement>)

  /** `a or b or c` over the three lists: the first that is not empty. */
  function Cascade(soup: Soup): (elems: seq<SoupElement>)
    ensures elems == [] <==> soup.teeTime == [] && soup.timeSlot == [] && soup.spanTime == []
    ensures elems in [soup.teeTime, soup.timeSlot, soup.spanTime]
  {
    if soup.teeTime != [] then soup.teeTime
    else if soup.timeSlot != [] then soup.timeSlot
    else soup.spanTime
  }

  /** What one well-formed element adds: its stripped text when that is not empty and
      holds a colon, with the first number of its neighbour's text, or four. */
  function ElementTeeTime(text: string, spotsText: string): Option<TeeTime> {
    var time := Strip(text);
    if time != "" && ':' in time then Some(TeeTime(time, FirstCount(spotsText, AnyTail).GetOr(DEFAULT_SPOTS), None))
    else None
  }

  /** What handling one element gives: it raises, or it adds at most one entry. */
  datatype Reading = Raises | Reads(entry: Option<TeeTime>)

  function ReadingOf(e: SoupElement): Reading {
    match e
    case Broken => Raises
    case Element(text, spotsText) => Reads(ElementTeeTime(text, spotsText))
  }

  function Readings(elems: seq<SoupElement>): (rs: seq<Reading>)
    ensures |rs| == |elems|
    ensures forall k | 0 <= k < |elems| :: rs[k] == ReadingOf(elems[k])
  {
    seq(|elems|, k requires 0 <= k < |elems| => ReadingOf(elems[k]))
  }

  function Listed(e: Option<TeeTime>): seq<TeeTime> {
    match e
    case Some(t) => [t]
    case None => []
  }

  /** The entries collected, and whether an element raised, which ends the pass with
      what was collected so far. */
  datatype Scanned = Scanned(entries: seq<TeeTime>, raised: bool)

  function Run(rs: seq<Reading>): (r: Scanned)
    ensures |r.entries| <= |rs|
    ensures r.raised <==> Raises in rs
    decreases |rs|
  {
    if rs == [] then Scanned([], false)
    else match rs[0]
      case Raises => Scanned([], true)
      case Reads(e) =>
        var rest := Run(rs[1..]);
        assert forall x :: x in rs <==> x == rs[0] || x in rs[1..];
        Scanned(Listed(e) + rest.entries, rest.raised)
  }

  function Scan(elems: seq<SoupElement>): Scanned {
    Run(Readings(elems))
  }

  /** Every entry collected is one an element read as, and when nothing raised every
      such entry is collected. */
  lemma {:induction false} RunMeaning(rs: seq<Reading>)
    ensures forall e | e in Run(rs).entries :: exists k | 0 <= k < |rs| :: rs[k] == Reads(Some(e))
    ensures !Run(rs).raised ==> forall k | 0 <= k < |rs| && rs[k].Reads? && rs[k].entry.Some? ::
      rs[k].entry.value in Run(rs).entries
    decreases |rs|
  {
    if rs != [] && rs[0].Reads? {
      var rest := rs[1..];
      RunMeaning(rest);
      forall e | e in Run(rs).entries
        ensures exists k | 0 <= k < |rs| :: rs[k] == Reads(Some(e))
      {
        if e in Run(rest).entries {
          var k :| 0 <= k < |rest| && rest[k] == Reads(Some(e));
          assert rs[k + 1] == rest[k];
        } else {
          assert rs[0] == Reads(Some(e));
        }
      }
      if !Run(rs).raised {
        forall k | 0 <= k < |rs| && rs[k].Reads? && rs[k].entry.Some?
          ensures rs[k].entry.value in Run(rs).entries
        {
          if k > 0 {
            assert rs[k] == rest[k - 1];
          }
        }
      }
    }
  }

  /** Every entry read is an element's stripped text, non-empty and holding a colon, with
      the first number next to it or four; a pass raises exactly when an element does;
      and when nothing raised, every such element is read. */
  lemma ScanMeaning(elems: seq<SoupElement>)
    ensures forall e | e in Scan(elems).entries :: exists k | 0 <= k < |elems| ::
      elems[k].Element? && ElementTeeTime(elems[k].text, elems[k].spotsText) == Some(e)
      && e.time == Strip(elems[k].text) && e.time != "" && ':' in e.time && e.price.None?
      && e.availableSpots == FirstCount(elems[k].spotsText, AnyTail).GetOr(DEFAULT_SPOTS)
    ensures Scan(elems).raised <==> Broken in elems
    ensures !Scan(elems).raised ==> forall k | 0 <= k < |elems| && elems[k].Element? ::
      ElementTeeTime(elems[k].text, elems[k].spotsText).Some? ==>
        ElementTeeTime(elems[k].text, elems[k].spotsText).value in Scan(elems).entries
  {
    ScanSound(elems);
    ScanRaises(elems);
    ScanComplete(elems);
  }

  lemma ScanSound(elems: seq<SoupElement>)
    ensures forall e | e in Scan(elems).entries :: exists k | 0 <= k < |elems| ::
      elems[k].Element? && ElementTeeTime(elems[k].text, elems[k].spotsText) == Some(e)
      && e.time == Strip(elems[k].text) && e.time != "" && ':' in e.time && e.price.None?
      && e.availableSpots == FirstCount(elems[k].spotsText, AnyTail).GetOr(DEFAULT_SPOTS)
  {
    var rs := Readings(elems);
    RunMeaning(rs);
    forall e | e in Scan(elems).entries
      ensures exists k | 0 <= k < |elems| ::
        elems[k].Element? && ElementTeeTime(elems[k].text, elems[k].spotsText) == Some(e)
        && e.time == Strip(elems[k].text) && e.time != "" && ':' in e.time && e.price.None?
        && e.availableSpots == FirstCount(elems[k].spotsText, AnyTail).GetOr(DEFAULT_SPOTS)
    {
      var k :| 0 <= k < |rs| && rs[k] == Reads(Some(e));
      assert elems[k].Element?;
    }
  }

  lemma ScanRaises(elems: seq<SoupElement>)
    ensures Scan(elems).raised <==> Broken in elems
  {
    var rs := Readings(elems);
    if Broken in elems {
      var k :| 0 <= k < |elems| && elems[k] == Broken;
      assert rs[k] == Raises;
    }
    if Raises in rs {
      var k :| 0 <= k < |rs| && rs[k] == Raises;
      assert elems[k] == Broken;
    }
  }

  lemma ScanComplete(elems: seq<SoupElement>)
    ensures !Scan(elems).raised ==> forall k | 0 <= k < |elems| && elems[k].Element? ::
      ElementTeeTime(elems[k].text, elems[k].spotsText).Some? ==>
        ElementTeeTime(elems[k].text, elems[k].spotsText).value in Scan(elems).entries
  {
    var rs := Readings(elems);
    RunMeaning(rs);
    if !Scan(elems).raised {
      forall k | 0 <= k < |elems| && elems[k].Element?
          && ElementTeeTime(elems[k].text, elems[k].spotsText).Some?
        ensures ElementTeeTime(elems[k].text, elems[k].spotsText).value in Scan(elems).entries
      {
        assert rs[k] == Reads(ElementTeeTime(elems[k].text, elems[k].spotsText));
      }
    }
  }

  /** The fallback: the first ten case-insensitive time-like matches in the raw page, in
      page order, repeats kept, each with four spots. */
  function Fallback(html: string): (r: seq<TeeTime>)
    ensures |r| <= FALLBACK_LIMIT
  {
    var times := FindAll(html, Loose);
    var taken := times[..if |times| < FALLBACK_LIMIT then |times| else FALLBACK_LIMIT];
    seq(|taken|, k requires 0 <= k < |taken| => TeeTime(taken[k], DEFAULT_SPOTS, None))
  }

  /** The fallback keeps the page's matches in order, each a time token, up to ten. */
  lemma FallbackMeaning(html: string)
    ensures var r := Fallback(html); var times := FindAll(html, Loose);
      |r| == (if |times| < FALLBACK_LIMIT then |times| else FALLBACK_LIMIT)
      && forall k | 0 <= k < |r| ::
        r[k].time == times[k] && IsToken(r[k].time, Loose) && r[k].availableSpots == DEFAULT_SPOTS
  {
    FindAllTokens(html, Loose);
    var times := FindAll(html, Loose);
    forall k | 0 <= k < |Fallback(html)| ensures IsToken(times[k], Loose) {
      assert times[k] in times;
    }
  }

  /** Lines 141-199: `_extract_tee_times`, given the raw page and its parse (`None` when
      parsing raises). The fallback runs only when no element gave an entry and none
      raised. */
  function Extract(html: string, soup: Option<Soup>): seq<TeeTime> {
    match soup
    case None => []
    case Some(sp) =>
      var scanned := Scan(Cascade(sp));
      if scanned.raised || scanned.entries != [] then scanned.entries
      else Fallback(html)
  }

  /** The loop invariant: what was collected from the first `i` readings, followed by
      what the rest give, is what the whole run gives. */
  predicate Pending(rs: seq<Reading>, i: nat, got: seq<TeeTime>)
    requires i <= |rs|
  {
    Run(rs) == Scanned(got + Run(rs[i..]).entries, Run(rs[i..]).raised)
  }

  lemma PendingStart(rs: seq<Reading>)
    ensures Pending(rs, 0, [])
  {
    assert rs[0..] == rs;
  }

  lemma {:induction false} RunAdvance(rs: seq<Reading>, i: nat, before: seq<TeeTime>, after: seq<TeeTime>)
    requires i < |rs| && rs[i].Reads? && after == before + Listed(rs[i].entry)
    requires Pending(rs, i, before)
    ensures Pending(rs, i + 1, after)
  {
    assert rs[i..][1..] == rs[i + 1..];
    var rest := Run(rs[i + 1..]);
    assert before + (Listed(rs[i].entry) + rest.entries) == after + rest.entries;
  }

  /** A reading that raises ends the run with what was collected before it. */
  lemma {:induction false} RunRaises(rs: seq<Reading>, i: nat, got: seq<TeeTime>)
    requires i < |rs| && rs[i].Raises? && Pending(rs, i, got)
    ensures Run(rs) == Scanned(got, true)
  {
    assert rs[i..][0] == Raises;
    assert got + [] == got;
  }

  /** With every reading taken, the run gives exactly what was collected. */
  lemma PendingDone(rs: seq<Reading>, got: seq<TeeTime>)
    requires Pending(rs, |rs|, got)
    ensures Run(rs) == Scanned(got, false)
  {
    assert rs[|rs|..] == [];
    assert got + [] == got;
  }

  /** Lines 163-176: the body of the loop for one element. */
  method ReadElement(text: string, spotsText: string) returns (entry: Option<TeeTime>)
    ensures entry == ElementTeeTime(text, spotsText)
  {
    var timeText := Strip(text);
    entry := None;
    if timeText != "" && ':' in timeText {
      var spotsMatch := FirstCount(spotsText, AnyTail);
      var spots := if spotsMatch.Some? then spotsMatch.value else DEFAULT_SPOTS;
      entry := Some(TeeTime(timeText, spots, None));
    }
  }

  /** Lines 158-178: one pass over the chosen elements; an element that raises ends the
      pass with what was collected. */
  method ScanElements(elements: seq<SoupElement>) returns (teeTimes: seq<TeeTime>, raised: bool)
    ensures Scanned(teeTimes, raised) == Scan(elements)
  {
    ghost var rs := Readings(elements);
    teeTimes := [];
    var i := 0;
    PendingStart(rs);
    while i < |elements|
      invariant 0 <= i <= |elements|
      invariant Pending(rs, i, teeTimes)
    {
      if elements[i].Broken? {
        RunRaises(rs, i, teeTimes);
        return teeTimes, true;
      }
      teeTimes := ScanElement(elements, i, rs, teeTimes);
      i := i + 1;
    }
    PendingDone(rs, teeTimes);
    return teeTimes, false;
  }

  /** One pass of the loop over an element that does not raise: its entry, if any, is
      appended. */
  method ScanElement(elements: seq<SoupElement>, i: nat, ghost rs: seq<Reading>, teeTimes: seq<TeeTime>)
    returns (after: seq<TeeTime>)
    requires i < |elements| && elements[i].Element? && rs == Readings(elements)
    requires Pending(rs, i, teeTimes)
    ensures Pending(rs, i + 1, after)
  {
    var entry := ReadElement(elements[i].text, elements[i].spotsText);
    after := teeTimes;
    if entry.Some? {
      after := after + [entry.value];
    }
    RunAdvance(rs, i, teeTimes, after);
  }

  /** Lines 180-194: the first ten matches, each with four spots. */
  method FallbackTimes(html: string) returns (teeTimes: seq<TeeTime>)
    ensures teeTimes == Fallback(html)
  {
    var times := FindAll(html, Loose);
    var n := if |times| < FALLBACK_LIMIT then |times| else FALLBACK_LIMIT;
    teeTimes := [];
    for k := 0 to n
      invariant teeTimes == seq(k, j requires 0 <= j < k => TeeTime(times[j], DEFAULT_SPOTS, None))
    {
      teeTimes := teeTimes + [TeeTime(times[k], DEFAULT_SPOTS, None)];
    }
  }

  /** The extraction as the source runs it: one pass over the chosen elements, then the
      fallback when nothing was collected and nothing raised. */
  method ExtractTeeTimes(html: string, soup: Option<Soup>) returns (teeTimes: seq<TeeTime>)
    ensures teeTimes == Extract(html, soup)
  {
    if soup.None? {
      return [];
    }
    var raised;
    teeTimes, raised := ScanElements(Cascade(soup.value));
    if !raised && teeTimes == [] {
      teeTimes := FallbackTimes(html);
    }
  }

  // ------------------------------------------------------------- the check

  /** One check's outcome, as this monitor records it. */
  datatype CheckResult = CheckResult(
    success: bool,
    date: string,
    availableTimes: seq<TeeTime>,
    totalAvailable: nat,
    errorMessage: Option<string>)

  predicate Consistent(r: CheckResult) {
    if r.success then r.totalAvailable == |r.availableTimes| && r.errorMessage.None?
    else r.availableTimes == [] && r.totalAvailable == 0 && r.errorMessage.Some?
  }

  /** What the HTTP session meets: whether the login response shows a logged-in page, the
      tee-times page text (`None` when the request fails), and that text's parse. */
  datatype Fetch = Fetch(loginOk: bool, html: Option<string>, soup: Option<Soup>)

  /** Lines 201-256: `check_availability`. A failed login, then an absent or empty page,
      each end the check unsuccessfully; otherwise it succeeds with what was extracted. */
  function CheckAvailability(config: Config, fetch: Fetch): (r: CheckResult)
    ensures Consistent(r) && r.date == config.targetDate.GetOr("unknown")
    ensures r.success <==> fetch.loginOk && fetch.html.Some? && fetch.html.value != ""
    ensures !fetch.loginOk ==> r.errorMessage == Some("Login failed")
    ensures fetch.loginOk && !r.success ==> r.errorMessage == Some("Failed to get tee times page")
    ensures r.success ==> r.availableTimes == Extract(fetch.html.value, fetch.soup)
  {
    var date := config.targetDate.GetOr("unknown");
    if !fetch.loginOk then CheckResult(false, date, [], 0, Some("Login failed"))
    else if fetch.html.None? || fetch.html.value == "" then
      CheckResult(false, date, [], 0, Some("Failed to get tee times page"))
    else
      var times := Extract(fetch.html.value, fetch.soup);
      CheckResult(true, date, times, |times|, None)
  }

  // ------------------------------------------------------------- notification

  const HEADLINE: string := "\U{1F3CC}\U{FE0F}\U{200D}\U{2642}\U{FE0F} Tee Times Available!"
  const BOOKING_HOST: string := "https://foreupsoftware.com"
  const BOOKING_PATH: string := "/index.php/booking/19348/1470#/teetimes"
  const BOOKING_URL: string := BOOKING_HOST + BOOKING_PATH

  /** `f"  - {t.time} ({t.available_spots} spots)"` for each tee time. */
  function TimeLines(times: seq<TeeTime>): (lines: seq<string>)
    ensures |lines| == |times|
    ensures forall k | 0 <= k < |times| ::
      lines[k] == "  - " + times[k].time + " (" + NatToString(times[k].availableSpots) + " spots)"
  {
    seq(|times|, k requires 0 <= k < |times| =>
      "  - " + times[k].time + " (" + NatToString(times[k].availableSpots) + " spots)")
  }

  /** The lines above the list of times. */
  function Header(r: CheckResult): seq<string> {
    [HEADLINE, "", "Date: " + r.date, "Available Times: " + NatToString(r.totalAvailable), ""]
  }

  /** The lines below the list of times; the last is empty, so the message ends in a
      newline. */
  const FOOTER: seq<string> := ["", "Check: " + BOOKING_URL, ""]

  /** The message: the multi-line template with the joined time lines in its middle, or a
      one-line notice when the list is empty. */
  function Message(r: CheckResult): string {
    if r.availableTimes != [] then
      Join(Header(r) + [Join(TimeLines(r.availableTimes), '\n')] + FOOTER, '\n')
    else "No tee times available for " + r.date
  }

  lemma DigitsHaveNoNewline(d: string)
    requires AllDigits(d)
    ensures '\n' !in d
  {
    forall k | 0 <= k < |d| ensures d[k] != '\n' {
      assert IsDigit(d[k]);
    }
  }

  lemma TimeLineHasNoNewline(time: string, n: nat)
    requires '\n' !in time
    ensures '\n' !in "  - " + time + " (" + NatToString(n) + " spots)"
  {
    DigitsHaveNoNewline(NatToString(n));
  }

  lemma HeaderHasNoNewline(r: CheckResult)
    requires '\n' !in r.date
    ensures forall k | 0 <= k < |Header(r)| :: '\n' !in Header(r)[k]
  {
    DigitsHaveNoNewline(NatToString(r.totalAvailable));
    assert '\n' !in HEADLINE by {
      forall k | 0 <= k < |HEADLINE| ensures HEADLINE[k] != '\n' { }
    }
  }

  lemma HostHasNoNewline()
    ensures '\n' !in BOOKING_HOST
  {
    forall k | 0 <= k < |BOOKING_HOST| ensures BOOKING_HOST[k] != '\n' { }
  }

  lemma PathHasNoNewline()
    ensures '\n' !in BOOKING_PATH
  {
    forall k | 0 <= k < |BOOKING_PATH| ensures BOOKING_PATH[k] != '\n' { }
  }

  lemma UrlHasNoNewline()
    ensures '\n' !in BOOKING_URL
  {
    HostHasNoNewline();
    PathHasNoNewline();
  }

  lemma FooterHasNoNewline()
    ensures forall k | 0 <= k < |FOOTER| :: '\n' !in FOOTER[k]
  {
    UrlHasNoNewline();
  }

  /** Read line by line, the message gives the headline, a blank line, the date, the
      count, a blank line, one line per tee time, a blank line, the booking link, and the
      empty tail after the final newline. */
  lemma MessageLines(r: CheckResult)
    requires r.availableTimes != [] && '\n' !in r.date
    requires forall k | 0 <= k < |r.availableTimes| :: '\n' !in r.availableTimes[k].time
    ensures Split(Message(r), '\n') ==
      [HEADLINE, "", "Date: " + r.date, "Available Times: " + NatToString(r.totalAvailable), ""]
      + TimeLines(r.availableTimes) + ["", "Check: " + BOOKING_URL, ""]
  {
    var head, lines := Header(r), TimeLines(r.availableTimes);
    JoinNested(head, lines, FOOTER, '\n');
    var all := head + lines + FOOTER;
    HeaderHasNoNewline(r);
    FooterHasNoNewline();
    forall k | 0 <= k < |all| ensures '\n' !in all[k] {
      if k < |head| {
        assert all[k] == head[k];
      } else if k < |head| + |lines| {
        var t := r.availableTimes[k - |head|];
        assert all[k] == lines[k - |head|];
        TimeLineHasNoNewline(t.time, t.availableSpots);
      } else {
        assert all[k] == FOOTER[k - |head| - |lines|];
      }
    }
    SplitOfJoin(all, '\n');
  }

  /** Read line by line, the message for an empty list is its one notice line. */
  lemma EmptyMessageLine(r: CheckResult)
    requires r.availableTimes == [] && '\n' !in r.date
    ensures Split(Message(r), '\n') == ["No tee times available for " + r.date]
  {
    var m := Message(r);
    forall k | 0 <= k < |m| ensures m[k] != '\n' {
      if k >= |"No tee times available for "| {
        assert m[k] == r.date[k - |"No tee times available for "|];
      }
    }
    SplitNoSep(m, '\n');
  }

  /** What `send_notification` did: nothing without SNS, nothing (the KeyError is logged)
      without `config["monitoring"]["sns_topic_arn"]`, or a publish to that topic. */
  datatype Notice = SkippedNoSns | TopicMissing | Published(topic: string, subject: string, message: string)

  /** Lines 258-299: `send_notification`. Unlike the other monitors it publishes for
      every check, including an empty or failed one. */
  function SendNotification(config: Config, snsReady: bool, r: CheckResult): (n: Notice)
    ensures n.Published? <==> snsReady && config.monitoringTopic.Some?
    ensures n.Published? ==>
      n.topic == config.monitoringTopic.value && n.subject == "ForeUp Tee Time Alert"
      && n.message == Message(r)
      && (r.availableTimes == [] ==> n.message == "No tee times available for " + r.date)
  {
    if !snsReady then SkippedNoSns
    else if config.monitoringTopic.None? then TopicMissing
    else Published(config.monitoringTopic.value, "ForeUp Tee Time Alert", Message(r))
  }

  /** Lines 301-334: `log_metrics`: nothing without CloudWatch; otherwise the count and
      whether the check succeeded. */
  function LogMetrics(cloudwatchReady: bool, r: CheckResult): (m: Option<seq<Metric>>)
    ensures m.Some? <==> cloudwatchReady
    ensures m.Some? ==>
      |m.value| == 2 && m.value[0] == Metric("AvailableTeeTimes", r.totalAvailable)
      && m.value[1].name == "CheckSuccess" && (m.value[1].value == 1 <==> r.success)
      && (m.value[1].value == 0 <==> !r.success)
  {
    if cloudwatchReady then
      Some([Metric("AvailableTeeTimes", r.totalAvailable), Metric("CheckSuccess", if r.success then 1 else 0)])
    else None
  }
}
