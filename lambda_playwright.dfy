/** The Playwright Lambda entry point (`foreup_bot/aws/lambda_handler_playwright.py`): it
    runs one Playwright check, reads each reported slot text back into a time and a count,
    alerts and logs metrics, and answers 200 with the decoded list, or 500 when anything
    raises. The round trip from the scraper's `"{time} ({n} spots)"` back to `(time, n)`
    is proved here. */
module LambdaPlaywright {
  import opened Text
  import opened TimeScan
  import opened Report
  import opened PlaywrightMonitor

  /** One decoded slot; `price` is never filled in. */
  datatype TeeTimeEntry = TeeTimeEntry(time: string, availableSpots: nat, price: Option<nat>)

  /** `(\d+)\s*spots?`. */
  const SPOTS_COUNT: CountTail := Word(["spot"])

  /** Lines 37-49 for one slot text: the first strict time, with the first spots count or
      the assumed four; a text without a time gives nothing. */
  function DecodeSlot(slot: string): Option<TeeTimeEntry> {
    match Search(slot, Strict)
    case None => None
    case Some(time) => Some(TeeTimeEntry(time, FirstCount(slot, SPOTS_COUNT).GetOr(ASSUMED_SPOTS), None))
  }

  /** What each slot text decodes to, in order. */
  function Decodings(slots: seq<string>): (ds: seq<Option<TeeTimeEntry>>)
    ensures |ds| == |slots|
    ensures forall k | 0 <= k < |slots| :: ds[k] == DecodeSlot(slots[k])
  {
    seq(|slots|, k requires 0 <= k < |slots| => DecodeSlot(slots[k]))
  }

  /** The entries that were decoded, in order, leaving out the texts without a time. */
  function Present(ds: seq<Option<TeeTimeEntry>>): seq<TeeTimeEntry>
    decreases |ds|
  {
    if ds == [] then []
    else Present(ds[..|ds| - 1]) + (if ds[|ds| - 1].Some? then [ds[|ds| - 1].value] else [])
  }

  function Decoded(slots: seq<string>): seq<TeeTimeEntry> {
    Present(Decodings(slots))
  }

  lemma PresentPrefix(ds: seq<Option<TeeTimeEntry>>, i: nat)
    requires i < |ds|
    ensures Present(ds[..i + 1]) == Present(ds[..i]) + (if ds[i].Some? then [ds[i].value] else [])
  {
    assert ds[..i + 1][..i] == ds[..i];
  }

  /** Lines 32-49: the decoding loop. */
  method DecodeSlots(slots: seq<string>) returns (entries: seq<TeeTimeEntry>)
    ensures entries == Decoded(slots)
  {
    ghost var ds := Decodings(slots);
    entries := [];
    var i := 0;
    while i < |slots|
      invariant 0 <= i <= |slots|
      invariant entries == Present(ds[..i])
    {
      PresentPrefix(ds, i);
      var timeMatch := Search(slots[i], Strict);
      var spotsMatch := FirstCount(slots[i], SPOTS_COUNT);
      if timeMatch.Some? {
        var spots := if spotsMatch.Some? then spotsMatch.value else ASSUMED_SPOTS;
        entries := entries + [TeeTimeEntry(timeMatch.value, spots, None)];
      }
      i := i + 1;
    }
    assert ds[..i] == ds;
  }

  /** When every text decodes, the list keeps one entry per text, in order. */
  lemma {:induction false} PresentAll(ds: seq<Option<TeeTimeEntry>>)
    requires forall k | 0 <= k < |ds| :: ds[k].Some?
    ensures |Present(ds)| == |ds|
    ensures forall k | 0 <= k < |ds| :: Present(ds)[k] == ds[k].value
    decreases |ds|
  {
    if ds != [] {
      var n := |ds| - 1;
      PresentAll(ds[..n]);
      PresentPrefix(ds, n);
      assert ds[..n + 1] == ds;
    }
  }

  // ------------------------------------------------------------- the round trip

  /** The pieces of a strict time token: the hour digits `t[..h]`, the colon at `h`, the
      minute digits at `h + 1` and `h + 2`, spaces up to `j`, and the two letters of the
      meridiem at `j`. */
  lemma TokenParts(t: string) returns (h: nat, j: nat)
    requires IsToken(t, Strict)
    ensures 1 <= h <= 2 && h + 3 <= j && j + 2 == |t|
    ensures forall k | 0 <= k < h :: IsDigit(t[k])
    ensures t[h] == ':' && IsDigit(t[h + 1]) && IsDigit(t[h + 2])
    ensures forall k | h + 3 <= k < j :: IsSpace(t[k])
    ensures t[j] in "apAP" && t[j + 1] in "mM"
  {
    h := HourLen(t, 0);
    j := SpaceEnd(t, h + 3);
    assert StrictMeridiemAt(t, j);
    assert t[j..j + 2][0] == t[j] && t[j..j + 2][1] == t[j + 1];
  }

  /** Inside the slot text, the time's digits are never followed by the word of a count:
      the hour runs into the colon and the minutes into the meridiem. */
  lemma NoCountInTime(t: string, rest: string, q: nat)
    requires IsToken(t, Strict) && q < |t|
    ensures CountAt(t + rest, q, SPOTS_COUNT).None?
  {
    var s := t + rest;
    var h, j := TokenParts(t);
    assert forall k | 0 <= k < |t| :: s[k] == t[k];
    if q < h {
      NoSpotAfterRun(s, q, h, h);
    } else if q == h {
      assert !IsDigit(s[q]);
    } else if q <= h + 2 {
      assert !IsDigit(s[h + 3]) by {
        if h + 3 < j {
          assert IsSpace(s[h + 3]);
        } else {
          assert s[h + 3] == t[j];
        }
      }
      NoSpotAfterRun(s, q, h + 3, j);
    } else if q < j {
      assert IsSpace(s[q]);
    } else {
      assert s[q] == t[j] || s[q] == t[j + 1];
    }
  }

  /** A run of digits from `q` to `e`, then spaces up to `j`, then something other than
      the letter `s` and other than a space: no count of spots starts at `q`. */
  lemma NoSpotAfterRun(s: string, q: nat, e: nat, j: nat)
    requires q < e <= j < |s|
    requires (forall k | q <= k < e :: IsDigit(s[k])) && !IsDigit(s[e])
    requires (forall k | e <= k < j :: IsSpace(s[k])) && !IsSpace(s[j]) && s[j] != 's'
    ensures CountAt(s, q, SPOTS_COUNT).None?
  {
    RunEndIs(s, q, e);
    SpaceEndIs(s, e, j);
    assert s[j..][0] == s[j];
  }

  /** The count written after the time is found where it was written. */
  lemma CountAfterTime(t: string, n: nat)
    ensures CountAt(SlotText(t, n), |t| + 2, SPOTS_COUNT) == Some(n)
  {
    var pre := t + " (";
    assert SlotText(t, n) == pre + NatToString(n) + " spots)";
    CountBeforeSpots(pre, NatToString(n));
  }

  /** Digits followed by ` spots)` read, from their first digit, as their own value. */
  lemma CountBeforeSpots(pre: string, d: string)
    requires d != [] && AllDigits(d)
    ensures CountAt(pre + d + " spots)", |pre|, SPOTS_COUNT) == Some(DigitsValue(d))
  {
    var post := " spots)";
    var s := pre + d + post;
    var k, e := |pre|, |pre| + |d|;
    assert s[k..e] == d;
    assert s[e + 1..] == post[1..];
    assert s[e] == post[0] == ' ' && s[e + 1] == post[1] == 's';
    assert forall i | k <= i < e :: IsDigit(s[i]) by {
      forall i | k <= i < e ensures IsDigit(s[i]) {
        assert s[i] == d[i - k];
      }
    }
    RunEndIs(s, k, e);
    SpaceEndIs(s, e, e + 1);
    assert post[1..][..4] == "spot";
    assert "spot" in SPOTS_COUNT.words;
  }

  /** The time found in a slot text is the time it was written with. */
  lemma SearchSlotText(t: string, n: nat)
    requires IsToken(t, Strict)
    ensures Search(SlotText(t, n), Strict) == Some(t)
  {
    var rest := " (" + NatToString(n) + " spots)";
    var s := SlotText(t, n);
    assert s == t + rest;
    StrictTokenPrefix(t, rest);
    assert FirstMatchFrom(s, 0, Strict) == Some((0, |t|));
    assert s[0..|t|] == t;
  }

  /** The count found in a slot text is the count it was written with. */
  lemma CountSlotText(t: string, n: nat)
    requires IsToken(t, Strict)
    ensures FirstCount(SlotText(t, n), SPOTS_COUNT) == Some(n)
  {
    NoCountBefore(t, n);
    CountAfterTime(t, n);
    FirstCountIsLeftmost(SlotText(t, n), 0, |t| + 2, SPOTS_COUNT);
  }

  lemma NoCountBefore(t: string, n: nat)
    requires IsToken(t, Strict)
    ensures forall q | 0 <= q < |t| + 2 :: CountAt(SlotText(t, n), q, SPOTS_COUNT).None?
  {
    var rest := " (" + NatToString(n) + " spots)";
    var s := SlotText(t, n);
    assert s == t + rest;
    forall q | 0 <= q < |t| + 2 ensures CountAt(s, q, SPOTS_COUNT).None? {
      if q < |t| {
        NoCountInTime(t, rest, q);
      } else {
        assert s[q] == rest[q - |t|];
      }
    }
  }

  /** Reading back a slot the scraper wrote gives the time and the count it was written
      with, and no price. */
  lemma DecodeSlotText(t: string, n: nat)
    requires IsToken(t, Strict)
    ensures DecodeSlot(SlotText(t, n)) == Some(TeeTimeEntry(t, n, None))
  {
    SearchSlotText(t, n);
    CountSlotText(t, n);
  }

  /** Every slot a Playwright scrape reports decodes, to the time and count it names. */
  lemma ScrapedSlotsDecode(page: PageView, required: int)
    ensures forall e | e in Extract(page, required) :: DecodeSlot(e).Some?
    ensures |Decoded(Extract(page, required))| == |Extract(page, required)|
  {
    var slots := Extract(page, required);
    ExtractEntriesAreSlots(page, required);
    forall e | e in slots ensures DecodeSlot(e).Some? {
      var t: string, n: nat :| e == SlotText(t, n) && IsToken(t, Strict) && (n >= required || n == ASSUMED_SPOTS);
      DecodeSlotText(t, n);
    }
    PresentAll(Decodings(slots));
  }

  // ------------------------------------------------------------- the handler


  /** The JSON body: the check as reported, or the error that escaped. */
  datatype Body =
    | Completed(success: bool, date: string, availableTimes: seq<TeeTimeEntry>, totalAvailable: nat, message: string)
    | LambdaFailed(error: string, message: string)

  datatype Response = Response(statusCode: nat, body: Body, delivery: Delivery, metrics: Option<seq<Metric>>)

  /** Lines 14-86: `lambda_handler`. A failure to load the files, or a configuration without
      a date, escapes as a 500; otherwise the check is decoded, alerted on when it found
      something, its metrics are logged, and the answer is 200 with the check's count. */
  method HandleInvocation(files: Loaded, awsReady: bool, session: BrowserSession) returns (r: Response)
    ensures r.statusCode == 500 <==> files.LoadError? || files.config.targetDate.None?
    ensures r.statusCode == 500 ==>
      r.body == LambdaFailed(if files.LoadError? then files.message else MISSING_DATE, "Lambda monitoring failed")
      && r.delivery == NoAlert && r.metrics.None?
    ensures r.statusCode != 500 ==>
      var c := CheckAvailability(None, files.config, session).value;
      r.statusCode == 200
      && r.body.Completed? && r.body.success == c.success && r.body.date == c.date
      && r.body.totalAvailable == c.totalAvailable
      && r.body.availableTimes == Decoded(c.availableTimes)
      && r.body.message == (if c.success then "Playwright monitoring completed successfully" else c.errorMessage.value)
      && r.delivery == (if c.totalAvailable > 0 then Notification(files.config, awsReady, c) else NoAlert)
      && r.metrics == LoggedMetrics(awsReady, c)
  {
    if files.LoadError? {
      return Response(500, LambdaFailed(files.message, "Lambda monitoring failed"), NoAlert, None);
    }
    var config := files.config;
    var checked := RunCheck(None, config, session);
    if checked.None? {
      return Response(500, LambdaFailed(MISSING_DATE, "Lambda monitoring failed"), NoAlert, None);
    }
    var c := checked.value;
    var entries := DecodeSlots(c.availableTimes);
    var delivery := NoAlert;
    if c.totalAvailable > 0 {
      delivery := SendNotification(config, awsReady, c);
    }
    var metrics := LoggedMetrics(awsReady, c);
    var message := if c.success then "Playwright monitoring completed successfully" else c.errorMessage.value;
    return Response(200, Completed(c.success, c.date, entries, c.totalAvailable, message), delivery, metrics);
  }

  /** The answer's count is the check's, not the decoded list's length; the two agree,
      because every scraped slot decodes, to the time and count the scraper found. */
  lemma ReportedCountMatchesDecoded(config: Config, session: BrowserSession)
    requires config.targetDate.Some?
    ensures var c := CheckAvailability(None, config, session).value;
      |Decoded(c.availableTimes)| == c.totalAvailable
  {
    ScrapedSlotsDecode(session.page, RequiredPlayers(config));
  }
}
