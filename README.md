# recreation-bot, modelled in Dafny

This project models the logic of the recreation-bot repository in Dafny:

- three booking bots (ForeUp tee times, Recreation.gov permits, ReserveCalifornia campsites) that race a release time on the wall clock;
- four availability monitors and two AWS Lambda handlers that scrape a tee-time page, keep the slots with room for the party, and report them;
- two small command-line helpers, a configuration validator and a status summary.

The browser, the HTTP session, the HTML parser and AWS are not modelled as code. Each appears as an observation given to the model:

- the texts and flags a page shows;
- whether a call raised;
- which clients were created.

The clock is a `WallClock.Clock` object holding local milliseconds. `time.sleep` advances it by exactly the time asked. A monitor's check advances it by the time the check ran, which each browser session records as an observation.

Loops that the source runs forever are driven by a finite script held in the object:

- `while not reserved` in the bots;
- `while True` in the monitors.

The script holds the pages the attempts will see and the passes a monitor will make. When it runs out, the run ends with `ScriptExhausted`.

Modules, one per source file, plus four shared ones:

- `Text`: characters, digits, Python's `int()`, `strip()`, `split()` and `join()`;
- `TimeScan`: the regular expressions the scrapers use, as leftmost, greedy scanners;
- `Calendar` and `Clock12`: `datetime` dates and 12-hour times, with `strptime` and `strftime`;
- `WallClock`: the clock and the 0.1 s polling gate;
- `Report`: the availability result, the alert message and the metrics shared by the monitors;
- `ForeUpBot`, `Recreation`, `ReserveCA`: the bots;
- `LambdaHandler`, `PlaywrightMonitor`, `LambdaPlaywright`, `LambdaMonitor`, `MonitoringService`: the scrapers, monitors and handlers;
- `SetupMonitoring`, `CheckStatus`: the helpers.

`recreation.py` and `recgov_bot/recreation.py` are the same file. `Recreation` models both, and its rows cite both.

Behaviour of the code worth knowing:

- ForeUp's selection filters tiles only by the time window. The party size only picks the players button, and no tile is compared with it (foreup_bot/foreup_bot.py:179-224).
- Ties between equally near tiles go to the first in page order (`min` keeps the first least pair).
- Each booking loop runs until it books. ForeUp retries until an attempt succeeds. The two permit bots re-arm their windows until one books.
- A failure inside an attempt, such as a failed login or a broken page, ends that attempt. Where the source lets it escape, it ends the run.
- The ReserveCalifornia main loop never calls `clickCampsiteButton` (see Findings).

## Model

| member | source | states |
|---|---|---|
| Clock12.MinutesMonotone | foreup_bot/foreup_bot.py:132-133 | an earlier hour gives fewer minutes of the day |
| Clock12.NotAfterIsMinutesOrder | foreup_bot/foreup_bot.py:222 | the `window_start <= t <= window_end` comparison of times is the order of their minutes of the day |
| Clock12.TimeDifferenceSymmetric | foreup_bot/foreup_bot.py:122-134 | `_get_time_difference(a, b) == _get_time_difference(b, a)` |
| Clock12.TimeDifferenceZeroIffEqual | foreup_bot/foreup_bot.py:122-134 | the difference is zero exactly when the two times are equal |
| Clock12.TimeDifferenceBound | foreup_bot/foreup_bot.py:122-134 | the difference is at most 1439 minutes |
| Clock12.To24Valid | foreup_bot/foreup_bot.py:120 | `%I %p` to 24-hour: 12 AM is 0, 12 PM is 12, other PM hours add 12; converting back gives the same fields |
| Clock12.FieldsOfValid | foreup_bot/foreup_bot.py:120 | every time of day has exactly one 12-hour reading, and it converts back to that time |
| Clock12.MinuteField | foreup_bot/foreup_bot.py:120 | `%M` accepts only minutes below 60 |
| Clock12.LexClock | foreup_bot/foreup_bot.py:120 | a string `strptime` accepts yields valid 12-hour fields |
| Clock12.ParseClock | foreup_bot/foreup_bot.py:201-209 | a parsed time is a valid time of day |
| Clock12.ParseLabelText | foreup_bot/foreup_bot.py:111-120 | `_parse_time` reads a printed tile label such as "5:51pm" back as the time it shows |
| Clock12.ParseConfigText | foreup_bot/foreup_bot.py:201-209 | the configured times, read with `%I:%M %p`, give back the time that `strftime('%I:%M %p')` printed |
| Clock12.SpacedLabelRejected | foreup_bot/foreup_bot.py:120 | a label with a blank before the meridiem fails `_parse_time` but passes the configuration format |
| ForeUpBot.FieldsRecompose | foreup_bot/foreup_bot.py:312-316 | the hour, minute and second fields recompose the second of the day |
| ForeUpBot.PreLoginWaitIsDistance | foreup_bot/foreup_bot.py:312-316 | the pre-login wait computed from the fields is the distance to one minute before the target |
| ForeUpBot.StartWaitIsDistance | foreup_bot/foreup_bot.py:342-346 | the start gate's wait is the distance to the target second |
| ForeUpBot.StartGateOpenIff | foreup_bot/foreup_bot.py:335-353 | the start gate lets the bot through exactly when the target second has come, never earlier |
| ForeUpBot.WaitBeforeLogin | foreup_bot/foreup_bot.py:307-325 | the bot leaves the pre-login gate the same day, at one minute before the target or at once if that has passed, and never moves the clock back |
| ForeUpBot.WaitForRelease | foreup_bot/foreup_bot.py:335-353 | the bot leaves the start gate at the target second, or at once if it has passed |
| ForeUpBot.ClosestUnique | foreup_bot/foreup_bot.py:233-235 | with the first-minimum tie-break, at most one tile is the closest |
| ForeUpBot.CollectValidTimes | foreup_bot/foreup_bot.py:215-224 | the pass succeeds exactly when every label parses; it then lists exactly the in-window tiles, both ends inclusive, in page order with their distance to the start time |
| ForeUpBot.FirstMinimum | foreup_bot/foreup_bot.py:233-235 | `min(..., key=diff)` returns a pair of least distance, and no earlier pair has a distance that small |
| ForeUpBot.FirstMinimumIsClosest | foreup_bot/foreup_bot.py:215-235 | the first least pair names the closest in-window tile, ties going to page order |
| ForeUpBot.ChooseClosest | foreup_bot/foreup_bot.py:215-235 | one bad label aborts the attempt; no tile in the window means nothing is chosen; otherwise the closest in-window tile is chosen |
| ForeUpBot.NoCandidateFails | foreup_bot/foreup_bot.py:196-198 | with no available tile, or none in the window, nothing is selected and the attempt returns False |
| ForeUpBot.Bot.constructor | foreup_bot/foreup_bot.py:328 | a bot starts with its configured times, its script of pages, no refreshes and no choices |
| ForeUpBot.Bot.NavigateAndSetup | foreup_bot/foreup_bot.py:136-294 | one attempt consumes one page and returns True exactly when that page is booked and confirmed; when it selects a tile, that is the closest in-window tile |
| ForeUpBot.Bot.Run | foreup_bot/foreup_bot.py:302-363 | booking starts no earlier than the target second; every attempt before the last failed; the run reserves only on a succeeding page; there is exactly one refresh per failed attempt |
| WallClock.Clock.constructor | recreation.py:167 | the clock starts at the given reading |
| WallClock.Clock.Sleep | recreation.py:175 | `time.sleep(d)` advances the clock by exactly `d` |
| WallClock.TimeOfDay | recreation.py:167 | the time of day lies within one day |
| WallClock.DayStart | recreation.py:170-172 | the last midnight is at most the reading and less than a day before it |
| WallClock.SecondOfDay | foreup_bot/foreup_bot.py:312-316 | the second of the day is below 86400 |
| WallClock.BeforeReleaseIsTimeOfDay | recreation.py:169-174 | `now < today at h:m:00` compares only the time of day with h:m |
| WallClock.SameDay | foreup_bot/foreup_bot.py:319-323 | a wait shorter than the rest of the day leaves the date unchanged |
| WallClock.SleepSeconds | foreup_bot/foreup_bot.py:319-323 | sleeping k whole seconds within the day advances the second of the day by k |
| WallClock.PollKeepsTarget | recreation.py:166-176 | while the release is ahead, a 0.1 s poll leaves today's target where it was |
| WallClock.PollStep | recreation.py:166-176 | each poll brings the gate strictly closer, and it opens at most one poll after the release |
| WallClock.AwaitRelease | recreation.py:166-176 | the polling gate returns at the first poll on or after today's release, and at once if the release has passed |
| WallClock.ParseHourMinute | recgov_bot/recreation.py:169 | `map(int, start_time.split(":"))` accepted by `replace` is an hour below 24 and a minute below 60 |
| WallClock.ParseHourMinuteOfText | reserve_ca_bot/reserve_ca.py:248 | a configured "H:MM" reads back as its hour and minute |
| Calendar.DaysInMonth | reserve_ca_bot/reserve_ca.py:117 | every month has 28 to 31 days |
| Calendar.PreviousDay | reserve_ca_bot/reserve_ca.py:118 | `date - timedelta(days=1)` is a valid date, and it fails only on 1 January of year 1 |
| Calendar.NextDay | reserve_ca_bot/reserve_ca.py:118 | the inverse step gives a valid date |
| Calendar.PreviousDayOrdinal | reserve_ca_bot/reserve_ca.py:118 | the previous day is exactly one day earlier on the proleptic count, across month, year and leap-day boundaries |
| Calendar.NextAfterPrevious | reserve_ca_bot/reserve_ca.py:118 | the day after the previous day is the day itself |
| Calendar.PreviousAfterNext | reserve_ca_bot/reserve_ca.py:118 | the day before the next day is the day itself |
| Text.TwelveField | reserve_ca_bot/reserve_ca.py:117 | the field `%m` (and `%I`, at foreup_bot/foreup_bot.py:120) accepts only 1 to 12 |
| Calendar.DayField | reserve_ca_bot/reserve_ca.py:117 | `%d` accepts only days 1 to 31 |
| Calendar.ParseIsoDate | reserve_ca_bot/reserve_ca.py:117 | `strptime(s, "%Y-%m-%d")` yields only dates that exist |
| Calendar.ParseIsoText | reserve_ca_bot/reserve_ca.py:117 | reading an ISO date back gives the date |
| Calendar.MonthName | reserve_ca_bot/reserve_ca.py:121 | `%B` is a letters-only month name |
| Calendar.OrdinalSuffixIsEnglish | reserve_ca_bot/reserve_ca.py:122-126 | the source's suffix rule is the English ordinal rule for every day of a month, and is one of st, nd, rd, th |
| Calendar.MonthNumber | reserve_ca_bot/reserve_ca.py:121 | a month name read back names the month that prints as that name |
| Calendar.ParseDateLabelOfLabel | reserve_ca_bot/reserve_ca.py:120-127 | the "August 4th, 2025" label determines its date: reading the label gives the date back |
| ReserveCA.PreviousDayLabel | reserve_ca_bot/reserve_ca.py:115-127 | a label exists exactly when the start date parses and is not 1 January of year 1, and it is the label of the day before that date |
| ReserveCA.EndDateLabel | reserve_ca_bot/reserve_ca.py:137-147 | the end label exists exactly when the end date parses, and it is the label of that same day, unshifted |
| ReserveCA.PreviousDayLabelNamesDayBefore | reserve_ca_bot/reserve_ca.py:115-127 | for every valid start date after 1 January of year 1, the label clicked first reads back as the day before it |
| ReserveCA.NoDayBeforeYearOne | reserve_ca_bot/reserve_ca.py:118 | the earliest date has no previous day, so the step raises |
| ReserveCA.NavigateAndSetup | reserve_ca_bot/reserve_ca.py:210-230 | setup returns the bound method `clickCampsiteButton`, which is truthy, exactly when both date labels are shown and every step succeeds; otherwise it returns False |
| ReserveCA.Bot.constructor | reserve_ca_bot/reserve_ca.py:236-238 | a bot starts with its dates, start time and script of campsite views, with all click counters at zero |
| ReserveCA.Bot.ClickCampsiteButton | reserve_ca_bot/reserve_ca.py:170-192 | an enabled button is clicked and gives True; otherwise Refresh is clicked, one second passes and the result is False; when Refresh is missing the call raises |
| ReserveCA.Bot.WindowAsWritten | reserve_ca_bot/reserve_ca.py:257-266 | as written, a window never books and never expires; it clicks checkout once or raises, and never touches the campsite button, the captcha or Refresh |
| ReserveCA.Bot.RunAsWritten | reserve_ca_bot/reserve_ca.py:236-269 | as written, the run never reserves and never clicks the campsite button or the captcha |
| ReserveCA.Bot.WindowIntended | reserve_ca_bot/reserve_ca.py:257-266 | corrected: the window refreshes on each unavailable view and books on the first enabled one, with checkout clicked exactly once; every pass lies inside its ten minutes |
| ReserveCA.Bot.RunIntended | reserve_ca_bot/reserve_ca.py:236-269 | corrected: the run reserves exactly when the last view it used offers the campsite and the start time parses; every earlier view refreshed |
| ReserveCA.Bot.RaceIntended | reserve_ca_bot/reserve_ca.py:245-266 | corrected: the gate and windows reserve exactly on a bookable view, with one checkout click |
| ReserveCA.Bot.WindowsIntended | reserve_ca_bot/reserve_ca.py:245-266 | corrected: windows re-arm until a view is bookable, and every pass lies within its window |
| Recreation.AttemptResult | recreation.py:64-151 | an attempt is True exactly when Book Now was clicked, no error modal showed and "Order Details" appeared; it is None when neither showed; otherwise it is False |
| Recreation.DisabledDateIsFalse | recgov_bot/recreation.py:110-112 | a first date whose class contains "sarsa-button-disabled" gives False |
| Recreation.ModalIsFalse | recreation.py:133-151 | an error modal gives False whatever else the page shows |
| Recreation.TriedConcat | recreation.py:178-183 | failed attempts followed by a run of attempts are one run of attempts |
| Recreation.Bot.constructor | recreation.py:159 | a bot starts with its date, its start time and its script of pages, with no refreshes, windows or attempts |
| Recreation.Bot.NavigateAndSetup | recgov_bot/recreation.py:64-151 | one attempt returns the classified result of its page, reloads once when the modal shows, and takes at least half a second |
| Recreation.Bot.Window | recreation.py:178-183 | a 22-minute window stops at the first True, and only a True sets `booked`; every attempt begins inside the window |
| Recreation.Bot.Windows | recgov_bot/recreation.py:166-183 | windows re-arm after expiry until an attempt returns True or the pages run out |
| Recreation.Bot.Run | recreation.py:157-186 | the run crashes exactly when `start_time` does not parse; otherwise only a True attempt reserves, every earlier attempt was not True, and every window was armed after the release |
| Recreation.Bot.FirstAttempt | recgov_bot/recreation.py:164 | the attempt before the gate consumes one page and its value is not looked at |
| Recreation.Bot.Race | recreation.py:166-183 | the gate and windows reserve only on a True attempt, and every window opens after the release |
| TimeScan.HourLen | foreup_bot/monitoring/playwright_monitor.py:265 | `\d{1,2}` before a colon is one or two digits, followed by the colon |
| TimeScan.MatchAt | foreup_bot/monitoring/playwright_monitor.py:265 | a match at a position is at least four characters long and lies within the text |
| TimeScan.FirstMatchFrom | foreup_bot/monitoring/playwright_monitor.py:266 | the leftmost match: it matches where it says, and no earlier position matches |
| TimeScan.FindAllTokens | foreup_bot/monitoring/lambda_monitor.py:183-184 | every piece `re.findall` returns is, in full, one match of the pattern |
| TimeScan.FindAllHeadIsSearch | foreup_bot/aws/lambda_handler_playwright.py:37 | `re.findall(p, s)[0]` is `re.search(p, s).group(1)`, and one is empty exactly when the other finds nothing |
| TimeScan.SearchFindsToken | foreup_bot/aws/lambda_handler_playwright.py:37 | what `re.search` returns is a complete time token |
| TimeScan.StrictTokenPrefix | foreup_bot/monitoring/playwright_monitor.py:279 | a time token at the front of a slot text is matched in full, whatever follows |
| TimeScan.MatchSlice | foreup_bot/monitoring/playwright_monitor.py:266 | a match depends only on the characters it covers |
| TimeScan.FirstCountIsLeftmost | foreup_bot/monitoring/playwright_monitor.py:272-276 | the count is taken from the leftmost place the count pattern matches |
| Report.Succeeded | foreup_bot/monitoring/monitoring_service.py:204-210 | a successful check carries its list and a count equal to the list's length |
| Report.Failed | foreup_bot/monitoring/monitoring_service.py:212-222 | a failed check has an empty list, a zero count and its error |
| Report.AlertLines | foreup_bot/monitoring/monitoring_service.py:235-238 | the alert has the header line, the count line and one `- {slot}` line per slot, in order |
| Report.TerminatedSnoc | foreup_bot/monitoring/monitoring_service.py:238 | appending `line + "\n"` to the message adds one line |
| Report.TerminatedIsJoin | foreup_bot/monitoring/monitoring_service.py:235-238 | newline-terminated lines are the newline join with an empty tail |
| Report.AlertMessageLines | foreup_bot/monitoring/playwright_monitor.py:399-402 | split at newlines, the accumulated message gives back exactly its header, count line and slot lines |
| Report.BuildAlert | foreup_bot/monitoring/monitoring_service.py:234-238 | the message is built exactly when the check succeeded and found something, and it is the line-by-line alert |
| Report.CheckMetrics | foreup_bot/monitoring/monitoring_service.py:263-280 | two data points: AvailableTeeTimes is the count, and CheckSuccess is 1 exactly when the check succeeded, else 0 |
| LambdaHandler.SpanCounts | foreup_bot/aws/lambda_handler.py:387-390 | each span reads as `int(text.strip())`, or as nothing where that raises |
| LambdaHandler.Capacity | foreup_bot/aws/lambda_handler.py:385-392 | a tile's spots are the maximum of 0 and every span that reads as an integer |
| LambdaHandler.TileSpots | foreup_bot/aws/lambda_handler.py:385-392 | the `max` loop over the spans computes that capacity |
| LambdaHandler.TileEntry | foreup_bot/aws/lambda_handler.py:393-396 | a tile is reported exactly when it has a label and at least `num_players` spots, as `"{time} ({spots} spots)"` |
| LambdaHandler.CollectSlots | foreup_bot/aws/lambda_handler.py:374-407 | the tile loop reports exactly the suitable tiles, in page order |
| LambdaHandler.ReadTile | foreup_bot/aws/lambda_handler.py:376-403 | one tile gives its `"{time} ({n} spots)"` entry exactly when its label is present and its largest readable count reaches the party size, and nothing otherwise |
| LambdaHandler.SuitableConcat | foreup_bot/aws/lambda_handler.py:374-407 | tiles are judged independently: the report for a page is the report for its parts, concatenated |
| LambdaHandler.SuitableSound | foreup_bot/aws/lambda_handler.py:374-407 | every reported slot comes from a tile with enough room, and there are no more slots than tiles |
| LambdaHandler.SuitableComplete | foreup_bot/aws/lambda_handler.py:374-407 | every labelled tile with enough room is reported |
| LambdaHandler.CheckOf | foreup_bot/aws/lambda_handler.py:296-432 | success exactly when the driver, login and page all worked; on success the suitable slots, with the count equal to their number; otherwise an empty list, zero and the error's text, "Failed to login to ForeUp" for a failed login |
| LambdaHandler.PerformAvailabilityCheck | foreup_bot/aws/lambda_handler.py:296-432 | the check, with the tiles read by the loop, is exactly that result |
| LambdaHandler.ConfigIn | foreup_bot/aws/lambda_handler.py:57-70 | a configuration file that parsed is used as it is; a missing one gives the built-in fallback |
| LambdaHandler.AlertOf | foreup_bot/aws/lambda_handler.py:110-126 | an alert exists exactly for a successful check with a positive count under a configured topic; it goes to that topic, under the subject naming the date, with the check's date, times and count |
| LambdaHandler.AlertBodyListsTimes | foreup_bot/aws/lambda_handler.py:115 | the body opens with the count, which reads back, and the rest splits at its commas into exactly the reported times, as many as the count |
| LambdaHandler.HandleInvocation | foreup_bot/aws/lambda_handler.py:37-149 | 500 exactly when a client cannot be created, the configuration file exists but does not load, or the credentials file is missing or does not load, naming the first such error ("Credentials not found" for a missing credentials file), with no check, metrics or alert; otherwise 200 with the check for the loaded or fallback configuration, its two metrics, and its alert |
| Text.CommaJoinIsJoin | foreup_bot/aws/lambda_handler.py:115 | `", ".join` is the comma join of the parts with a space in front of every part but the first |
| Text.CommaJoinSplits | foreup_bot/aws/lambda_handler.py:115 | splitting a `", ".join` of comma-free parts at its commas gives the parts back, the later ones behind one space |
| PlaywrightMonitor.ElementEntryMeaning | foreup_bot/monitoring/playwright_monitor.py:257-289 | an element is reported exactly when its text holds a time and it names no count or a count of at least the party size; the report is the first time found |
| PlaywrightMonitor.SearchContained | foreup_bot/monitoring/playwright_monitor.py:269 | the time found is a piece of the element's text |
| PlaywrightMonitor.OnlyFirstTwenty | foreup_bot/monitoring/playwright_monitor.py:256 | elements after the twentieth never change the result |
| PlaywrightMonitor.Structured | foreup_bot/monitoring/playwright_monitor.py:253-292 | the cascade yields the entries of the first selector that yields any, or nothing |
| PlaywrightMonitor.Distinct | foreup_bot/monitoring/playwright_monitor.py:304 | `list(set(...))` keeps each time once, and holds exactly the times found |
| PlaywrightMonitor.Assumed | foreup_bot/monitoring/playwright_monitor.py:305-306 | each fallback time is reported with four spots |
| PlaywrightMonitor.FallbackMeaning | foreup_bot/monitoring/playwright_monitor.py:294-306 | the whole-page fallback as the code evidently intends it (reading the page text with a selector) reports at most ten different times from that text, each with four spots, and all of them when there are no more than ten |
| PlaywrightMonitor.SlotTextInjective | foreup_bot/monitoring/playwright_monitor.py:279 | two slot texts with the same count are equal only when their times are |
| PlaywrightMonitor.ExtractEntriesAreSlots | foreup_bot/monitoring/playwright_monitor.py:229-312 | every scraped entry is a time token and a count that fits the party, or the assumed four |
| PlaywrightMonitor.ScanElement | foreup_bot/monitoring/playwright_monitor.py:257-289 | the body for one element yields that element's entry |
| PlaywrightMonitor.ScanSelector | foreup_bot/monitoring/playwright_monitor.py:256-289 | the inner loop yields the entries of the first twenty elements, in order |
| PlaywrightMonitor.ScanAllText | foreup_bot/monitoring/playwright_monitor.py:294-306 | the intended fallback loop yields the fallback report |
| PlaywrightMonitor.ExtractTeeTimes | foreup_bot/monitoring/playwright_monitor.py:229-312 | the scrape as evidently intended tries the selectors in order, stops at the first that yields a time, and falls back to the page text only when nothing was found |
| PlaywrightMonitor.ExtractAsWritten | foreup_bot/monitoring/playwright_monitor.py:229-312 | as written, the scrape is empty exactly when the locators raise or no selector yields a time: the page-text call at line 296 always raises |
| PlaywrightMonitor.AsWrittenAgreesOnSelectors | foreup_bot/monitoring/playwright_monitor.py:240-292 | where a selector yields a time, the code as written and the intended scrape agree |
| PlaywrightMonitor.AsWrittenMissesPageText | foreup_bot/monitoring/playwright_monitor.py:294-312 | where no selector yields a time but the page text shows one, the intended scrape reports it and the code as written reports nothing |
| PlaywrightMonitor.CheckAvailability | foreup_bot/monitoring/playwright_monitor.py:314-389 | a missing date raises; a failed login or navigation gives an empty failed check; success carries the scraped list, with the intended fallback, and its length as the count |
| PlaywrightMonitor.RunCheck | foreup_bot/monitoring/playwright_monitor.py:314-389 | running the check gives that result |
| PlaywrightMonitor.Notification | foreup_bot/monitoring/playwright_monitor.py:391-416 | publishes exactly when the clients exist, the check succeeded with a positive count and a topic is configured, with the line-by-line alert |
| PlaywrightMonitor.SendNotification | foreup_bot/monitoring/playwright_monitor.py:391-416 | the notification as sent agrees with that rule |
| PlaywrightMonitor.LoggedMetrics | foreup_bot/monitoring/playwright_monitor.py:418-453 | metrics are put exactly when the clients exist: the count, and CheckSuccess as 1 or 0 |
| PlaywrightMonitor.PassOf | foreup_bot/monitoring/playwright_monitor.py:467-482 | one pass records the check, the alert that check calls for, and its metrics |
| PlaywrightMonitor.ReplayRecords | foreup_bot/monitoring/playwright_monitor.py:465-488 | a run of passes leaves one record per pass, in order |
| PlaywrightMonitor.ReplayPrefix | foreup_bot/monitoring/playwright_monitor.py:465-488 | one more pass adds its own record after those of the passes before it |
| PlaywrightMonitor.Monitor.constructor | foreup_bot/monitoring/playwright_monitor.py:30-50 | a monitor starts with its configuration and its script of passes, with nothing recorded |
| PlaywrightMonitor.Monitor.Tick | foreup_bot/monitoring/playwright_monitor.py:467-482 | one pass gives that pass's record, and the clock moves on by the time its check ran |
| PlaywrightMonitor.Monitor.RunContinuousMonitoring | foreup_bot/monitoring/playwright_monitor.py:455-493 | each pass is recorded and followed by one interval of sleep; the clock moves on by the checks' running times plus those intervals; an interrupt stops the loop; a missing date or a negative interval ends monitoring at the first pass |
| LambdaPlaywright.Decodings | foreup_bot/aws/lambda_handler_playwright.py:33-49 | each slot text is decoded on its own, in order |
| LambdaPlaywright.DecodeSlots | foreup_bot/aws/lambda_handler_playwright.py:32-49 | the loop keeps the decoded slots in order and drops texts without a time |
| LambdaPlaywright.PresentAll | foreup_bot/aws/lambda_handler_playwright.py:32-49 | when every text decodes, the list keeps one entry per text |
| LambdaPlaywright.TokenParts | foreup_bot/aws/lambda_handler_playwright.py:37 | a strict time token is one or two hour digits, a colon, two minute digits, spaces and am/pm |
| LambdaPlaywright.NoCountInTime | foreup_bot/aws/lambda_handler_playwright.py:38 | no spots count can start inside a time token |
| LambdaPlaywright.CountAfterTime | foreup_bot/aws/lambda_handler_playwright.py:38 | the count written after the time is found where it was written |
| LambdaPlaywright.SearchSlotText | foreup_bot/aws/lambda_handler_playwright.py:37 | the time found in `"{t} ({n} spots)"` is `t` |
| LambdaPlaywright.CountSlotText | foreup_bot/aws/lambda_handler_playwright.py:38-42 | the count found in `"{t} ({n} spots)"` is `n` |
| LambdaPlaywright.NoCountBefore | foreup_bot/aws/lambda_handler_playwright.py:38 | no count matches before the one written |
| LambdaPlaywright.DecodeSlotText | foreup_bot/aws/lambda_handler_playwright.py:34-49 | decoding a slot that the scraper wrote gives back its time and count, with no price |
| LambdaPlaywright.ScrapedSlotsDecode | foreup_bot/aws/lambda_handler_playwright.py:32-49 | every slot a Playwright scrape reports decodes, so nothing is dropped |
| LambdaPlaywright.HandleInvocation | foreup_bot/aws/lambda_handler_playwright.py:14-86 | 500 exactly when the files fail to load or name no date; otherwise 200 with the check's count, an alert exactly when it is positive, and the metrics |
| LambdaPlaywright.ReportedCountMatchesDecoded | foreup_bot/aws/lambda_handler_playwright.py:66 | the reported count, which is the check's, equals the number of decoded entries |
| LambdaMonitor.Cascade | foreup_bot/monitoring/lambda_monitor.py:157-161 | `a or b or c`: the first non-empty list, empty only when all three are |
| LambdaMonitor.Readings | foreup_bot/monitoring/lambda_monitor.py:158-178 | each element is read on its own, in order |
| LambdaMonitor.Run | foreup_bot/monitoring/lambda_monitor.py:158-178 | no more entries than elements, and the pass raises exactly when an element does |
| LambdaMonitor.RunMeaning | foreup_bot/monitoring/lambda_monitor.py:158-178 | every collected entry comes from an element, and when nothing raised every element's entry is collected |
| LambdaMonitor.ScanMeaning | foreup_bot/monitoring/lambda_monitor.py:158-178 | an entry is an element's stripped text, non-empty and holding ":", with the first number next to it or 4 and no price; the pass raises exactly on a broken element; with nothing raised every such element is read |
| LambdaMonitor.Fallback | foreup_bot/monitoring/lambda_monitor.py:180-194 | the fallback returns at most ten entries |
| LambdaMonitor.FallbackMeaning | foreup_bot/monitoring/lambda_monitor.py:180-194 | the fallback keeps the first ten case-insensitive matches of the raw page, in page order with repeats, each a time token with four spots |
| LambdaMonitor.ReadElement | foreup_bot/monitoring/lambda_monitor.py:163-176 | the body for one element yields that element's reading |
| LambdaMonitor.ScanElements | foreup_bot/monitoring/lambda_monitor.py:158-178 | the loop yields what was collected before the first broken element, and reports whether one raised |
| LambdaMonitor.FallbackTimes | foreup_bot/monitoring/lambda_monitor.py:180-194 | the fallback loop yields the fallback entries |
| LambdaMonitor.ExtractTeeTimes | foreup_bot/monitoring/lambda_monitor.py:141-199 | the fallback runs only when no element gave an entry and none raised; a raise returns what was collected so far |
| LambdaMonitor.CheckAvailability | foreup_bot/monitoring/lambda_monitor.py:201-256 | "Login failed", then "Failed to get tee times page", each with an empty list and zero; otherwise success with the extracted list and its length; the date defaults to "unknown" |
| LambdaMonitor.TimeLines | foreup_bot/monitoring/lambda_monitor.py:273-278 | one `"  - {time} ({spots} spots)"` line per tee time, in order |
| LambdaMonitor.MessageLines | foreup_bot/monitoring/lambda_monitor.py:272-287 | for a non-empty list, split at newlines, the message gives the headline, the date, the count, one line per tee time in order, then the booking link |
| LambdaMonitor.EmptyMessageLine | foreup_bot/monitoring/lambda_monitor.py:288-289 | for an empty list, split at newlines, the message is the single "No tee times available for {date}" line |
| LambdaMonitor.SendNotification | foreup_bot/monitoring/lambda_monitor.py:258-299 | skipped without SNS; without a topic nothing is published; otherwise it publishes the message for every check, empty or failed, under "ForeUp Tee Time Alert", and for an empty list that message is "No tee times available for {date}" |
| LambdaMonitor.LogMetrics | foreup_bot/monitoring/lambda_monitor.py:301-334 | skipped without CloudWatch; otherwise the count, and CheckSuccess as 1 exactly on success |
| MonitoringService.LabelsMeaning | foreup_bot/monitoring/monitoring_service.py:194-202 | every listed label belongs to a tile and every labelled tile is listed, with no capacity filter; one label per tile exactly when none is missing |
| MonitoringService.CollectLabels | foreup_bot/monitoring/monitoring_service.py:194-202 | the loop lists the labels of the tiles that have one, in page order |
| MonitoringService.CheckAvailability | foreup_bot/monitoring/monitoring_service.py:131-225 | a missing date raises; success lists one label per labelled tile with the count equal to their number; failure gives an empty list, zero and "Availability check failed: " with the error |
| MonitoringService.RunCheck | foreup_bot/monitoring/monitoring_service.py:131-225 | running the check gives that result |
| MonitoringService.Notify | foreup_bot/monitoring/monitoring_service.py:227-253 | publishes exactly when the check succeeded with a positive count and `sns_topic_arn` is configured, under "Tee Time Alert - {date}", with the line-by-line alert |
| MonitoringService.SendNotification | foreup_bot/monitoring/monitoring_service.py:227-253 | the notification as sent agrees with that rule |
| MonitoringService.OutcomeOf | foreup_bot/monitoring/monitoring_service.py:294-313 | a pass with a date gives the check, its metrics and the alert it calls for; without a date it raises |
| MonitoringService.Pause | foreup_bot/monitoring/monitoring_service.py:312-320 | the sleep after a pass is the interval, or one minute after a raise |
| MonitoringService.Outcomes | foreup_bot/monitoring/monitoring_service.py:294-320 | one outcome per pass, in order |
| MonitoringService.PassAlerts | foreup_bot/monitoring/monitoring_service.py:294-313 | a pass alerts exactly when its check succeeded with something found and a topic is configured, and it always puts metrics |
| MonitoringService.Monitor.constructor | foreup_bot/monitoring/monitoring_service.py:37-49 | a monitor starts with its configuration and its script of passes |
| MonitoringService.Monitor.Tick | foreup_bot/monitoring/monitoring_service.py:294-313 | one pass gives its outcome, and the clock moves on by the time its check ran, nothing when the date is missing |
| MonitoringService.Monitor.RunContinuousMonitoring | foreup_bot/monitoring/monitoring_service.py:284-320 | every pass is recorded, in order, then followed by its pause, a raise costing one minute; the clock moves on by the checks' running times plus those pauses; only the interrupt stops the loop |
| MonitoringService.HandleEvent | foreup_bot/monitoring/monitoring_service.py:323-364 | 500 with the error when the files fail to load or name no date; otherwise 200 with the check, after its metrics and alert |
| SetupMonitoring.In | foreup_bot/monitoring/setup_monitoring.py:57-61 | Python `in`: key membership on an object, raises on null, bools and numbers |
| SetupMonitoring.FirstMissing | foreup_bot/monitoring/setup_monitoring.py:55-59 | a reported missing field is one of the required fields |
| SetupMonitoring.FirstMissingOnObject | foreup_bot/monitoring/setup_monitoring.py:55-59 | on an object the search passes exactly when every field is present, and reports the first missing field in order |
| SetupMonitoring.ValidateObject | foreup_bot/monitoring/setup_monitoring.py:49-70 | a configuration object is accepted exactly when the four required keys are present and `monitoring` holds `enabled`; a missing key reports the first in the order target_date, num_players, start_time, monitoring; a missing `enabled` is reported as such |
| SetupMonitoring.OnlyObjectsValid | foreup_bot/monitoring/setup_monitoring.py:49-70 | only a JSON object can pass; a file that cannot be read or parsed fails |
| SetupMonitoring.FirstMissingAgree | foreup_bot/monitoring/setup_monitoring.py:55-59 | the search depends only on which required keys are present |
| SetupMonitoring.ExtraKeysIgnored | foreup_bot/monitoring/setup_monitoring.py:55 | other keys, such as window_start_time or window_end_time, never change the verdict |
| SetupMonitoring.CreateCredentialsFile | foreup_bot/monitoring/setup_monitoring.py:14-31 | an existing credentials file is kept; otherwise the template is copied with every other file unchanged; with neither, it fails and changes nothing |
| SetupMonitoring.CreateCredentialsIdempotent | foreup_bot/monitoring/setup_monitoring.py:14-31 | running the setup a second time changes nothing |
| CheckStatus.CollectResults | foreup_bot/utils/check_status.py:221-228 | each result is True exactly when that check returned True; a raised check counts as False |
| CheckStatus.Passed | foreup_bot/utils/check_status.py:234 | the pass count is at most the number of checks |
| CheckStatus.PassedAll | foreup_bot/utils/check_status.py:239-240 | all checks passed exactly when the count equals the total |
| CheckStatus.PassedNone | foreup_bot/utils/check_status.py:234 | the count is zero exactly when no check passed |
| CheckStatus.PassedCounts | foreup_bot/utils/check_status.py:234-235 | `sum(results)` is the number of positions holding True |
| CheckStatus.VerdictOf | foreup_bot/utils/check_status.py:239-244 | all operational exactly when passed equals total; some issues exactly when fewer, but more than half, passed; multiple issues otherwise, including exactly half |
| CheckStatus.Summary | foreup_bot/utils/check_status.py:207-244 | the summary counts the checks that returned True and gives that verdict |

## Left out

- Selenium, Playwright, BeautifulSoup, `requests` and boto3 are foreign libraries. Pages, sessions and clients appear as observations:
  - element texts;
  - presence and clickability flags;
  - whether a call raised;
  - whether a client was created.
  Clicks are counted, not performed.
- Time zones (`pytz`), `datetime.now()` and `time.time()`: the clock is one integer count of local milliseconds, already in the configured zone. Floating-point seconds are not modelled.
- Logging, `print`, and the parsing of JSON configuration and credential files: a configuration is an already-parsed record. A file that fails to load is one `LoadError` value, or, in LambdaHandler, `NotFound` or `Unreadable` with the error's text.
- `while not reserved` and `while True` loops run forever in the source. The model runs them over a finite script of pages or passes. When the script runs out, the run ends with `ScriptExhausted`.
- ForeUpBot.Bot.NavigateAndSetup: the login steps, the page's course and player selectors, and the `_debug` switch that skips the final clicks are taken as part of the page observation. It does not model which buttons were pressed.
- Recreation.Bot.NavigateAndSetup and ReserveCA.NavigateAndSetup: the search-box typing and scrolling are not modelled. Only the outcome each page leads to is.
- ReserveCA.Bot.RunAsWritten and ReserveCA.Bot.RunIntended: the setup call at line 243 is not evaluated. Its value is dropped, and the time it takes only delays the release gate. ReserveCA.NavigateAndSetup models it on its own.
- `clickCaptcha` in reserve_ca.py is a wait and a click on the captcha frame. The corrected run counts the call but does not model the page.
- PlaywrightMonitor.Distinct: `list(set(...))` has no fixed order. The model fixes first-occurrence order. The contracts state only what holds in every order.
- The whole-page text that the fallback reads is taken as optional text, where `None` stands for a raise and ends the scrape with nothing. As written, the call at playwright_monitor.py:296 always raises (see Findings).
- The outer `except` in lambda_monitor's `check_availability`, and failures of `publish` or `put_metric_data` other than a missing client or topic, are not modelled. Such a raise comes from code the model does not see.
- The `lambda_handler` functions at the end of playwright_monitor.py and the helpers `login_to_foreup`, `setup_chrome_driver` and `_setup_driver` are not part of this model. They wrap the modelled check in logging and browser setup.
- setup_monitoring.py `main` and `check_aws_credentials` are not modelled: they print and shell out to AWS. JSON numbers are integers here, because no check reads them.
- check_status.py's six individual checks query AWS. Each appears only as how it ended: returned True, returned False, or raised.
- LambdaHandler.HandleInvocation: a configuration file that parses to JSON other than an object is not modelled. There `config.get` raises inside the check's own `except`, and the error reaches the outer 500. The timestamps, the 200 body's fixed message and the JSON layout of the answer and of the SNS message are not modelled either. Failures of `put_metric_data` and `publish` are logged and change nothing, so they are not inputs.
- PlaywrightMonitor.Monitor.RunContinuousMonitoring and MonitoringService.Monitor.RunContinuousMonitoring: a check's own waits are not taken apart. These are the `time.sleep` calls of monitoring_service.py's `check_availability` and the `wait_for_timeout` calls of playwright_monitor.py's login and navigation. Each session carries the check's whole running time as one observed `took`, and the clock moves on by it. Which of the individual waits a path reaches is not modelled.
- Text.PyInt: reads ASCII digits only. Python's `int()` also accepts single underscores between digits (`int("1_000")`) and non-ASCII decimal digits, and the regular expression `\d` also matches non-ASCII digits. The model gives `None` for such text, or does not match it. Page texts and configured times are taken to use ASCII digits without underscores. This affects WallClock.ParseHourMinute, LambdaHandler.SpanCounts and the time patterns.
- The deployment, GUI and launcher scripts and the stub `foreup_bot/lambda_handler.py` are not part of this model.

## Findings

| source | as written | input that shows it | evidently intended | confidence | as-written member | corrected member |
|---|---|---|---|---|---|---|
| reserve_ca_bot/reserve_ca.py:257-266 | `if bot.clickCampsiteButton:` tests the bound method, which is always truthy, and `bot.clickCaptcha` is never called. Each window clicks checkout once and breaks, and `reserved` is never set. | any run past the release time, for example one whose first campsite view shows a disabled button | call `clickCampsiteButton()`; when it returns True, call `clickCaptcha()`, click checkout and set `reserved`; otherwise retry within the ten minutes | not executed | ReserveCA.Bot.RunAsWritten | ReserveCA.Bot.RunIntended |
| foreup_bot/monitoring/playwright_monitor.py:296 | `page.text_content()` is called without a selector. Playwright's `Page.text_content` requires one, so the call raises `TypeError` whenever it is reached. The `except` at lines 310-312 returns `[]`, so the whole-page fallback at lines 298-306 never runs. | a page where no selector finds a time but whose text shows one, such as "7:30 AM" | read the page's text with a selector (`page.text_content("body")`) and report up to ten distinct times from it, at four spots each | not executed | PlaywrightMonitor.AsWrittenMissesPageText | PlaywrightMonitor.FallbackMeaning |
