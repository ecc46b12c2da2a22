/** The Selenium-based Lambda check (`foreup_bot/aws/lambda_handler.py`): each available
    tile's capacity is the largest player count among its spans, tiles with room for the
    party are reported as `"{time} ({n} spots)"` in page order, and the handler publishes
    an alert only for a successful check that found something. */
module LambdaHandler {
  import opened Text
  import opened Report

  /** `div.time.time-tile:not(.unavailable)`: the text of its start-time label (`None`
      when the label element is missing, which raises), and the text of each span under
      `span.booking-slot-players`. */
  datatype Tile = Tile(timeLabel: Option<string>, spans: seq<string>)

  /** `int(span.text.strip())`, or `None` where that raises `ValueError`. */
  function SpanCount(text: string): Option<int> {
    PyInt(Strip(text))
  }

  /** The counts the spans read as, in order. */
  function SpanCounts(spans: seq<string>): (counts: seq<Option<int>>)
    ensures |counts| == |spans|
    ensures forall k | 0 <= k < |spans| :: counts[k] == SpanCount(spans[k])
  {
    seq(|spans|, k requires 0 <= k < |spans| => SpanCount(spans[k]))
  }

  /** The spots a tile offers: the largest of the counts that were read, and never less
      than the starting value 0. */
  function Capacity(counts: seq<Option<int>>): (n: nat)
    ensures forall k | 0 <= k < |counts| && counts[k].Some? :: counts[k].value <= n
    ensures n == 0 || exists k | 0 <= k < |counts| :: counts[k] == Some(n as int)
    decreases |counts|
  {
    if counts == [] then 0
    else
      var init := counts[..|counts| - 1];
      var prev := Capacity(init);
      assert forall k | 0 <= k < |init| :: init[k] == counts[k];
      match counts[|counts| - 1]
      case Some(v) => if v > prev then v else prev
      case None => prev
  }

  lemma CapacityPrefix(counts: seq<Option<int>>, i: nat)
    requires i < |counts|
    ensures Capacity(counts[..i + 1]) ==
      match counts[i]
      case Some(v) => if v > Capacity(counts[..i]) then v else Capacity(counts[..i])
      case None => Capacity(counts[..i])
  {
    assert counts[..i + 1][..i] == counts[..i];
  }

  /** Lines 385-392: `available_spots = max(available_spots, spot_count)` over the spans,
      skipping those that do not read as integers. */
  method TileSpots(spans: seq<string>) returns (spots: nat)
    ensures spots == Capacity(SpanCounts(spans))
  {
    ghost var counts := SpanCounts(spans);
    spots := 0;
    var i := 0;
    while i < |spans|
      invariant 0 <= i <= |spans|
      invariant spots == Capacity(counts[..i])
    {
      var count := SpanCount(spans[i]);
      CapacityPrefix(counts, i);
      if count.Some? && count.value > spots {
        spots := count.value;
      }
      i := i + 1;
    }
    assert counts[..i] == counts;
  }

  /** What one tile adds to the list: nothing when its label is missing or it has too
      few spots for the party. */
  function TileEntry(tile: Tile, required: int): (e: Option<string>)
    ensures e.Some? <==> tile.timeLabel.Some? && Capacity(SpanCounts(tile.spans)) >= required
    ensures e.Some? ==> e.value == SlotText(tile.timeLabel.value, Capacity(SpanCounts(tile.spans)))
  {
    match tile.timeLabel
    case None => None
    case Some(time) =>
      var n := Capacity(SpanCounts(tile.spans));
      if n >= required then Some(SlotText(time, n)) else None
  }

  function EntryList(e: Option<string>): seq<string> {
    match e
    case Some(s) => [s]
    case None => []
  }

  /** The entries of all tiles, in page order. */
  function Suitable(tiles: seq<Tile>, required: int): seq<string>
    decreases |tiles|
  {
    if tiles == [] then []
    else Suitable(tiles[..|tiles| - 1], required) + EntryList(TileEntry(tiles[|tiles| - 1], required))
  }

  lemma SuitablePrefix(tiles: seq<Tile>, i: nat, required: int)
    requires i < |tiles|
    ensures Suitable(tiles[..i + 1], required)
      == Suitable(tiles[..i], required) + EntryList(TileEntry(tiles[i], required))
  {
    assert tiles[..i + 1][..i] == tiles[..i];
  }

  /** Lines 378-404: one tile, read for its label and its spans. */
  method ReadTile(tile: Tile, required: int) returns (entry: Option<string>)
    ensures entry == TileEntry(tile, required)
  {
    entry := None;
    if tile.timeLabel.Some? {
      var spots := TileSpots(tile.spans);
      if spots >= required {
        entry := Some(SlotText(tile.timeLabel.value, spots));
      }
    }
  }

  /** Lines 374-407: the loop over the tiles. A tile whose label is missing is skipped and
      the rest are still processed. */
  method CollectSlots(tiles: seq<Tile>, required: int) returns (slots: seq<string>)
    ensures slots == Suitable(tiles, required)
  {
    slots := [];
    var i := 0;
    while i < |tiles|
      invariant 0 <= i <= |tiles|
      invariant slots == Suitable(tiles[..i], required)
    {
      var entry := ReadTile(tiles[i], required);
      SuitablePrefix(tiles, i, required);
      slots := slots + EntryList(entry);
      i := i + 1;
    }
    assert tiles[..i] == tiles;
  }

  /** Tiles are judged one at a time: the list for a page is the list for its first part
      followed by the list for the rest. */
  lemma {:induction false} SuitableConcat(a: seq<Tile>, b: seq<Tile>, required: int)
    ensures Suitable(a + b, required) == Suitable(a, required) + Suitable(b, required)
    decreases |b|
  {
    if b == [] {
      assert a + b == a;
    } else {
      var b', last := b[..|b| - 1], EntryList(TileEntry(b[|b| - 1], required));
      assert (a + b)[..|a + b| - 1] == a + b';
      assert (a + b)[|a + b| - 1] == b[|b| - 1];
      SuitableConcat(a, b', required);
      calc {
        Suitable(a + b, required);
        Suitable(a + b', required) + last;
        Suitable(a, required) + Suitable(b', required) + last;
        Suitable(a, required) + (Suitable(b', required) + last);
      }
    }
  }

  /** Every reported entry comes from a tile with enough room, and there are no more
      entries than tiles. */
  lemma {:induction false} SuitableSound(tiles: seq<Tile>, required: int)
    ensures forall s | s in Suitable(tiles, required) ::
      exists k | 0 <= k < |tiles| :: TileEntry(tiles[k], required) == Some(s)
    ensures |Suitable(tiles, required)| <= |tiles|
    decreases |tiles|
  {
    if tiles != [] {
      var n := |tiles| - 1;
      var init := tiles[..n];
      SuitableSound(init, required);
      SuitablePrefix(tiles, n, required);
      assert tiles[..n + 1] == tiles;
      var last := EntryList(TileEntry(tiles[n], required));
      forall s | s in Suitable(tiles, required)
        ensures exists k | 0 <= k < |tiles| :: TileEntry(tiles[k], required) == Some(s)
      {
        if s in Suitable(init, required) {
          var k :| 0 <= k < |init| && TileEntry(init[k], required) == Some(s);
          assert tiles[k] == init[k];
        } else {
          assert s in last;
        }
      }
    }
  }

  /** Every tile with a label and enough room is reported. */
  lemma {:induction false} SuitableComplete(tiles: seq<Tile>, k: nat, required: int)
    requires k < |tiles| && TileEntry(tiles[k], required).Some?
    ensures TileEntry(tiles[k], required).value in Suitable(tiles, required)
    decreases |tiles|
  {
    var n, v := |tiles| - 1, TileEntry(tiles[k], required).value;
    var init, last := tiles[..n], EntryList(TileEntry(tiles[n], required));
    assert Suitable(tiles, required) == Suitable(init, required) + last;
    if k < n {
      assert init[k] == tiles[k];
      SuitableComplete(init, k, required);
      assert v in Suitable(init, required);
    } else {
      assert k == n;
      assert last == [v];
    }
  }


  // ------------------------------------------------------------- the check

  /** What the browser session meets: a driver that fails to start (with its error), a
      login that fails, a failure to reach the date dropdown (with its error), or the
      listed tiles. */
  datatype Session = Session(
    driverError: Option<string>,
    loginOk: bool,
    pageError: Option<string>,
    tiles: seq<Tile>)

  /** `config.get("target_date", "08-09-2025")`. */
  function CheckDate(config: Config): string {
    config.targetDate.GetOr("08-09-2025")
  }

  /** Lines 296-432: what `perform_availability_check` returns. Any failure before the
      tiles are read gives an unsuccessful check with an empty list, a zero count and the
      text of the exception; a login that fails raises "Failed to login to ForeUp". */
  function CheckOf(config: Config, session: Session): (c: AvailabilityCheck)
    ensures WellFormed(c) && c.date == CheckDate(config)
    ensures c.success <==> session.driverError.None? && session.loginOk && session.pageError.None?
    ensures c.success ==> c.availableTimes == Suitable(session.tiles, RequiredPlayers(config))
    ensures !c.success ==>
      c.errorMessage.value ==
        if session.driverError.Some? then session.driverError.value
        else if !session.loginOk then "Failed to login to ForeUp"
        else session.pageError.value
  {
    var date := CheckDate(config);
    if session.driverError.Some? then Failed(date, session.driverError.value)
    else if !session.loginOk then Failed(date, "Failed to login to ForeUp")
    else if session.pageError.Some? then Failed(date, session.pageError.value)
    else Succeeded(date, Suitable(session.tiles, RequiredPlayers(config)))
  }

  /** Lines 296-432: `perform_availability_check`, reading the tiles with the loop of
      `CollectSlots`. */
  method PerformAvailabilityCheck(config: Config, session: Session) returns (c: AvailabilityCheck)
    ensures c == CheckOf(config, session)
  {
    var date := CheckDate(config);
    if session.driverError.Some? {
      return Failed(date, session.driverError.value);
    }
    if !session.loginOk {
      return Failed(date, "Failed to login to ForeUp");
    }
    if session.pageError.Some? {
      return Failed(date, session.pageError.value);
    }
    var slots := CollectSlots(session.tiles, RequiredPlayers(config));
    return Succeeded(date, slots);
  }

  /** How `open` and `json.load` on one file ended: the file is missing
      (`FileNotFoundError`), it is there but cannot be read or parsed (any other
      exception, with its text), or it parsed. */
  datatype FileRead<T> = NotFound | Unreadable(error: string) | Parsed(contents: T)

  /** The configuration used when `foreup_config.json` cannot be opened. */
  const FALLBACK_CONFIG: Config := Config(
    Some("08-09-2025"), Some(4), None,
    Some("arn:aws:sns:us-east-1:831372995959:foreup-monitoring-us-east-1"))

  /** Lines 57-70: the configuration the handler goes on with. */
  function ConfigIn(file: FileRead<Config>): (config: Config)
    ensures file.Parsed? ==> config == file.contents
    ensures file.NotFound? ==> config == FALLBACK_CONFIG
  {
    if file.Parsed? then file.contents else FALLBACK_CONFIG
  }

  /** The message published to SNS: the topic, the subject, and the JSON message's body,
      date, times and count. */
  datatype Alert = Alert(
    topic: string,
    subject: string,
    body: string,
    date: string,
    availableTimes: seq<string>,
    totalAvailable: nat)

  /** `f"Found {total} available tee times: {', '.join(times)}"`. */
  function AlertBody(c: AvailabilityCheck): string {
    "Found " + NatToString(c.totalAvailable) + " available tee times: " + CommaJoin(c.availableTimes)
  }

  /** Lines 109-130: the alert for a check, sent only for a successful check that found
      something, and only when the configuration names `monitoring.sns_topic_arn` (a
      missing key raises `KeyError`, which is logged and dropped). */
  function AlertOf(config: Config, c: AvailabilityCheck): (a: Option<Alert>)
    ensures a.Some? <==> ShouldNotify(c) && config.monitoringTopic.Some?
    ensures a.Some? ==>
      a.value.topic == config.monitoringTopic.value
      && a.value.subject == "ForeUp Tee Time Alert - " + c.date
      && a.value.date == c.date
      && a.value.availableTimes == c.availableTimes
      && a.value.totalAvailable == c.totalAvailable
  {
    if ShouldNotify(c) && config.monitoringTopic.Some? then
      Some(Alert(config.monitoringTopic.value, "ForeUp Tee Time Alert - " + c.date, AlertBody(c),
                 c.date, c.availableTimes, c.totalAvailable))
    else None
  }

  /** The alert's body names the count and lists the times: after its fixed opening, the
      count reads back, and splitting the rest at its commas gives exactly that many
      entries, the times themselves, each later one behind a space. */
  lemma AlertBodyListsTimes(config: Config, c: AvailabilityCheck)
    requires WellFormed(c) && AlertOf(config, c).Some?
    requires forall k | 0 <= k < |c.availableTimes| :: ',' !in c.availableTimes[k]
    ensures var body := AlertOf(config, c).value.body;
      var count := NatToString(c.totalAvailable);
      var opening := "Found " + count + " available tee times: ";
      |opening| <= |body| && body[..|opening|] == opening
      && PyInt(count) == Some(c.totalAvailable)
      && Split(body[|opening|..], ',') == SpaceLed(c.availableTimes)
      && |Split(body[|opening|..], ',')| == c.totalAvailable
  {
    var count := NatToString(c.totalAvailable);
    var opening := "Found " + count + " available tee times: ";
    var body := AlertOf(config, c).value.body;
    assert body == opening + CommaJoin(c.availableTimes);
    assert body[..|opening|] == opening;
    assert body[|opening|..] == CommaJoin(c.availableTimes);
    PyIntOfNatToString(c.totalAvailable);
    CommaJoinSplits(c.availableTimes);
  }

  /** What one invocation of the handler did. `check` and `error` are what its JSON body
      reports; the timestamp and the fixed success message are not kept. */
  datatype Invocation = Invocation(
    statusCode: nat,
    check: Option<AvailabilityCheck>,
    error: Option<string>,
    metrics: seq<Metric>,
    alert: Option<Alert>)

  /** The two data points the handler puts: one check, and the count it found. */
  function HandlerMetrics(c: AvailabilityCheck): seq<Metric> {
    [Metric("AvailabilityChecks", 1), Metric("AvailableTimes", c.totalAvailable)]
  }

  /** Whether the handler stops before the check: a client that cannot be created, a
      configuration file that is there but does not load, or credentials that do not.
      What the credentials hold reaches only the login, which `Session.loginOk` records. */
  predicate FailsEarly(clientError: Option<string>, configFile: FileRead<Config>, credentialsFile: FileRead<()>) {
    clientError.Some? || configFile.Unreadable? || !credentialsFile.Parsed?
  }

  /** The error the 500 answer names when the handler stops early, in the order the
      steps run: the clients (lines 53-54), the configuration (57-59), the credentials
      (72-80). Only a missing credentials file has its own message; every other failure
      reaches the outer `except` (lines 147-149) with its own text. */
  function EarlyError(clientError: Option<string>, configFile: FileRead<Config>, credentialsFile: FileRead<()>): string
    requires FailsEarly(clientError, configFile, credentialsFile)
  {
    if clientError.Some? then clientError.value
    else if configFile.Unreadable? then configFile.error
    else if credentialsFile.NotFound? then "Credentials not found"
    else credentialsFile.error
  }

  /** Lines 37-149: `lambda_handler`. A failure before the check answers 500 with its
      error and puts nothing; otherwise it checks with the configuration it loaded or the
      fallback, puts the metrics, publishes the alert for a check that found something,
      and answers 200 with the check. Failures of `put_metric_data` and `publish` are
      logged and dropped. */
  method HandleInvocation(
    clientError: Option<string>,
    configFile: FileRead<Config>,
    credentialsFile: FileRead<()>,
    session: Session)
    returns (r: Invocation)
    ensures r.statusCode == 500 <==> FailsEarly(clientError, configFile, credentialsFile)
    ensures r.statusCode == 500 ==>
      r == Invocation(500, None, Some(EarlyError(clientError, configFile, credentialsFile)), [], None)
    ensures r.statusCode != 500 ==>
      var c := CheckOf(ConfigIn(configFile), session);
      r == Invocation(200, Some(c), None, HandlerMetrics(c), AlertOf(ConfigIn(configFile), c))
  {
    if clientError.Some? {
      return Invocation(500, None, Some(clientError.value), [], None);
    }
    if configFile.Unreadable? {
      return Invocation(500, None, Some(configFile.error), [], None);
    }
    var config := ConfigIn(configFile);
    if credentialsFile.NotFound? {
      return Invocation(500, None, Some("Credentials not found"), [], None);
    }
    if credentialsFile.Unreadable? {
      return Invocation(500, None, Some(credentialsFile.error), [], None);
    }
    var c := PerformAvailabilityCheck(config, session);
    var metrics := HandlerMetrics(c);
    var alert: Option<Alert> := None;
    if c.success && c.totalAvailable > 0 {
      // A missing `config["monitoring"]["sns_topic_arn"]` raises KeyError, which is logged.
      if config.monitoringTopic.Some? {
        alert := Some(Alert(config.monitoringTopic.value, "ForeUp Tee Time Alert - " + c.date,
                            AlertBody(c), c.date, c.availableTimes, c.totalAvailable));
      }
    }
    return Invocation(200, Some(c), None, metrics, alert);
  }
}
